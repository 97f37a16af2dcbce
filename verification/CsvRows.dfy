/** The rows of radostrace's CSV file, and a reader that follows section 2 of RFC 4180 (with the
    line ends the file has: a bare newline). */
module CsvRows {
  import opened Words

  predicate Special(c: char) {
    c == ',' || c == '"' || c == '\n' || c == '\r'
  }

  predicate NeedsQuotes(s: string) {
    exists i :: 0 <= i < |s| && Special(s[i])
  }

  function Doubled(s: string): string {
    if s == "" then ""
    else Doubled(s[..|s| - 1]) + (if s[|s| - 1] == '"' then "\"\"" else [s[|s| - 1]])
  }

  function Escaped(s: string): string {
    if NeedsQuotes(s) then "\"" + Doubled(s) + "\"" else s
  }

  /** csv_escape */
  method CsvEscape(s: string) returns (out: string)
    ensures out == Escaped(s)
  {
    var needQuotes := false;
    var i := 0;
    while i < |s|
      invariant 0 <= i <= |s| && !needQuotes && forall j | 0 <= j < i :: !Special(s[j])
    {
      var c := s[i];
      if c == ',' || c == '"' || c == '\n' || c == '\r' {
        needQuotes := true;
        break;
      }
      i := i + 1;
    }
    if !needQuotes { return s; }
    out := "\"";
    i := 0;
    while i < |s|
      invariant 0 <= i <= |s| && out == "\"" + Doubled(s[..i])
    {
      assert s[..i + 1][..i] == s[..i];
      if s[i] == '"' { out := out + ['"']; }
      out := out + [s[i]];
      i := i + 1;
    }
    assert s[..i] == s;
    out := out + ['"'];
  }

  /** A field stands as it is exactly when it has no comma, quote or line end. */
  lemma EscapedIff(s: string)
    ensures Escaped(s) == s <==> forall i | 0 <= i < |s| :: s[i] != ',' && s[i] != '"' && s[i] != '\n' && s[i] != '\r'
  {
    DoubledIsLonger(s);
    forall i | 0 <= i < |s| ensures Special(s[i]) <==> s[i] == ',' || s[i] == '"' || s[i] == '\n' || s[i] == '\r' {
    }
  }

  lemma {:induction false} DoubledIsLonger(s: string)
    ensures |Doubled(s)| >= |s|
  {
    if s != "" { DoubledIsLonger(s[..|s| - 1]); }
  }

  /** The fields of a row, between commas; numbers are printed as they are. */
  function RowText(fields: seq<string>): string
    requires fields != []
  {
    Escaped(fields[0]) + if |fields| == 1 then "\n" else "," + RowText(fields[1..])
  }

  // ================= the reader =================

  /** One field and what follows it. */
  datatype Reading = Failed | Field(text: string, rest: string)

  function Prefixed(front: string, r: Reading): Reading {
    if r.Failed? then Failed else Field(front + r.text, r.rest)
  }

  /** An unquoted field ends before a comma or a line end. */
  function ReadPlain(s: string): (r: Reading)
    ensures r.Field? ==> |r.rest| <= |s|
  {
    if s == "" || s[0] == ',' || s[0] == '\n' then Field("", s)
    else if Special(s[0]) then Failed
    else Prefixed([s[0]], ReadPlain(s[1..]))
  }

  /** A quoted field, after its opening quote. */
  function ReadQuoted(s: string): (r: Reading)
    ensures r.Field? ==> |r.rest| <= |s|
  {
    if s == "" then Failed
    else if s[0] != '"' then Prefixed([s[0]], ReadQuoted(s[1..]))
    else if |s| > 1 && s[1] == '"' then Prefixed(['"'], ReadQuoted(s[2..]))
    else Field("", s[1..])
  }

  function ReadField(s: string): (r: Reading)
    ensures r.Field? ==> |r.rest| <= |s|
  {
    if s != "" && s[0] == '"' then ReadQuoted(s[1..]) else ReadPlain(s)
  }

  /** One record, up to and including its line end, and the text after it. */
  function ReadRow(s: string): (r: Option<(seq<string>, string)>)
    ensures r.Some? ==> |r.value.1| < |s|
    decreases |s|
  {
    var f := ReadField(s);
    if f.Failed? || f.rest == "" then None
    else if f.rest[0] == '\n' then Some(([f.text], f.rest[1..]))
    else if f.rest[0] != ',' then None
    else
      var more := ReadRow(f.rest[1..]);
      if more.None? then None else Some(([f.text] + more.value.0, more.value.1))
  }

  function ReadFile(s: string): Option<seq<seq<string>>>
    decreases |s|
  {
    if s == "" then Some([])
    else
      var row := ReadRow(s);
      if row.None? then None
      else
        var more := ReadFile(row.value.1);
        if more.None? then None else Some([row.value.0] + more.value)
  }

  // ================= what is written is read back =================

  /** A field is followed by a comma or a line end. */
  predicate Ends(tail: string) {
    tail != "" && (tail[0] == ',' || tail[0] == '\n')
  }

  lemma {:induction false} PlainReads(f: string, tail: string)
    requires !NeedsQuotes(f) && Ends(tail)
    ensures ReadPlain(f + tail) == Field(f, tail)
  {
    if f == "" {
      assert f + tail == tail;
    } else {
      assert !Special(f[0]);
      assert forall i | 0 <= i < |f[1..]| :: f[1..][i] == f[i + 1];
      PlainReads(f[1..], tail);
      assert (f + tail)[1..] == f[1..] + tail;
      assert [f[0]] + f[1..] == f;
    }
  }

  lemma PrefixedTwice(front: string, c: char, r: Reading)
    ensures Prefixed(front, Prefixed([c], r)) == Prefixed(front + [c], r)
    ensures Prefixed("", r) == r
  {
    if r.Field? {
      assert front + ([c] + r.text) == (front + [c]) + r.text;
      assert "" + r.text == r.text;
    }
  }

  lemma {:induction false} QuotedReads(f: string, tail: string)
    ensures ReadQuoted(Doubled(f) + tail) == Prefixed(f, ReadQuoted(tail))
  {
    if f == "" {
      assert Doubled(f) + tail == tail;
      PrefixedTwice("", 'x', ReadQuoted(tail));
    } else {
      var front, c := f[..|f| - 1], f[|f| - 1];
      var code := if c == '"' then "\"\"" else [c];
      QuotedReads(front, code + tail);
      assert (code + tail)[|code|..] == tail;
      PrefixedTwice(front, c, ReadQuoted(tail));
      assert Doubled(f) + tail == Doubled(front) + (code + tail);
      assert front + [c] == f;
    }
  }

  /** Whatever a field holds, commas, quotes and line ends included, it reads back as it was. */
  lemma FieldReads(f: string, tail: string)
    requires Ends(tail)
    ensures ReadField(Escaped(f) + tail) == Field(f, tail)
  {
    if NeedsQuotes(f) {
      assert Escaped(f) + tail == ['"'] + (Doubled(f) + ("\"" + tail));
      assert (Escaped(f) + tail)[1..] == Doubled(f) + ("\"" + tail);
      QuotedReads(f, "\"" + tail);
      assert ("\"" + tail)[1..] == tail;
      assert f + "" == f;
    } else {
      assert f != "" ==> (f + tail)[0] == f[0] && !Special(f[0]);
      PlainReads(f, tail);
    }
  }

  lemma LastFieldReads(f: string, after: string)
    ensures ReadRow(Escaped(f) + ("\n" + after)) == Some(([f], after))
  {
    FieldReads(f, "\n" + after);
    assert ("\n" + after)[1..] == after;
  }

  lemma NextFieldReads(f: string, row: string)
    ensures ReadRow(Escaped(f) + ("," + row))
            == match ReadRow(row)
               case None => None
               case Some((fields, after)) => Some(([f] + fields, after))
  {
    FieldReads(f, "," + row);
    assert ("," + row)[1..] == row;
  }

  lemma Regroup(a: string, b: string, c: string, d: string)
    ensures (a + (b + c)) + d == a + (b + (c + d))
  {
  }

  lemma RowTextSplits(fields: seq<string>, after: string)
    requires |fields| > 1
    ensures RowText(fields) + after == Escaped(fields[0]) + ("," + (RowText(fields[1..]) + after))
  {
    Regroup(Escaped(fields[0]), ",", RowText(fields[1..]), after);
  }

  lemma HeadAndTail<T>(s: seq<T>)
    requires s != []
    ensures s == [s[0]] + s[1..]
  {
  }

  lemma {:induction false} RowReads(fields: seq<string>, after: string)
    requires fields != []
    ensures ReadRow(RowText(fields) + after) == Some((fields, after))
  {
    HeadAndTail(fields);
    if |fields| == 1 {
      LastFieldReads(fields[0], after);
      assert fields == [fields[0]];
      assert RowText(fields) + after == Escaped(fields[0]) + ("\n" + after);
    } else {
      NextFieldReads(fields[0], RowText(fields[1..]) + after);
      RowReads(fields[1..], after);
      RowTextSplits(fields, after);
    }
  }

  function FileText(rows: seq<seq<string>>): string
    requires forall i | 0 <= i < |rows| :: rows[i] != []
  {
    if rows == [] then "" else RowText(rows[0]) + FileText(rows[1..])
  }

  /** A file of rows reads back as those rows. */
  lemma {:induction false} FileReads(rows: seq<seq<string>>)
    requires forall i | 0 <= i < |rows| :: rows[i] != []
    ensures ReadFile(FileText(rows)) == Some(rows)
  {
    if rows != [] {
      RowReads(rows[0], FileText(rows[1..]));
      FileReads(rows[1..]);
      HeadAndTail(rows);
    }
  }
}
