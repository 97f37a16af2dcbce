/** Object names in printed rows: which of them the analyser gives back. */
module RowNames {
  import opened Words
  import opened Patterns
  import opened OpRows
  import opened DroppedRows
  import ObjectNames
  import Utf8

  // ================= a name with a blank never comes back =================

  lemma CapturedField(labels: seq<string>, re: Re, rest: seq<Item>)
    ensures Captured(Field(labels, re, rest)) == [re] + Captured(rest)
  {
    var f := Field(labels, re, rest);
    CapturedPlain(BLANKS.re, rest);
    CapturedGroup(re, [BLANKS] + rest);
    CapturedPlain(BLANKS.re, [Group(re)] + ([BLANKS] + rest));
    CapturedPlain(Alt(labels), [BLANKS] + ([Group(re)] + ([BLANKS] + rest)));
  }

  lemma CapturedPlain(re: Re, rest: seq<Item>)
    ensures Captured([Plain(re)] + rest) == Captured(rest)
  {
    assert ([Plain(re)] + rest)[1..] == rest;
  }

  lemma CapturedGroup(re: Re, rest: seq<Item>)
    ensures Captured([Group(re)] + rest) == [re] + Captured(rest)
  {
    assert ([Group(re)] + rest)[1..] == rest;
  }

  lemma CapturedOption(items: seq<Item>, rest: seq<Item>)
    ensures Captured([Opt(items)] + rest) == Captured(items) + Captured(rest)
  {
    assert ([Opt(items)] + rest)[1..] == rest;
  }

  /** The first group of what the row says of its object is the name, a run without blanks. */
  lemma NameInObject()
    ensures Captured(ObjectPattern()) != [] && Captured(ObjectPattern())[0] == Run(NonBlank, 1)
  {
    CapturedOption(Field(["object"], Run(NonBlank, 1), []),
                   [Opt(Field(["osd_ops", "txn_ops"], Enclosed('[', ']'), []))] + LatencyPattern());
    CapturedField(["object"], Run(NonBlank, 1), []);
  }

  lemma CapturedIds(rest: seq<Item>)
    ensures Captured(IdPattern(rest)) == [DIGITS] + ([DIGITS] + ([DIGITS] + Captured(rest)))
  {
    var p2 := Field(["tid"], DIGITS, rest);
    CapturedField(["tid"], DIGITS, rest);
    CapturedField(["client"], DIGITS, p2);
    CapturedField(["size"], DIGITS, Field(["client"], DIGITS, p2));
  }

  lemma CapturedHead(rest: seq<Item>)
    ensures Captured(HeadPattern(rest)) == [DIGITS] + ([Run(NonBlank, 1)] + ([Alt(OP_NAMES)] + Captured(rest)))
  {
    var kind := [Group(Alt(OP_NAMES))] + ([BLANKS] + rest);
    CapturedGroup(Alt(OP_NAMES), [BLANKS] + rest);
    CapturedPlain(BLANKS.re, rest);
    CapturedField(["pg"], Run(NonBlank, 1), kind);
    CapturedField(["osd"], DIGITS, Field(["pg"], Run(NonBlank, 1), kind));
  }

  lemma SeventhGroup(res: seq<Re>, head: seq<Re>, ids: seq<Re>, rest: seq<Re>)
    requires res == head + (ids + rest) && |head| == 3 && |ids| == 3 && rest != []
    ensures |res| > 6 && res[6] == rest[0]
  {
  }

  lemma NameGroup(rest: seq<Item>)
    requires Captured(rest) != []
    ensures var res := Captured(HeadPattern(IdPattern(rest)));
            |res| > 6 && res[6] == Captured(rest)[0]
  {
    var last := Captured(rest);
    CapturedIds(rest);
    CapturedHead(IdPattern(rest));
    assert Captured(HeadPattern(IdPattern(rest)))
        == [DIGITS, Run(NonBlank, 1), Alt(OP_NAMES)] + ([DIGITS, DIGITS, DIGITS] + last);
    SeventhGroup(Captured(HeadPattern(IdPattern(rest))), [DIGITS, Run(NonBlank, 1), Alt(OP_NAMES)],
                 [DIGITS, DIGITS, DIGITS], last);
  }

  lemma FittingName(res: seq<Re>, g: Captures)
    requires Fits(res, g) && |res| > 6 && res[6] == Run(NonBlank, 1)
    ensures GroupAt(g, 6).Some? ==> NoBlank(GroupAt(g, 6).value)
  {
  }

  lemma SearchedName(rest: seq<Item>, line: string)
    requires Captured(rest) != [] && Captured(rest)[0] == Run(NonBlank, 1)
    ensures var m := Search(HeadPattern(IdPattern(rest)), line);
            m.Some? && GroupAt(m.value.groups, 6).Some? ==> NoBlank(GroupAt(m.value.groups, 6).value)
  {
    var p := HeadPattern(IdPattern(rest));
    NameGroup(rest);
    SearchFits(p, line);
    if Search(p, line).Some? { FittingName(Captured(p), Search(p, line).value.groups); }
  }

  /** Whatever the line, the name it is parsed to has no blank. */
  lemma ParsedNameHasNoBlank(line: string)
    ensures var e := ParseLine(line);
            e.Some? && e.value.name.Some? ==> NoBlank(e.value.name.value)
  {
    NameInObject();
    SearchedName(ObjectPattern(), line);
  }

  /** A printed row comes back as what it was printed from if and only if no number in it is negative
      and the object's name holds no blank. */
  lemma ComesBackIff(row: OpRow)
    requires row.name != "" && ListText(row.ops)
    ensures (ParseLine(RowText(row)).Some? && Describes(ParseLine(RowText(row)).value, row))
            <==> NonNegative(row) && NoBlank(row.name)
  {
    ParsedNameHasNoBlank(RowText(row));
    if NonNegative(row) && NoBlank(row.name) { ParsePrinted(row); }
  }

  // ================= a blank inside the name drops the row =================

  predicate Blanks(s: string) {
    s != "" && forall i | 0 <= i < |s| :: IsBlank(s[i])
  }

  /** What may follow the object: the op list, or the latencies. */
  predicate Continues(text: string) {
    "osd_ops" <= text || "txn_ops" <= text || "throttle_lat" <= text
  }

  function AfterName(): seq<Item> {
    [Opt(Field(["osd_ops", "txn_ops"], Enclosed('[', ']'), []))] + LatencyPattern()
  }

  lemma OptionalFails(labels: seq<string>, re: Re, rest: seq<Item>, text: string)
    requires Match(Field(labels, re, rest), text).None? && Match(rest, text).None?
    ensures Match([Opt(Field(labels, re, []))] + rest, text).None?
  {
    assert Field(labels, re, []) + rest == Field(labels, re, rest);
    assert ([Opt(Field(labels, re, []))] + rest)[1..] == rest;
  }

  lemma ListFails(text: string, rest: seq<Item>)
    requires !("osd_ops" <= text) && !("txn_ops" <= text)
    ensures Match(Field(["osd_ops", "txn_ops"], Enclosed('[', ']'), rest), text).None?
  {
    var labels := ["osd_ops", "txn_ops"];
    var more := labels[1..];
    assert more == ["txn_ops"] && more[1..] == [];
    assert Options(more, text) == [] + Options(more[1..], text) == [];
    assert Options(labels, text) == [] + Options(more, text) == [];
    NothingMatches(Plain(Alt(labels)), [BLANKS] + ([Group(Enclosed('[', ']'))] + ([BLANKS] + rest)), text);
  }

  lemma NothingFollows(text: string)
    requires !Continues(text)
    ensures Match(AfterName(), text).None?
  {
    ListFails(text, LatencyPattern());
    LatenciesFail(text);
    OptionalFails(["osd_ops", "txn_ops"], Enclosed('[', ']'), LatencyPattern(), text);
  }

  lemma LatenciesFail(text: string)
    requires !("throttle_lat" <= text)
    ensures Match(LatencyPattern(), text).None?
  {
    assert Options(["throttle_lat"], text) == [];
    NothingMatches(Plain(Alt(["throttle_lat"])), LatencyPattern()[1..], text);
    assert LatencyPattern() == [Plain(Alt(["throttle_lat"]))] + LatencyPattern()[1..];
  }

  /** However many of the blanks are taken, nothing that may follow the object does. */
  lemma BlanksFail(b: string, tail: string)
    requires Blanks(b) && Word(tail) && !Continues(tail)
    ensures Match([BLANKS] + AfterName(), b + tail).None?
  {
    var s, ns := b + tail, Down(|b|, 1);
    forall n <- ns ensures n <= |s| && Match(AfterName(), s[n..]).None? {
      if n < |b| {
        assert s[n..][0] == b[n];
        assert "osd_ops"[0] == 'o' && "txn_ops"[0] == 't' && "throttle_lat"[0] == 't';
      } else {
        assert s[n..] == tail;
      }
      NothingFollows(s[n..]);
    }
    NoneFits(ns, AfterName(), s, false);
    SpanIs(Blank, b, tail);
    assert ([BLANKS] + AfterName())[1..] == AfterName();
  }

  lemma WordPrefix(word: string, c: string, tail: string)
    requires NoBlank(word) && word <= c + (" " + tail)
    ensures word <= c
  {
    assert (c + (" " + tail))[|c|] == ' ';
  }

  lemma ContinuesWord(c: string, tail: string)
    requires Word(c) && !Continues(c)
    ensures !Continues(c + (" " + tail))
  {
    var text := c + (" " + tail);
    if "osd_ops" <= text { WordPrefix("osd_ops", c, tail); }
    if "txn_ops" <= text { WordPrefix("txn_ops", c, tail); }
    if "throttle_lat" <= text { WordPrefix("throttle_lat", c, tail); }
  }

  lemma NameRegroups(a: string, b: string, c: string, tail: string)
    ensures Labelled("object", a + b + c, tail) == "object" + (" " + (a + (b + (c + (" " + tail)))))
  {
    assert (a + b + c) + (" " + tail) == a + (b + (c + (" " + tail)));
  }

  lemma ObjectIsNoOther(name: string, tail: string)
    ensures !Continues(Labelled("object", name, tail))
  {
    var text := Labelled("object", name, tail);
    assert text[0] == 'o' && text[1] == 'b';
    assert "osd_ops"[1] == 's' && "txn_ops"[0] == 't' && "throttle_lat"[0] == 't';
  }

  lemma SplitFieldFails(a: string, b: string, c: string, tail: string)
    requires a != "" && NoBlank(a) && Blanks(b) && Word(c) && !Continues(c)
    ensures Match(Field(["object"], Run(NonBlank, 1), AfterName()), Labelled("object", a + b + c, tail)).None?
  {
    var after := b + (c + (" " + tail));
    ContinuesWord(c, tail);
    BlanksFail(b, c + (" " + tail));
    FieldFails("object", NonBlank, a, after, AfterName());
    NameRegroups(a, b, c, tail);
  }

  lemma SplitNameFails(row: OpRow, a: string, b: string, c: string)
    requires row.name == a + b + c
    requires a != "" && NoBlank(a) && Blanks(b) && Word(c) && !Continues(c)
    ensures Match(ObjectPattern(), ObjectText(row)).None?
  {
    var tail := Labelled(OpsLabel(row.kind), "[" + row.ops + "]", LatencyText(row));
    SplitFieldFails(a, b, c, tail);
    ObjectIsNoOther(row.name, tail);
    NothingFollows(ObjectText(row));
    OptionalFails(["object"], Run(NonBlank, 1), AfterName(), ObjectText(row));
  }

  /** A row whose object's name has a blank inside is dropped, unless what follows the blank reads
      like the rest of a row, or a blank follows the letters osd. */
  lemma SplitNameDropped(row: OpRow, a: string, b: string, c: string)
    requires row.name == a + b + c && Tame(row)
    requires a != "" && NoBlank(a) && Blanks(b) && Word(c) && !Continues(c)
    ensures ParseLine(RowText(row)).None?
  {
    SplitNameFails(row, a, b, c);
    SubjectFails(row);
    SubjectIsText(row);
    HeadDropped(row, SubjectText(row), SubjectPattern());
  }

  // ================= a blank at its end is lost =================

  lemma BlanksRead(b: string, tail: string, rest: seq<Item>, m: Matched)
    requires Blanks(b) && Word(tail) && Match(rest, tail) == Some(m)
    ensures Match([BLANKS] + rest, b + tail) == Some(m)
  {
    RunPrefers(Blank, 1, b, tail);
    PlainReads(Run(Blank, 1), b, tail, rest, m);
  }

  lemma CutNameReads(row: OpRow, a: string, b: string)
    requires row.name == a + b && a != "" && NoBlank(a) && Blanks(b) && ListText(row.ops)
    ensures Match(ObjectPattern(), ObjectText(row)) == Some(Matched(ObjectGroups(row.(name := a)), "\n"))
    ensures Word(ObjectText(row))
  {
    var tail := Labelled(OpsLabel(row.kind), "[" + row.ops + "]", LatencyText(row));
    var m := Matched([Some("[" + row.ops + "]")] + LatencyGroups(row), "\n");
    var after := (b + " ") + tail;
    OpsRead(row.(name := a));
    KeyIsWord(OpsLabel(row.kind), "[" + row.ops + "]", LatencyText(row));
    BlanksRead(b + " ", tail, AfterName(), m);
    RunPrefers(NonBlank, 1, a, after);
    GroupReads(Run(NonBlank, 1), a, after, [BLANKS] + AfterName(), m);
    NameGoesOn(a, b, tail, AfterName(), Matched([Some(a)] + m.groups, "\n"));
    OptionalFieldReads(["object"], Run(NonBlank, 1), ObjectText(row), AfterName(), Matched([Some(a)] + m.groups, "\n"));
    KeyIsWord("object", row.name, tail);
  }

  lemma NameGoesOn(a: string, b: string, tail: string, rest: seq<Item>, m: Matched)
    requires Word(a)
    requires Match([Group(Run(NonBlank, 1))] + ([BLANKS] + rest), a + ((b + " ") + tail)) == Some(m)
    ensures Match(Field(["object"], Run(NonBlank, 1), rest), Labelled("object", a + b, tail)) == Some(m)
  {
    var text := a + ((b + " ") + tail);
    assert Labelled("object", a + b, tail) == "object" + (" " + text);
    WordGoesOn(a, (b + " ") + tail);
    BlankReads(text, [Group(Run(NonBlank, 1))] + ([BLANKS] + rest), m);
    WordPrefers(["object"], 0, " " + text);
    PlainReads(Alt(["object"]), "object", " " + text, [BLANKS] + ([Group(Run(NonBlank, 1))] + ([BLANKS] + rest)), m);
  }

  lemma SeventhCapture(head: Captures, ids: Captures, rest: Captures)
    requires |head| == 3 && |ids| == 3 && rest != []
    ensures GroupAt(head + (ids + rest), 6) == rest[0]
  {
  }

  lemma NameOf(row: OpRow, more: Captures)
    requires more != []
    ensures GroupAt(HeadGroups(row, IdGroups(row, more)), 6) == more[0]
  {
    var head := [Some(Signed(row.osd)), Some(Pg(row)), Some(OpName(row.kind))];
    var ids := [Some(Signed(row.size)), Some(Signed(row.client)), Some(Signed(row.tid))];
    assert HeadGroups(row, IdGroups(row, more)) == head + (ids + more);
    SeventhCapture(head, ids, more);
  }

  /** A name that ends in blanks is taken for the one without them. */
  lemma CutNameTaken(row: OpRow, a: string, b: string)
    requires row.name == a + b && a != "" && NoBlank(a) && Blanks(b) && ListText(row.ops) && NonNegative(row)
    ensures ParseLine(RowText(row)).Some? && ParseLine(RowText(row)).value.name == Some(a)
  {
    var groups := ObjectGroups(row.(name := a));
    CutNameReads(row, a, b);
    assert groups[0] == Some(a);
    RowReadsWith(row, Matched(groups, "\n"));
    NameOf(row, groups);
  }

  const WITNESS: OpRow := OpRow(ReadOp, 0, 2, 17, 4096, 4123, 99, "obj", "read", 1, 1, 1, 1, 1, [], 1, 5)

  /** A name with a no-break space inside is lost with its row... */
  lemma SplitNameHappens()
    ensures NonNegative(WITNESS) && ParseLine(RowText(WITNESS.(name := "a\U{a0}b"))).None?
  {
    assert "a\U{a0}b" == "a" + "\U{a0}" + "b";
    SplitNameDropped(WITNESS.(name := "a\U{a0}b"), "a", "\U{a0}", "b");
  }

  /** ...and one that ends in it loses it. */
  lemma CutNameHappens()
    ensures var e := ParseLine(RowText(WITNESS.(name := "a\U{a0}")));
            e.Some? && e.value.name == Some("a")
  {
    assert "a\U{a0}" == "a" + "\U{a0}";
    CutNameTaken(WITNESS.(name := "a\U{a0}"), "a", "\U{a0}");
  }

  // ================= object names of any text =================

  lemma {:induction false} EscapedBlanks(t: string, size: nat)
    ensures NoBlank(Utf8.Escaped(t, size)) <==> forall i | 0 <= i < |t| && t[i] >= '\U{80}' :: !IsBlank(t[i])
    ensures |Utf8.Escaped(t, size)| >= |t|
  {
    if t != "" {
      EscapedBlanks(t[1..], size);
      var rest := Utf8.Escaped(t[1..], size);
      var first := if t[0] < '\U{80}' then Utf8.AsText(ObjectNames.CodeOf(t[0] as int, size)) else [t[0]];
      assert Utf8.Escaped(t, size) == first + rest;
      assert t[0] < '\U{80}' ==> NoBlank(first);
      assert NoBlank(first + rest) <==> NoBlank(first) && NoBlank(rest) by {
        assert forall i | 0 <= i < |first| :: (first + rest)[i] == first[i];
        assert forall i | 0 <= i < |rest| :: (first + rest)[|first| + i] == rest[i];
      }
      assert forall i | 0 < i < |t| :: t[i] == t[1..][i - 1];
    }
  }

  /** An object whose name is the text t: its row shows the encoding of the name's bytes; the name
      can be decoded from what the row is parsed to, whatever its bytes below 0x80, and is parsed
      whole if and only if no character above them is a blank. */
  lemma ObjectComesBackIff(row: OpRow, t: string)
    requires row.name == Utf8.Printed(t) && ListText(row.ops) && NonNegative(row)
    ensures Utf8.Encoded(row.name) == ObjectNames.Encode(Utf8.Encoded(t))
    ensures ObjectNames.Decode(Utf8.Encoded(row.name)) == Some(Utf8.Encoded(t))
    ensures (ParseLine(RowText(row)).Some? && ParseLine(RowText(row)).value.name == Some(row.name))
            <==> forall i | 0 <= i < |t| && t[i] >= '\U{80}' :: !IsBlank(t[i])
  {
    Utf8.PrintedIs(t);
    ObjectNames.DecodeEncode(Utf8.Encoded(t));
    PrintedBlanks(t);
    NameReturnedIff(row);
  }

  lemma PrintedBlanks(t: string)
    ensures Utf8.Printed(t) != ""
    ensures NoBlank(Utf8.Printed(t)) <==> forall i | 0 <= i < |t| && t[i] >= '\U{80}' :: !IsBlank(t[i])
  {
    if t != "" { EscapedBlanks(t, |Utf8.Encoded(t)|); }
  }

  lemma NameReturnedIff(row: OpRow)
    requires row.name != "" && ListText(row.ops) && NonNegative(row)
    ensures (ParseLine(RowText(row)).Some? && ParseLine(RowText(row)).value.name == Some(row.name)) <==> NoBlank(row.name)
  {
    ParsedNameHasNoBlank(RowText(row));
    if NoBlank(row.name) { ParsePrinted(row); }
  }
}
