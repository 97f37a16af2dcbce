/** The rows the analyser's line parser does not recognise: those with a negative number. */
module DroppedRows {
  import opened Words
  import opened Patterns
  import opened OpRows

  // ================= a field that does not match =================

  lemma {:induction false} NoneFits(ns: seq<nat>, rest: seq<Item>, s: string, capture: bool)
    requires forall n <- ns :: n <= |s| && Match(rest, s[n..]).None?
    ensures TryEach(ns, rest, s, capture).None?
  {
    if ns != [] {
      assert ns[0] in ns && forall n <- ns[1..] :: n in ns;
      NoneFits(ns[1..], rest, s, capture);
    }
  }

  lemma LabelFails(key: string, tail: string, rest: seq<Item>)
    requires Match(rest, tail).None?
    ensures Match([Plain(Alt([key]))] + rest, key + tail).None?
  {
    var s := key + tail;
    assert s[|key|..] == tail && Options([key], s) == [|key|];
    NoneFits([|key|], rest, s, false);
    assert ([Plain(Alt([key]))] + rest)[1..] == rest;
  }

  lemma BlankFails(tail: string, rest: seq<Item>)
    requires Word(tail) && Match(rest, tail).None?
    ensures Match([BLANKS] + rest, " " + tail).None?
  {
    var s := " " + tail;
    SpanIs(Blank, " ", tail);
    assert Lengths(Run(Blank, 1), s) == [1] && s[1..] == tail;
    NoneFits([1], rest, s, false);
    assert ([BLANKS] + rest)[1..] == rest;
  }

  lemma CutFails(value: string, after: string, n: nat, rest: seq<Item>)
    requires n < |value| && !IsBlank(value[n])
    ensures Match([BLANKS] + rest, (value + after)[n..]).None?
  {
    assert (value + after)[n..][0] == value[n];
    NotBlank((value + after)[n..], rest);
  }

  /** Giving characters of a word back does not help: a blank has to follow. */
  lemma RunFails(k: Class, value: string, after: string, rest: seq<Item>)
    requires !k.Blank? && forall i | 0 <= i < |value| :: In(k, value[i])
    requires (after == "" || !In(k, after[0])) && Match([BLANKS] + rest, after).None?
    ensures Match([Group(Run(k, 1))] + ([BLANKS] + rest), value + after).None?
  {
    var s, ns := value + after, Down(|value|, 1);
    forall n <- ns ensures n <= |s| && Match([BLANKS] + rest, s[n..]).None? {
      if n < |value| { CutFails(value, after, n, rest); } else { assert s[n..] == after; }
    }
    NoneFits(ns, [BLANKS] + rest, s, true);
    SpanIs(k, value, after);
    assert ([Group(Run(k, 1))] + ([BLANKS] + rest))[1..] == [BLANKS] + rest;
  }

  /** What fails after a field makes the field fail. */
  lemma FieldFails(key: string, k: Class, value: string, after: string, rest: seq<Item>)
    requires !k.Blank? && Word(value) && forall i | 0 <= i < |value| :: In(k, value[i])
    requires (after == "" || !In(k, after[0])) && Match([BLANKS] + rest, after).None?
    ensures Match(Field([key], Run(k, 1), rest), key + (" " + (value + after))).None?
  {
    RunFails(k, value, after, rest);
    WordGoesOn(value, after);
    BlankFails(value + after, [Group(Run(k, 1))] + ([BLANKS] + rest));
    LabelFails(key, " " + (value + after), [BLANKS] + ([Group(Run(k, 1))] + ([BLANKS] + rest)));
  }

  /** So does a negative number in it; a number field matches no minus sign. */
  lemma NumberFails(key: string, n: int, tail: string, rest: seq<Item>)
    requires Word(tail) && (n < 0 || Match(rest, tail).None?)
    ensures Match(Field([key], DIGITS, rest), Labelled(key, Signed(n), tail)).None?
  {
    if n < 0 {
      var s := Signed(n) + (" " + tail);
      assert s[0] == '-' && Span(Digit, s) == 0;
      NothingMatches(Group(DIGITS), [BLANKS] + rest, s);
      BlankFails(s, [Group(DIGITS)] + ([BLANKS] + rest));
      LabelFails(key, " " + s, [BLANKS] + ([Group(DIGITS)] + ([BLANKS] + rest)));
    } else {
      BlankFails(tail, rest);
      FieldFails(key, Digit, Signed(n), " " + tail, rest);
    }
  }

  lemma SubjectFails(row: OpRow)
    requires row.size < 0 || row.client < 0 || row.tid < 0 || Match(ObjectPattern(), ObjectText(row)).None?
    ensures Match(SubjectPattern(), SubjectText(row)).None?
  {
    var p3, t3 := ObjectPattern(), ObjectText(row);
    var p2, t2 := Field(["tid"], DIGITS, p3), Labelled("tid", Signed(row.tid), t3);
    var p1, t1 := Field(["client"], DIGITS, p2), Labelled("client", Signed(row.client), t2);
    KeyIsWord("object", row.name, Labelled(OpsLabel(row.kind), "[" + row.ops + "]", LatencyText(row)));
    var broken := Match(p3, t3).None?;
    if row.tid < 0 || broken { NumberFails("tid", row.tid, t3, p3); }
    if row.client < 0 || row.tid < 0 || broken { NumberFails("client", row.client, t2, p2); }
    NumberFails("size", row.size, t1, p1);
  }

  lemma KindFails(k: Kind, subject: string, rest: seq<Item>)
    requires Word(subject) && Match(rest, subject).None?
    ensures Match([Group(Alt(OP_NAMES))] + ([BLANKS] + rest), OpName(k) + (" " + subject)).None?
  {
    var s := OpName(k) + (" " + subject);
    BlankFails(subject, rest);
    assert s[|OpName(k)|..] == " " + subject;
    OneName(k, " " + subject);
    NoneFits([|OpName(k)|], [BLANKS] + rest, s, true);
    assert ([Group(Alt(OP_NAMES))] + ([BLANKS] + rest))[1..] == [BLANKS] + rest;
  }

  /** Only one of the op names is at hand. */
  lemma OneName(k: Kind, tail: string)
    ensures Options(OP_NAMES, OpName(k) + tail) == [|OpName(k)|]
  {
    var s := OpName(k) + tail;
    assert ("op_r" <= s) == k.ReadOp? && ("op_w" <= s) == k.WriteOp? && ("subop_w" <= s) == k.SubopWrite? && !("subop_r" <= s) by {
      assert "op_r"[0] == 'o' && "op_r"[3] == 'r' && "op_w"[0] == 'o' && "op_w"[3] == 'w';
      assert "subop_w"[0] == 's' && "subop_w"[6] == 'w' && "subop_r"[0] == 's' && "subop_r"[6] == 'r';
    }
    var last, three, two := ["op_r"], ["subop_r", "op_w", "op_r"], ["op_w", "op_r"];
    assert last[1..] == [] && two[1..] == last && three[1..] == two && OP_NAMES[1..] == three;
    assert Options(last, s) == if k.ReadOp? then [4] else [];
    assert Options(two, s) == if k.ReadOp? || k.WriteOp? then [4] else [];
    assert Options(three, s) == Options(two, s);
  }

  lemma HeadFails(row: OpRow, subject: string, rest: seq<Item>)
    requires Word(subject) && (row.osd < 0 || Match(rest, subject).None?)
    ensures Match(HeadPattern(rest), HeadText(row, subject)).None?
  {
    var tail := OpName(row.kind) + (" " + subject);
    var kinds := [Group(Alt(OP_NAMES))] + ([BLANKS] + rest);
    WordGoesOn(OpName(row.kind), " " + subject);
    KeyIsWord("pg", Pg(row), tail);
    if row.osd >= 0 {
      KindFails(row.kind, subject, rest);
      PgIsWord(row);
      BlankFails(tail, kinds);
      FieldFails("pg", NonBlank, Pg(row), " " + tail, kinds);
    }
    NumberFails("osd", row.osd, Labelled("pg", Pg(row), tail), Field(["pg"], Run(NonBlank, 1), kinds));
  }

  // ================= no other place to start =================

  /** The word osd and then a blank and a number, or more blanks. */
  predicate OsdAt(s: string, p: nat) {
    && p + 4 < |s| && s[p] == 'o' && s[p + 1] == 's' && s[p + 2] == 'd'
    && IsBlank(s[p + 3]) && (IsBlank(s[p + 4]) || '0' <= s[p + 4] <= '9')
  }

  predicate Quiet(s: string) {
    forall p: nat | p < |s| :: !OsdAt(s, p)
  }

  lemma NoStart(s: string, rest: seq<Item>)
    requires !OsdAt(s, 0)
    ensures Match(Field(["osd"], DIGITS, rest), s).None?
  {
    var number := [Group(DIGITS)] + ([BLANKS] + rest);
    if "osd" <= s {
      var after := s[3..];
      assert "osd"[0] == 'o' && "osd"[1] == 's' && "osd"[2] == 'd';
      assert s == "osd" + after;
      if after == "" || !IsBlank(after[0]) {
        assert Span(Blank, after) == 0;
        NothingMatches(BLANKS, number, after);
      } else {
        var more := after[1..];
        assert more != "" ==> more[0] == s[4];
        assert Span(Digit, more) == 0 && Span(Blank, more) == 0;
        NothingMatches(Group(DIGITS), [BLANKS] + rest, more);
        assert Lengths(Run(Blank, 1), after) == [1];
        NoneFits([1], number, after, false);
        assert ([BLANKS] + number)[1..] == number;
      }
      LabelFails("osd", after, [BLANKS] + number);
    } else {
      assert Options(["osd"], s) == [];
      NothingMatches(Plain(Alt(["osd"])), [BLANKS] + number, s);
    }
  }

  lemma {:induction false} QuietSearch(s: string, rest: seq<Item>)
    requires Quiet(s)
    ensures Search(Field(["osd"], DIGITS, rest), s).None?
    decreases |s|
  {
    if s == "" || !OsdAt(s, 0) { NoStart(s, rest); }
    if s != "" {
      forall p: nat | p < |s| - 1 ensures !OsdAt(s[1..], p) {
        assert OsdAt(s[1..], p) == OsdAt(s, p + 1);
      }
      QuietSearch(s[1..], rest);
    }
  }

  /** No blank inside follows the letters osd. */
  predicate Calm(s: string) {
    forall i | 3 <= i < |s| && IsBlank(s[i]) :: s[i - 3] != 'o' || s[i - 2] != 's' || s[i - 1] != 'd'
  }

  /** Every blank inside follows a comma. */
  predicate Spaced(s: string) {
    forall i | 0 <= i < |s| && IsBlank(s[i]) :: i > 0 && s[i - 1] == ','
  }

  predicate Text(s: string) {
    s != "" && !IsBlank(s[0]) && !('0' <= s[0] <= '9') && Quiet(s)
  }

  /** A word other than osd in front, and after it something that does not begin with a number. */
  lemma QuietWord(word: string, tail: string)
    requires Calm(word) && Text(tail)
    ensures Quiet(word + (" " + tail))
  {
    var s, n := word + (" " + tail), |word| + 1;
    forall p: nat | p < |s| ensures !OsdAt(s, p) {
      if p + 3 < |word| {
        assert s[p + 3] == word[p + 3] && s[p] == word[p + 3 - 3] && s[p + 1] == word[p + 3 - 2] && s[p + 2] == word[p + 3 - 1];
      } else if p + 3 == |word| {
        assert s[p + 4] == tail[0];
      } else if p < n {
        assert s[n - 1] == ' ';
      } else {
        assert OsdAt(tail, p - n) == OsdAt(s, p);
      }
    }
  }

  /** A label other than osd. */
  predicate Label(key: string) {
    && key != "" && !('0' <= key[0] <= '9') && NoBlank(key)
    && (|key| < 3 || key[|key| - 3] != 'o' || key[|key| - 1] != 'd')
  }

  lemma QuietLabel(key: string, value: string, tail: string)
    requires Label(key) && Calm(value) && Text(tail)
    ensures Quiet(Labelled(key, value, tail))
  {
    var more := value + (" " + tail);
    var s, n := key + (" " + more), |key| + 1;
    QuietWord(value, tail);
    forall p: nat | p < |s| ensures !OsdAt(s, p) {
      if p + 3 < |key| {
        assert s[p + 3] == key[p + 3];
      } else if p + 3 == |key| {
        assert s[p] == key[|key| - 3] && s[p + 2] == key[|key| - 1];
      } else if p < n {
        assert s[n - 1] == ' ';
      } else {
        assert OsdAt(more, p - n) == OsdAt(s, p);
      }
    }
  }

  /** A labelled field in front of such a text makes another one. */
  lemma LabelText(key: string, value: string, tail: string)
    requires Label(key) && Calm(value) && Text(tail)
    ensures Text(Labelled(key, value, tail))
  {
    QuietLabel(key, value, tail);
    assert Labelled(key, value, tail)[0] == key[0];
  }

  lemma SpacedConcat(a: string, b: string)
    requires Spaced(a) && Spaced(b)
    ensures Spaced(a + b)
  {
    var s := a + b;
    forall i | 0 <= i < |s| && IsBlank(s[i]) ensures i > 0 && s[i - 1] == ',' {
      if i < |a| {
        assert s[i] == a[i] && s[i - 1] == a[i - 1];
      } else {
        assert s[i] == b[i - |a|] && s[i - 1] == b[i - |a| - 1];
      }
    }
  }

  lemma PairSpaced(p: (nat, nat))
    ensures Spaced(PeerText(p))
  {
    SpacedConcat(Decimal(p.1), ")");
    SpacedConcat(", ", Decimal(p.1) + ")");
    SpacedConcat(Decimal(p.0), ", " + (Decimal(p.1) + ")"));
    SpacedConcat("(", Decimal(p.0) + (", " + (Decimal(p.1) + ")")));
  }

  lemma {:induction false} PeersSpaced(ps: Peers)
    ensures Spaced(PeersText(ps))
  {
    if ps != [] {
      PairSpaced(ps[|ps| - 1]);
      if |ps| > 1 {
        PeersSpaced(ps[..|ps| - 1]);
        SpacedConcat(PeersText(ps[..|ps| - 1]), ", ");
        SpacedConcat(PeersText(ps[..|ps| - 1]) + ", ", PeerText(ps[|ps| - 1]));
      }
    }
  }

  lemma Bracketed(inside: string)
    requires Spaced(inside)
    ensures Spaced("[" + inside + "]")
  {
    SpacedConcat("[", inside);
    SpacedConcat("[" + inside, "]");
  }

  lemma LatIsText(row: OpRow)
    ensures Text(LatText(row))
  {
    var s, name, n := LatText(row), LatName(row.kind), Decimal(row.lat);
    forall p: nat | p < |s| ensures !OsdAt(s, p) {
      if p + 3 < |name| {
        assert s[p + 3] == name[p + 3];
      } else if p + 3 == |name| {
        assert s[p + 2] == name[p + 2];
      } else if |name| < p + 3 < |s| - 1 {
        assert s[p + 3] == n[p + 2 - |name|];
      }
    }
  }

  lemma EndIsText(row: OpRow)
    ensures Text(PeersField(row))
  {
    LatIsText(row);
    LabelText("bluestore_lat", Decimal(row.bluestore), LatText(row));
    if row.kind.WriteOp? {
      PeersSpaced(row.peers);
      Bracketed(PeersText(row.peers));
      LabelText("peers", "[" + PeersText(row.peers) + "]", EndText(row));
    }
  }

  lemma QueueIsText(row: OpRow, tail: string)
    requires Text(tail)
    ensures Text(Labelled("queue_lat", Decimal(row.queue), Labelled("osd_lat", Decimal(row.osdLat), tail)))
  {
    LabelText("osd_lat", Decimal(row.osdLat), tail);
    LabelText("queue_lat", Decimal(row.queue), Labelled("osd_lat", Decimal(row.osdLat), tail));
  }

  lemma MessengerIsText(row: OpRow, tail: string)
    requires Text(tail)
    ensures Text(Labelled("throttle_lat", Decimal(row.throttle),
                 Labelled("recv_lat", Decimal(row.recv), Labelled("dispatch_lat", Decimal(row.dispatch), tail))))
  {
    LabelText("dispatch_lat", Decimal(row.dispatch), tail);
    var t := Labelled("dispatch_lat", Decimal(row.dispatch), tail);
    LabelText("recv_lat", Decimal(row.recv), t);
    LabelText("throttle_lat", Decimal(row.throttle), Labelled("recv_lat", Decimal(row.recv), t));
  }

  lemma LatenciesAreText(row: OpRow)
    ensures Text(LatencyText(row))
  {
    EndIsText(row);
    QueueIsText(row, PeersField(row));
    MessengerIsText(row, Labelled("queue_lat", Decimal(row.queue), Labelled("osd_lat", Decimal(row.osdLat), PeersField(row))));
  }

  /** No number is hidden in the name behind the letters osd, nor a blank in the op list, except after a
      comma. */
  predicate Tame(row: OpRow) {
    row.name != "" && Calm(row.name) && Spaced(row.ops)
  }

  lemma ObjectIsText(row: OpRow, tail: string)
    requires Tame(row) && Text(tail)
    ensures Text(Labelled("object", row.name, Labelled(OpsLabel(row.kind), "[" + row.ops + "]", tail)))
  {
    Bracketed(row.ops);
    LabelText(OpsLabel(row.kind), "[" + row.ops + "]", tail);
    LabelText("object", row.name, Labelled(OpsLabel(row.kind), "[" + row.ops + "]", tail));
  }

  lemma IdsAreText(row: OpRow, tail: string)
    requires Text(tail)
    ensures Text(Labelled("size", Signed(row.size), Labelled("client", Signed(row.client), Labelled("tid", Signed(row.tid), tail))))
  {
    LabelText("tid", Signed(row.tid), tail);
    var t := Labelled("tid", Signed(row.tid), tail);
    LabelText("client", Signed(row.client), t);
    LabelText("size", Signed(row.size), Labelled("client", Signed(row.client), t));
  }

  lemma SubjectIsText(row: OpRow)
    requires Tame(row)
    ensures Text(SubjectText(row))
  {
    LatenciesAreText(row);
    ObjectIsText(row, LatencyText(row));
    IdsAreText(row, ObjectText(row));
  }

  lemma BehindFirstLetter(value: string, tail: string)
    ensures Labelled("osd", value, tail)[1..] == Labelled("sd", value, tail)
  {
    assert "osd"[1..] == "sd";
  }

  /** After its first letter the row has no other place where an OSD number stands. */
  lemma HeadIsQuiet(row: OpRow, subject: string)
    requires Text(subject)
    ensures Quiet(HeadText(row, subject)[1..])
  {
    var tail := OpName(row.kind) + (" " + subject);
    KindIsText(row.kind, subject);
    PgIsWord(row);
    LabelText("pg", Pg(row), tail);
    QuietLabel("sd", Signed(row.osd), Labelled("pg", Pg(row), tail));
    BehindFirstLetter(Signed(row.osd), Labelled("pg", Pg(row), tail));
  }

  lemma KindIsText(k: Kind, subject: string)
    requires Text(subject)
    ensures Text(OpName(k) + (" " + subject))
  {
    QuietWord(OpName(k), subject);
    assert (OpName(k) + (" " + subject))[0] == OpName(k)[0];
  }

  lemma HeadDropped(row: OpRow, subject: string, rest: seq<Item>)
    requires Text(subject) && (row.osd < 0 || Match(rest, subject).None?)
    ensures Search(HeadPattern(rest), HeadText(row, subject)).None?
  {
    HeadFails(row, subject, rest);
    HeadIsQuiet(row, subject);
    QuietSearch(HeadText(row, subject)[1..], Field(["pg"], Run(NonBlank, 1), [Group(Alt(OP_NAMES))] + ([BLANKS] + rest)));
  }

  /** The line parser recognises a printed row if and only if no field of it is negative. */
  lemma RecognisedIff(row: OpRow)
    requires Printable(row) && Spaced(row.ops)
    ensures ParseLine(RowText(row)).Some? <==> NonNegative(row)
  {
    if NonNegative(row) {
      ParsePrinted(row);
    } else {
      SubjectIsText(row);
      if row.osd >= 0 { SubjectFails(row); }
      HeadDropped(row, SubjectText(row), SubjectPattern());
    }
  }

  /** Such rows happen: a process whose OSD id cannot be read has the id minus one. */
  lemma UnknownOsdHappens()
    ensures var row := OpRow(ReadOp, -1, 2, 17, 4096, 4123, 99, "obj", "read", 1, 1, 1, 1, 1, [], 1, 5);
            Printable(row) && Spaced(row.ops) && ParseLine(RowText(row)).None?
  {
    RecognisedIff(OpRow(ReadOp, -1, 2, 17, 4096, 4123, 99, "obj", "read", 1, 1, 1, 1, 1, [], 1, 5));
  }
}
