/** The rows osdtrace prints for ops, and the line parser of its analyser. */
module OpRows {
  import opened Words
  import opened Patterns

  // ================= numbers =================

  function Decimal(n: nat): (s: string)
    ensures s != "" && forall i | 0 <= i < |s| :: '0' <= s[i] <= '9'
  {
    if n < 10 then ['0' + n as char] else Decimal(n / 10) + ['0' + (n % 10) as char]
  }

  /** %d and %lld */
  function Signed(n: int): (s: string)
    ensures s != "" && forall i | 0 <= i < |s| :: !IsBlank(s[i])
    ensures n >= 0 ==> s == Decimal(n)
  {
    if n < 0 then "-" + Decimal(-n) else Decimal(n)
  }

  function Value(s: string): nat
    requires forall i | 0 <= i < |s| :: '0' <= s[i] <= '9'
  {
    if s == "" then 0 else Value(s[..|s| - 1]) * 10 + (s[|s| - 1] as nat - '0' as nat)
  }

  /** int() of a printed number is the number. */
  lemma {:induction false} DecimalValue(n: nat)
    ensures Value(Decimal(n)) == n
  {
    if n >= 10 {
      DecimalValue(n / 10);
      assert Decimal(n)[..|Decimal(n)| - 1] == Decimal(n / 10);
    } else {
      assert Decimal(n)[..0] == "";
    }
  }

  // ================= peers =================

  type Peers = seq<(nat, nat)>

  function PeerText(p: (nat, nat)): string {
    "(" + (Decimal(p.0) + (", " + (Decimal(p.1) + ")")))
  }

  function PeersText(ps: Peers): string {
    if ps == [] then ""
    else if |ps| == 1 then PeerText(ps[0])
    else PeersText(ps[..|ps| - 1]) + ", " + PeerText(ps[|ps| - 1])
  }

  /** format_peers */
  method FormatPeers(ps: Peers) returns (s: string)
    ensures s == PeersText(ps)
  {
    s := "";
    var i := 0;
    while i < |ps|
      invariant 0 <= i <= |ps| && s == PeersText(ps[..i])
    {
      assert ps[..i + 1][..i] == ps[..i];
      if i > 0 { s := s + ", "; }
      s := s + PeerText(ps[i]);
      i := i + 1;
    }
    assert ps[..i] == ps;
  }

  lemma InParentheses(a: string, b: string)
    ensures "(" + (a + (", " + (b + ")"))) == "(" + a + ", " + b + ")"
  {
  }

  /** A write has at most two peers. */
  lemma TwoPeers(p: (nat, nat), q: (nat, nat))
    ensures PeersText([]) == "" && PeersText([p]) == "(" + Decimal(p.0) + ", " + Decimal(p.1) + ")"
    ensures PeersText([p, q])
            == ("(" + Decimal(p.0) + ", " + Decimal(p.1) + ")") + ", " + ("(" + Decimal(q.0) + ", " + Decimal(q.1) + ")")
  {
    InParentheses(Decimal(p.0), Decimal(p.1));
    InParentheses(Decimal(q.0), Decimal(q.1));
    assert [p, q][..1] == [p];
  }

  // ================= the printed row =================

  datatype Kind = ReadOp | WriteOp | SubopWrite

  /** What print_op_r, print_op_w and print_subop_w print; ops is the op list without its
      brackets. */
  datatype OpRow = OpRow(
    kind: Kind, osd: int, pool: int, seed: nat, size: int, client: int, tid: int, name: string, ops: string,
    throttle: nat, recv: nat, dispatch: nat, queue: nat, osdLat: nat, peers: Peers, bluestore: nat, lat: nat)

  function Hex(n: nat): (s: string)
    ensures s != "" && forall i | 0 <= i < |s| :: !IsBlank(s[i])
  {
    var d := n % 16;
    var c := if d < 10 then '0' + d as char else 'a' + (d - 10) as char;
    if n < 16 then [c] else Hex(n / 16) + [c]
  }

  function Pg(row: OpRow): string {
    Signed(row.pool) + "." + Hex(row.seed)
  }

  function OpName(k: Kind): string {
    match k
    case ReadOp => "op_r"
    case WriteOp => "op_w"
    case SubopWrite => "subop_w"
  }

  function OpsLabel(k: Kind): string {
    if k.SubopWrite? then "txn_ops" else "osd_ops"
  }

  function LatName(k: Kind): string {
    if k.SubopWrite? then "subop_lat" else "op_lat"
  }

  function Labelled(key: string, value: string, tail: string): string {
    key + (" " + (value + (" " + tail)))
  }

  function EndText(row: OpRow): string {
    Labelled("bluestore_lat", Decimal(row.bluestore), LatName(row.kind) + (" " + (Decimal(row.lat) + "\n")))
  }

  function PeersField(row: OpRow): string {
    if row.kind.WriteOp? then Labelled("peers", "[" + PeersText(row.peers) + "]", EndText(row)) else EndText(row)
  }

  function LatencyText(row: OpRow): string {
    Labelled("throttle_lat", Decimal(row.throttle),
    Labelled("recv_lat", Decimal(row.recv),
    Labelled("dispatch_lat", Decimal(row.dispatch),
    Labelled("queue_lat", Decimal(row.queue),
    Labelled("osd_lat", Decimal(row.osdLat), PeersField(row))))))
  }

  function ObjectText(row: OpRow): string {
    Labelled("object", row.name, Labelled(OpsLabel(row.kind), "[" + row.ops + "]", LatencyText(row)))
  }

  function SubjectText(row: OpRow): string {
    Labelled("size", Signed(row.size), Labelled("client", Signed(row.client), Labelled("tid", Signed(row.tid), ObjectText(row))))
  }

  /** A row about this subject. */
  function HeadText(row: OpRow, subject: string): string {
    Labelled("osd", Signed(row.osd), Labelled("pg", Pg(row), OpName(row.kind) + (" " + subject)))
  }

  function RowText(row: OpRow): string {
    HeadText(row, SubjectText(row))
  }

  // ---- the same, word by word ----

  /** Words with one blank between them. */
  function Sentence(words: seq<string>): string
    requires words != []
  {
    if |words| == 1 then words[0] else words[0] + (" " + Sentence(words[1..]))
  }

  /** The words of the three formats: what goes last, ... */
  function LastWords(row: OpRow): seq<string> {
    match row.kind
    case ReadOp => [] + ["bluestore_lat", Decimal(row.bluestore), "op_lat", Decimal(row.lat)]
    case WriteOp =>
      ["peers", "[" + PeersText(row.peers) + "]"] + ["bluestore_lat", Decimal(row.bluestore), "op_lat", Decimal(row.lat)]
    case SubopWrite => [] + ["bluestore_lat", Decimal(row.bluestore), "subop_lat", Decimal(row.lat)]
  }

  /** ...the latencies up to there, ... */
  function LatencyWords(row: OpRow): seq<string> {
    ["throttle_lat", Decimal(row.throttle)] + (["recv_lat", Decimal(row.recv)]
    + (["dispatch_lat", Decimal(row.dispatch)] + (["queue_lat", Decimal(row.queue)]
    + (["osd_lat", Decimal(row.osdLat)] + LastWords(row)))))
  }

  /** ...what the op is about, ... */
  function SubjectWords(row: OpRow): seq<string> {
    ["size", Signed(row.size)] + (["client", Signed(row.client)] + (["tid", Signed(row.tid)] + (["object", row.name]
    + ([match row.kind case ReadOp => "osd_ops" case WriteOp => "osd_ops" case SubopWrite => "txn_ops", "[" + row.ops + "]"]
    + LatencyWords(row)))))
  }

  /** ...and all of them. */
  function RowWords(row: OpRow): seq<string> {
    ["osd", Signed(row.osd)] + (["pg", Signed(row.pool) + "." + Hex(row.seed)]
    + ([match row.kind case ReadOp => "op_r" case WriteOp => "op_w" case SubopWrite => "subop_w"] + SubjectWords(row)))
  }

  /** Words that make this line. */
  ghost predicate Says(text: string, words: seq<string>) {
    words != [] && text == Sentence(words) + "\n"
  }

  lemma LabelledSays(key: string, value: string, tail: string, words: seq<string>)
    requires Says(tail, words)
    ensures Says(Labelled(key, value, tail), [key, value] + words)
  {
    assert ([key, value] + words)[1..] == [value] + words;
    assert ([value] + words)[1..] == words;
    ThreeBlanks(key, value, Sentence(words));
  }

  lemma ThreeBlanks(a: string, b: string, c: string)
    ensures a + (" " + (b + (" " + (c + "\n")))) == (a + (" " + (b + (" " + c)))) + "\n"
  {
  }

  lemma WordSays(word: string, tail: string, words: seq<string>)
    requires Says(tail, words)
    ensures Says(word + (" " + tail), [word] + words)
  {
    assert ([word] + words)[1..] == words;
    assert word + (" " + (Sentence(words) + "\n")) == (word + (" " + Sentence(words))) + "\n";
  }

  lemma LastSay(row: OpRow)
    ensures Says(PeersField(row), LastWords(row))
  {
    var name, n := LatName(row.kind), Decimal(row.lat);
    assert Says(n + "\n", [n]);
    WordSays(name, n + "\n", [n]);
    LabelledSays("bluestore_lat", Decimal(row.bluestore), name + (" " + (n + "\n")), [name] + [n]);
    var words := ["bluestore_lat", Decimal(row.bluestore), name, n];
    assert words == ["bluestore_lat", Decimal(row.bluestore)] + ([name] + [n]);
    if row.kind.WriteOp? {
      LabelledSays("peers", "[" + PeersText(row.peers) + "]", EndText(row), words);
    } else {
      assert [] + words == words;
    }
  }

  lemma LatenciesSay(row: OpRow)
    ensures Says(LatencyText(row), LatencyWords(row))
  {
    LastSay(row);
    var t4 := Labelled("osd_lat", Decimal(row.osdLat), PeersField(row));
    var t3 := Labelled("queue_lat", Decimal(row.queue), t4);
    var t2 := Labelled("dispatch_lat", Decimal(row.dispatch), t3);
    var t1 := Labelled("recv_lat", Decimal(row.recv), t2);
    LabelledSays("osd_lat", Decimal(row.osdLat), PeersField(row), LastWords(row));
    var w4 := ["osd_lat", Decimal(row.osdLat)] + LastWords(row);
    LabelledSays("queue_lat", Decimal(row.queue), t4, w4);
    var w3 := ["queue_lat", Decimal(row.queue)] + w4;
    LabelledSays("dispatch_lat", Decimal(row.dispatch), t3, w3);
    var w2 := ["dispatch_lat", Decimal(row.dispatch)] + w3;
    LabelledSays("recv_lat", Decimal(row.recv), t2, w2);
    LabelledSays("throttle_lat", Decimal(row.throttle), t1, ["recv_lat", Decimal(row.recv)] + w2);
  }

  lemma SubjectSays(row: OpRow)
    ensures Says(SubjectText(row), SubjectWords(row))
  {
    LatenciesSay(row);
    var t0 := Labelled(OpsLabel(row.kind), "[" + row.ops + "]", LatencyText(row));
    var t1 := Labelled("object", row.name, t0);
    var t2 := Labelled("tid", Signed(row.tid), t1);
    var t3 := Labelled("client", Signed(row.client), t2);
    LabelledSays(OpsLabel(row.kind), "[" + row.ops + "]", LatencyText(row), LatencyWords(row));
    var w0 := [OpsLabel(row.kind), "[" + row.ops + "]"] + LatencyWords(row);
    LabelledSays("object", row.name, t0, w0);
    var w1 := ["object", row.name] + w0;
    LabelledSays("tid", Signed(row.tid), t1, w1);
    var w2 := ["tid", Signed(row.tid)] + w1;
    LabelledSays("client", Signed(row.client), t2, w2);
    LabelledSays("size", Signed(row.size), t3, ["client", Signed(row.client)] + w2);
  }

  /** A row is these words, separated by single blanks. */
  lemma RowIs(row: OpRow)
    ensures RowText(row) == Sentence(RowWords(row)) + "\n"
  {
    SubjectSays(row);
    var subject := OpName(row.kind) + (" " + SubjectText(row));
    WordSays(OpName(row.kind), SubjectText(row), SubjectWords(row));
    LabelledSays("pg", Pg(row), subject, [OpName(row.kind)] + SubjectWords(row));
    LabelledSays("osd", Signed(row.osd), Labelled("pg", Pg(row), subject), ["pg", Pg(row)] + ([OpName(row.kind)] + SubjectWords(row)));
  }

  function Digit16(c: char): nat {
    if '0' <= c <= '9' then c as nat - '0' as nat else if 'a' <= c <= 'f' then c as nat - 'a' as nat + 10 else 16
  }

  function Value16(s: string): nat {
    if s == "" then 0 else 16 * Value16(s[..|s| - 1]) + Digit16(s[|s| - 1])
  }

  /** The placement seed is printed in hexadecimal, and a negative number with its sign. */
  lemma {:induction false} HexValue(n: nat)
    ensures Value16(Hex(n)) == n
  {
    var last := Hex(n)[|Hex(n)| - 1];
    assert Digit16(last) == n % 16;
    if n >= 16 {
      HexValue(n / 16);
      assert Hex(n)[..|Hex(n)| - 1] == Hex(n / 16);
    } else {
      assert Hex(n)[..0] == "";
    }
  }

  lemma SignedIs(n: int)
    ensures Signed(n) == if n >= 0 then Decimal(n) else "-" + Decimal(-n)
  {
  }

  // ================= pattern_lat =================

  const DIGITS: Re := Run(Digit, 1)
  const OP_NAMES: seq<string> := ["subop_w", "subop_r", "op_w", "op_r"]
  const BLANKS: Item := Plain(Run(Blank, 1))

  function Field(labels: seq<string>, re: Re, rest: seq<Item>): seq<Item> {
    [Plain(Alt(labels))] + ([BLANKS] + ([Group(re)] + ([BLANKS] + rest)))
  }

  function LatPattern(): seq<Item> {
    [Plain(Run(Blank, 0))] + ([Group(Alt(LAT_NAMES))] + ([BLANKS] + ([Group(DIGITS)] + [])))
  }

  function Details(): seq<Item> {
    [Plain(Run(Blank, 0))] + ([Plain(Alt(["("]))] + ([Group(Little)] + [Plain(Alt([")"]))]))
  }

  function EndPattern(): seq<Item> {
    [Plain(Alt(["bluestore_lat"]))] + ([BLANKS] + ([Group(DIGITS)] + ([Opt(Details())] + LatPattern())))
  }

  function LatencyPattern(): seq<Item> {
    Field(["throttle_lat"], DIGITS,
    Field(["recv_lat"], DIGITS,
    Field(["dispatch_lat"], DIGITS,
    Field(["queue_lat"], DIGITS,
    Field(["osd_lat"], DIGITS,
    [Opt(Field(["peers"], Enclosed('[', ']'), []))] + EndPattern())))))
  }

  function ObjectPattern(): seq<Item> {
    [Opt(Field(["object"], Run(NonBlank, 1), []))]
    + ([Opt(Field(["osd_ops", "txn_ops"], Enclosed('[', ']'), []))] + LatencyPattern())
  }

  function IdPattern(rest: seq<Item>): seq<Item> {
    Field(["size"], DIGITS, Field(["client"], DIGITS, Field(["tid"], DIGITS, rest)))
  }

  function SubjectPattern(): seq<Item> {
    IdPattern(ObjectPattern())
  }

  function HeadPattern(subject: seq<Item>): seq<Item> {
    Field(["osd"], DIGITS, Field(["pg"], Run(NonBlank, 1), [Group(Alt(OP_NAMES))] + ([BLANKS] + subject)))
  }

  function RowPattern(): seq<Item> {
    HeadPattern(SubjectPattern())
  }

  // ================= reading a field =================

  predicate NoBlank(s: string) {
    forall i | 0 <= i < |s| :: !IsBlank(s[i])
  }

  predicate Word(s: string) {
    s != "" && !IsBlank(s[0])
  }

  lemma WordGoesOn(a: string, b: string)
    requires Word(a)
    ensures Word(a + b) && (a + b)[0] == a[0]
  {
  }

  lemma KeyIsWord(key: string, value: string, tail: string)
    requires Word(key)
    ensures Word(Labelled(key, value, tail)) && Labelled(key, value, tail)[0] == key[0]
  {
    WordGoesOn(key, " " + (value + (" " + tail)));
  }

  lemma BlankReads(tail: string, rest: seq<Item>, m: Matched)
    requires Word(tail) && Match(rest, tail) == Some(m)
    ensures Match([BLANKS] + rest, " " + tail) == Some(m)
  {
    RunPrefers(Blank, 1, " ", tail);
    PlainReads(Run(Blank, 1), " ", tail, rest, m);
  }

  lemma GroupFieldReads(labels: seq<string>, key: string, re: Re, value: string, tail: string, rest: seq<Item>, m: Matched)
    requires Prefers(Alt(labels), key, " " + (value + (" " + tail)))
    requires Word(value) && Match([Group(re)] + ([BLANKS] + rest), value + (" " + tail)) == Some(m)
    ensures Match(Field(labels, re, rest), Labelled(key, value, tail)) == Some(m)
  {
    WordGoesOn(value, " " + tail);
    BlankReads(value + (" " + tail), [Group(re)] + ([BLANKS] + rest), m);
    PlainReads(Alt(labels), key, " " + (value + (" " + tail)), [BLANKS] + ([Group(re)] + ([BLANKS] + rest)), m);
  }

  lemma FieldReads(labels: seq<string>, key: string, re: Re, value: string, tail: string, rest: seq<Item>, m: Matched)
    requires Prefers(Alt(labels), key, " " + (value + (" " + tail)))
    requires Prefers(re, value, " " + tail)
    requires Word(value) && Word(tail) && Match(rest, tail) == Some(m)
    ensures Match(Field(labels, re, rest), Labelled(key, value, tail))
            == Some(Matched([Some(value)] + m.groups, m.rest))
  {
    BlankReads(tail, rest, m);
    GroupReads(re, value, " " + tail, [BLANKS] + rest, m);
    GroupFieldReads(labels, key, re, value, tail, rest, Matched([Some(value)] + m.groups, m.rest));
  }

  lemma NumberReads(key: string, n: nat, tail: string, rest: seq<Item>, m: Matched)
    requires Word(tail) && Match(rest, tail) == Some(m)
    ensures Match(Field([key], DIGITS, rest), Labelled(key, Decimal(n), tail))
            == Some(Matched([Some(Decimal(n))] + m.groups, m.rest))
  {
    WordPrefers([key], 0, " " + (Decimal(n) + (" " + tail)));
    RunPrefers(Digit, 1, Decimal(n), " " + tail);
    FieldReads([key], key, DIGITS, Decimal(n), tail, rest, m);
  }

  lemma OptionalFieldReads(labels: seq<string>, re: Re, text: string, rest: seq<Item>, m: Matched)
    requires Match(Field(labels, re, rest), text) == Some(m)
    ensures Match([Opt(Field(labels, re, []))] + rest, text) == Some(m)
  {
    assert Field(labels, re, []) + rest == Field(labels, re, rest);
    OptReads(Field(labels, re, []), rest, text, m);
  }

  lemma OptionalReads(labels: seq<string>, key: string, re: Re, value: string, tail: string, rest: seq<Item>, m: Matched)
    requires Prefers(Alt(labels), key, " " + (value + (" " + tail)))
    requires Prefers(re, value, " " + tail)
    requires Word(value) && Word(tail) && Match(rest, tail) == Some(m)
    ensures Match([Opt(Field(labels, re, []))] + rest, Labelled(key, value, tail))
            == Some(Matched([Some(value)] + m.groups, m.rest))
  {
    FieldReads(labels, key, re, value, tail, rest, m);
    OptionalFieldReads(labels, re, Labelled(key, value, tail), rest, Matched([Some(value)] + m.groups, m.rest));
  }

  // ================= reading the row, from its end =================

  const LAT_NAMES: seq<string> := ["subop_lat", "op_lat"]

  function LatGroups(row: OpRow): Captures {
    [Some(LatName(row.kind))] + ([Some(Decimal(row.lat))] + [])
  }

  lemma LatNameReads(row: OpRow)
    ensures Match([Group(Alt(LAT_NAMES))] + ([BLANKS] + ([Group(DIGITS)] + [])), LatText(row))
            == Some(Matched(LatGroups(row), "\n"))
  {
    var n, name := Decimal(row.lat), LatName(row.kind);
    RunPrefers(Digit, 1, n, "\n");
    GroupReads(DIGITS, n, "\n", [], Matched([], "\n"));
    BlankReads(n + "\n", [Group(DIGITS)] + [], Matched([Some(n)] + [], "\n"));
    assert "subop_lat"[0] != "op_lat"[0];
    WordPrefers(LAT_NAMES, if row.kind.SubopWrite? then 0 else 1, " " + (n + "\n"));
    GroupReads(Alt(LAT_NAMES), name, " " + (n + "\n"), [BLANKS] + ([Group(DIGITS)] + []), Matched([Some(n)] + [], "\n"));
  }

  lemma LatReads(row: OpRow)
    ensures Match(LatPattern(), " " + LatText(row)) == Some(Matched(LatGroups(row), "\n"))
  {
    LatNameReads(row);
    RunPrefers(Blank, 0, " ", LatText(row));
    PlainReads(Run(Blank, 0), " ", LatText(row), [Group(Alt(LAT_NAMES))] + ([BLANKS] + ([Group(DIGITS)] + [])),
               Matched(LatGroups(row), "\n"));
  }

  lemma NotParenthesis(text: string, rest: seq<Item>)
    requires text == "" || text[0] != '('
    ensures Match([Plain(Alt(["("]))] + rest, text).None?
  {
    assert Options(["("], text) == [];
    NothingMatches(Plain(Alt(["("])), rest, text);
  }

  /** The BlueStore details, which no row printed here has, are skipped. */
  lemma DetailsSkip(text: string, rest: seq<Item>)
    requires Word(text) && text[0] != '('
    ensures Match(Details() + rest, " " + text).None?
  {
    var s := " " + text;
    var more := ([Plain(Alt(["("]))] + ([Group(Little)] + [Plain(Alt([")"]))])) + rest;
    assert more == [Plain(Alt(["("]))] + (([Group(Little)] + [Plain(Alt([")"]))]) + rest);
    SpanIs(Blank, " ", text);
    assert Lengths(Run(Blank, 0), s) == [1, 0];
    assert Details() + rest == [Plain(Run(Blank, 0))] + more;
    assert (Details() + rest)[1..] == more;
    assert s[1..] == text && s[0..] == s;
    NotParenthesis(text, ([Group(Little)] + [Plain(Alt([")"]))]) + rest);
    NotParenthesis(s, ([Group(Little)] + [Plain(Alt([")"]))]) + rest);
    NoneOfTwo(1, 0, more, s);
  }

  lemma NoneOfTwo(a: nat, b: nat, rest: seq<Item>, s: string)
    requires a <= |s| && b <= |s| && Match(rest, s[a..]).None? && Match(rest, s[b..]).None?
    ensures TryEach([a, b], rest, s, false).None?
  {
    assert [a, b][1..] == [b] && [b][1..] == [];
    assert TryEach([b], rest, s, false).None?;
  }

  function EndGroups(row: OpRow): Captures {
    [Some(Decimal(row.bluestore)), None, Some(LatName(row.kind)), Some(Decimal(row.lat))]
  }

  function LatText(row: OpRow): string {
    LatName(row.kind) + (" " + (Decimal(row.lat) + "\n"))
  }

  lemma DetailsAndLatRead(row: OpRow)
    ensures Match([Opt(Details())] + LatPattern(), " " + LatText(row))
            == Some(Matched([None] + LatGroups(row), "\n"))
  {
    LatReads(row);
    WordGoesOn(LatName(row.kind), " " + (Decimal(row.lat) + "\n"));
    DetailsSkip(LatText(row), LatPattern());
    assert Groups(Details()) == 1;
    OptSkips(Details(), LatPattern(), " " + LatText(row), Matched(LatGroups(row), "\n"));
  }

  lemma BlueStoreReads(n: nat, tail: string, rest: seq<Item>, m: Matched)
    requires Match(rest, " " + tail) == Some(m)
    ensures Match([Plain(Alt(["bluestore_lat"]))] + ([BLANKS] + ([Group(DIGITS)] + rest)),
                  Labelled("bluestore_lat", Decimal(n), tail))
            == Some(Matched([Some(Decimal(n))] + m.groups, m.rest))
  {
    var d := Decimal(n);
    RunPrefers(Digit, 1, d, " " + tail);
    GroupReads(DIGITS, d, " " + tail, rest, m);
    var m1 := Matched([Some(d)] + m.groups, m.rest);
    BlankReads(d + (" " + tail), [Group(DIGITS)] + rest, m1);
    WordPrefers(["bluestore_lat"], 0, " " + (d + (" " + tail)));
    PlainReads(Alt(["bluestore_lat"]), "bluestore_lat", " " + (d + (" " + tail)), [BLANKS] + ([Group(DIGITS)] + rest), m1);
  }

  lemma EndReads(row: OpRow)
    ensures Match(EndPattern(), EndText(row)) == Some(Matched(EndGroups(row), "\n"))
  {
    var g := [None] + LatGroups(row);
    DetailsAndLatRead(row);
    BlueStoreReads(row.bluestore, LatText(row), [Opt(Details())] + LatPattern(), Matched(g, "\n"));
    assert [Some(Decimal(row.bluestore))] + g == EndGroups(row);
  }

  lemma EndIsWord(row: OpRow)
    ensures Word(EndText(row)) && EndText(row)[0] == 'b'
  {
    KeyIsWord("bluestore_lat", Decimal(row.bluestore), LatName(row.kind) + (" " + (Decimal(row.lat) + "\n")));
  }

  // ---- peers ----

  function PeersGroup(row: OpRow): Option<string> {
    if row.kind.WriteOp? then Some("[" + PeersText(row.peers) + "]") else None
  }

  predicate OneLine(s: string) {
    forall i | 0 <= i < |s| :: s[i] != ']' && s[i] != '\n'
  }

  lemma {:induction false} PeersOneLine(ps: Peers)
    ensures OneLine(PeersText(ps))
  {
    if |ps| > 1 { PeersOneLine(ps[..|ps| - 1]); }
  }

  lemma Bracketed(inside: string, tail: string)
    requires OneLine(inside)
    ensures Prefers(Enclosed('[', ']'), "[" + inside + "]", tail)
  {
    EnclosedPrefers('[', ']', inside, tail);
  }

  lemma PeersPresent(ps: Peers, tail: string, rest: seq<Item>, m: Matched)
    requires Word(tail) && Match(rest, tail) == Some(m)
    ensures Match([Opt(Field(["peers"], Enclosed('[', ']'), []))] + rest, Labelled("peers", "[" + PeersText(ps) + "]", tail))
            == Some(Matched([Some("[" + PeersText(ps) + "]")] + m.groups, m.rest))
  {
    var value := "[" + PeersText(ps) + "]";
    PeersOneLine(ps);
    Bracketed(PeersText(ps), " " + tail);
    WordPrefers(["peers"], 0, " " + (value + (" " + tail)));
    WordGoesOn("[", PeersText(ps) + "]");
    assert value == "[" + (PeersText(ps) + "]");
    OptionalReads(["peers"], "peers", Enclosed('[', ']'), value, tail, rest, m);
  }

  lemma {:induction false} NoOption(labels: seq<string>, text: string)
    requires forall i | 0 <= i < |labels| :: !(labels[i] <= text)
    ensures Options(labels, text) == []
  {
    if labels != [] {
      assert !(labels[0] <= text) && forall i | 0 <= i < |labels| - 1 :: labels[1..][i] == labels[i + 1];
      NoOption(labels[1..], text);
    }
  }

  /** An optional field that is not there captures nothing. */
  lemma FieldAbsent(labels: seq<string>, re: Re, tail: string, rest: seq<Item>, m: Matched)
    requires forall i | 0 <= i < |labels| :: !(labels[i] <= tail)
    requires Match(rest, tail) == Some(m)
    ensures Match([Opt(Field(labels, re, []))] + rest, tail) == Some(Matched([None] + m.groups, m.rest))
  {
    var g := Field(labels, re, []);
    var more := [BLANKS] + ([Group(re)] + ([BLANKS] + []));
    NoOption(labels, tail);
    NothingMatches(Plain(Alt(labels)), more + rest, tail);
    assert g + rest == [Plain(Alt(labels))] + (more + rest);
    GroupsOfField(labels, re);
    OptSkips(g, rest, tail, m);
  }

  lemma PeersAbsent(tail: string, rest: seq<Item>, m: Matched)
    requires Word(tail) && tail[0] != 'p' && Match(rest, tail) == Some(m)
    ensures Match([Opt(Field(["peers"], Enclosed('[', ']'), []))] + rest, tail)
            == Some(Matched([None] + m.groups, m.rest))
  {
    assert !("peers" <= tail) by { assert "peers"[0] == 'p'; }
    FieldAbsent(["peers"], Enclosed('[', ']'), tail, rest, m);
  }

  lemma PeersRead(row: OpRow)
    ensures Match([Opt(Field(["peers"], Enclosed('[', ']'), []))] + EndPattern(), PeersField(row))
            == Some(Matched([PeersGroup(row)] + EndGroups(row), "\n"))
  {
    EndReads(row);
    EndIsWord(row);
    if row.kind.WriteOp? {
      PeersPresent(row.peers, EndText(row), EndPattern(), Matched(EndGroups(row), "\n"));
    } else {
      PeersAbsent(EndText(row), EndPattern(), Matched(EndGroups(row), "\n"));
    }
  }

  lemma GroupsOfField(labels: seq<string>, re: Re)
    ensures Groups(Field(labels, re, [])) == 1
  {
    var f := Field(labels, re, []);
    assert f[1..] == [BLANKS] + ([Group(re)] + ([BLANKS] + []));
    assert f[1..][1..] == [Group(re)] + ([BLANKS] + []);
    assert f[1..][1..][1..] == [BLANKS] + [];
    assert f[1..][1..][1..][1..] == [];
    assert Groups(f[1..][1..][1..]) == 0;
    assert Groups(f[1..][1..]) == 1;
    assert Groups(f[1..]) == 1;
  }

  // ---- latencies ----

  function Caught(n: int): Captures {
    [Some(Signed(n))]
  }

  function LatencyGroups(row: OpRow): Captures {
    Caught(row.throttle) + (Caught(row.recv) + (Caught(row.dispatch) + (Caught(row.queue) + (Caught(row.osdLat)
    + ([PeersGroup(row)] + EndGroups(row))))))
  }

  lemma LatenciesRead(row: OpRow)
    ensures Match(LatencyPattern(), LatencyText(row)) == Some(Matched(LatencyGroups(row), "\n"))
  {
    PeersRead(row);
    var p4 := [Opt(Field(["peers"], Enclosed('[', ']'), []))] + EndPattern();
    var t4 := PeersField(row);
    var g4 := [PeersGroup(row)] + EndGroups(row);
    assert Word(t4);
    NumberReads("osd_lat", row.osdLat, t4, p4, Matched(g4, "\n"));
    var p3, t3, g3 := Field(["osd_lat"], DIGITS, p4), Labelled("osd_lat", Decimal(row.osdLat), t4), Caught(row.osdLat) + g4;
    NumberReads("queue_lat", row.queue, t3, p3, Matched(g3, "\n"));
    var p2, t2, g2 := Field(["queue_lat"], DIGITS, p3), Labelled("queue_lat", Decimal(row.queue), t3), Caught(row.queue) + g3;
    NumberReads("dispatch_lat", row.dispatch, t2, p2, Matched(g2, "\n"));
    var p1, t1, g1 := Field(["dispatch_lat"], DIGITS, p2), Labelled("dispatch_lat", Decimal(row.dispatch), t2), Caught(row.dispatch) + g2;
    NumberReads("recv_lat", row.recv, t1, p1, Matched(g1, "\n"));
    var p0, t0, g0 := Field(["recv_lat"], DIGITS, p1), Labelled("recv_lat", Decimal(row.recv), t1), Caught(row.recv) + g1;
    NumberReads("throttle_lat", row.throttle, t0, p0, Matched(g0, "\n"));
  }

  // ---- what the op is about ----

  /** On one line, and no closing bracket is followed by a blank. */
  predicate ListText(s: string) {
    && (forall i | 0 <= i < |s| :: s[i] != '\n')
    && forall i | 0 <= i < |s| - 1 && s[i] == ']' :: !IsBlank(s[i + 1])
  }

  lemma NotBlank(text: string, rest: seq<Item>)
    requires Word(text)
    ensures Match([BLANKS] + rest, text).None?
  {
    assert Span(Blank, text) == 0;
    NothingMatches(BLANKS, rest, text);
  }

  /** A bracketed list is taken whole: after a bracket inside it no blank follows. */
  lemma ListReads(inside: string, tail: string, rest: seq<Item>, m: Matched)
    requires ListText(inside) && Match([BLANKS] + rest, tail) == Some(m)
    ensures Match([Group(Enclosed('[', ']'))] + ([BLANKS] + rest), ("[" + inside + "]") + tail)
            == Some(Matched([Some("[" + inside + "]")] + m.groups, m.rest))
  {
    var value := "[" + inside + "]";
    var s := value + tail;
    var j := |inside| + 1;
    assert s[j] == ']' && s[j + 1..] == tail && s[..j + 1] == value;
    forall q | 1 <= q < j ensures s[q] != '\n' && (s[q] == ']' ==> Match([BLANKS] + rest, s[q + 1..]).None?) {
      assert s[q] == inside[q - 1];
      if s[q] == ']' {
        assert s[q + 1..][0] == if q < |inside| then inside[q] else ']';
        NotBlank(s[q + 1..], rest);
      }
    }
    SkipsClosers(s, 1, j, ']', [BLANKS] + rest, m);
    assert ([Group(Enclosed('[', ']'))] + ([BLANKS] + rest))[1..] == [BLANKS] + rest;
  }

  /** No field is negative.  A process whose OSD id cannot be read has the id -1; sizes from 2^31 up
      and ids from 2^63 up are printed as negative numbers. */
  predicate NonNegative(row: OpRow) {
    row.osd >= 0 && row.size >= 0 && row.client >= 0 && row.tid >= 0
  }

  /** The name is one word and the op list is on one line, with no bracket that might end it. */
  predicate Printable(row: OpRow) {
    row.name != "" && NoBlank(row.name) && ListText(row.ops)
  }

  lemma OpsRead(row: OpRow)
    requires Printable(row)
    ensures Match([Opt(Field(["osd_ops", "txn_ops"], Enclosed('[', ']'), []))] + LatencyPattern(),
                  Labelled(OpsLabel(row.kind), "[" + row.ops + "]", LatencyText(row)))
            == Some(Matched([Some("[" + row.ops + "]")] + LatencyGroups(row), "\n"))
  {
    var names, value, tail := ["osd_ops", "txn_ops"], "[" + row.ops + "]", LatencyText(row);
    var re, m := Enclosed('[', ']'), Matched(LatencyGroups(row), "\n");
    var m1 := Matched([Some(value)] + m.groups, m.rest);
    LatenciesRead(row);
    LatencyIsWord(row);
    assert value[0] == '[';
    BlankReads(tail, LatencyPattern(), m);
    ListReads(row.ops, " " + tail, LatencyPattern(), m);
    assert "osd_ops"[0] != "txn_ops"[0];
    WordPrefers(names, if row.kind.SubopWrite? then 1 else 0, " " + (value + (" " + tail)));
    GroupFieldReads(names, OpsLabel(row.kind), re, value, tail, LatencyPattern(), m1);
    OptionalFieldReads(names, re, Labelled(OpsLabel(row.kind), value, tail), LatencyPattern(), m1);
  }

  lemma LatencyIsWord(row: OpRow)
    ensures Word(LatencyText(row))
  {
    KeyIsWord("throttle_lat", Decimal(row.throttle),
              Labelled("recv_lat", Decimal(row.recv),
              Labelled("dispatch_lat", Decimal(row.dispatch),
              Labelled("queue_lat", Decimal(row.queue), Labelled("osd_lat", Decimal(row.osdLat), PeersField(row))))));
  }

  function ObjectGroups(row: OpRow): Captures {
    [Some(row.name)] + ([Some("[" + row.ops + "]")] + LatencyGroups(row))
  }

  lemma ObjectReads(row: OpRow)
    requires Printable(row)
    ensures Match(ObjectPattern(), ObjectText(row)) == Some(Matched(ObjectGroups(row), "\n"))
    ensures Word(ObjectText(row))
  {
    var t := Labelled(OpsLabel(row.kind), "[" + row.ops + "]", LatencyText(row));
    OpsRead(row);
    KeyIsWord(OpsLabel(row.kind), "[" + row.ops + "]", LatencyText(row));
    KeyIsWord("object", row.name, t);
    RunPrefers(NonBlank, 1, row.name, " " + t);
    WordPrefers(["object"], 0, " " + (row.name + (" " + t)));
    OptionalReads(["object"], "object", Run(NonBlank, 1), row.name, t,
                  [Opt(Field(["osd_ops", "txn_ops"], Enclosed('[', ']'), []))] + LatencyPattern(),
                  Matched([Some("[" + row.ops + "]")] + LatencyGroups(row), "\n"));
  }

  function IdGroups(row: OpRow, more: Captures): Captures {
    Caught(row.size) + (Caught(row.client) + (Caught(row.tid) + more))
  }

  /** The three numbers in front of whatever follows. */
  function IdText(row: OpRow, text: string): string {
    Labelled("size", Signed(row.size), Labelled("client", Signed(row.client), Labelled("tid", Signed(row.tid), text)))
  }

  lemma IdsRead(row: OpRow, text: string, rest: seq<Item>, m: Matched)
    requires NonNegative(row) && Word(text) && Match(rest, text) == Some(m)
    ensures Match(IdPattern(rest), IdText(row, text)) == Some(Matched(IdGroups(row, m.groups), m.rest))
  {
    NumberReads("tid", row.tid, text, rest, m);
    var p2, t2, g2 := Field(["tid"], DIGITS, rest), Labelled("tid", Decimal(row.tid), text), Caught(row.tid) + m.groups;
    NumberReads("client", row.client, t2, p2, Matched(g2, m.rest));
    var p1, t1, g1 := Field(["client"], DIGITS, p2), Labelled("client", Decimal(row.client), t2), Caught(row.client) + g2;
    NumberReads("size", row.size, t1, p1, Matched(g1, m.rest));
  }

  lemma SubjectReads(row: OpRow, m: Matched)
    requires NonNegative(row) && Word(ObjectText(row)) && Match(ObjectPattern(), ObjectText(row)) == Some(m)
    ensures Match(SubjectPattern(), SubjectText(row)) == Some(Matched(IdGroups(row, m.groups), m.rest))
  {
    IdsRead(row, ObjectText(row), ObjectPattern(), m);
  }

  // ---- the whole row ----

  function HeadGroups(row: OpRow, more: Captures): Captures {
    Caught(row.osd) + ([Some(Pg(row))] + ([Some(OpName(row.kind))] + more))
  }

  function RowGroups(row: OpRow): Captures {
    HeadGroups(row, IdGroups(row, ObjectGroups(row)))
  }

  lemma KindPrefers(k: Kind, tail: string)
    ensures Prefers(Alt(OP_NAMES), OpName(k), tail)
  {
    var i := match k case ReadOp => 3 case WriteOp => 2 case SubopWrite => 0;
    var text := OP_NAMES[i] + tail;
    assert !k.SubopWrite? ==> text[0] == 'o' && OP_NAMES[0][0] == 's' && OP_NAMES[1][0] == 's';
    assert k.ReadOp? ==> text[3] == 'r' && OP_NAMES[2][3] == 'w';
    WordPrefers(OP_NAMES, i, tail);
  }

  lemma SubjectIsWord(row: OpRow)
    ensures Word(SubjectText(row))
  {
    KeyIsWord("size", Signed(row.size), Labelled("client", Signed(row.client), Labelled("tid", Signed(row.tid), ObjectText(row))));
  }

  lemma KindReads(k: Kind, subject: string, rest: seq<Item>, m: Matched)
    requires Word(subject) && Match(rest, subject) == Some(m)
    ensures Match([Group(Alt(OP_NAMES))] + ([BLANKS] + rest), OpName(k) + (" " + subject))
            == Some(Matched([Some(OpName(k))] + m.groups, m.rest))
  {
    BlankReads(subject, rest, m);
    KindPrefers(k, " " + subject);
    GroupReads(Alt(OP_NAMES), OpName(k), " " + subject, [BLANKS] + rest, m);
  }

  lemma PgField(row: OpRow, tail: string, rest: seq<Item>, m: Matched)
    requires Word(tail) && Match(rest, tail) == Some(m)
    ensures Match(Field(["pg"], Run(NonBlank, 1), rest), Labelled("pg", Pg(row), tail))
            == Some(Matched([Some(Pg(row))] + m.groups, m.rest))
  {
    PgIsWord(row);
    RunPrefers(NonBlank, 1, Pg(row), " " + tail);
    WordPrefers(["pg"], 0, " " + (Pg(row) + (" " + tail)));
    FieldReads(["pg"], "pg", Run(NonBlank, 1), Pg(row), tail, rest, m);
  }

  lemma HeadReads(row: OpRow, subject: string, rest: seq<Item>, m: Matched)
    requires row.osd >= 0 && Word(subject) && Match(rest, subject) == Some(m)
    ensures Match(HeadPattern(rest), HeadText(row, subject))
            == Some(Matched(HeadGroups(row, m.groups), m.rest))
  {
    var tail := OpName(row.kind) + (" " + subject);
    KindReads(row.kind, subject, rest, m);
    WordGoesOn(OpName(row.kind), " " + subject);
    PgField(row, tail, [Group(Alt(OP_NAMES))] + ([BLANKS] + rest), Matched([Some(OpName(row.kind))] + m.groups, m.rest));
    KeyIsWord("pg", Pg(row), tail);
    NumberReads("osd", row.osd, Labelled("pg", Pg(row), tail),
                Field(["pg"], Run(NonBlank, 1), [Group(Alt(OP_NAMES))] + ([BLANKS] + rest)),
                Matched([Some(Pg(row))] + ([Some(OpName(row.kind))] + m.groups), m.rest));
  }

  lemma RowReads(row: OpRow)
    requires Printable(row) && NonNegative(row)
    ensures Search(RowPattern(), RowText(row)) == Some(Matched(RowGroups(row), "\n"))
  {
    ObjectReads(row);
    RowReadsWith(row, Matched(ObjectGroups(row), "\n"));
  }

  /** Once the object and all behind it are read, so is the row. */
  lemma RowReadsWith(row: OpRow, m: Matched)
    requires NonNegative(row) && Word(ObjectText(row)) && Match(ObjectPattern(), ObjectText(row)) == Some(m)
    ensures Search(RowPattern(), RowText(row)) == Some(Matched(HeadGroups(row, IdGroups(row, m.groups)), m.rest))
  {
    SubjectReads(row, m);
    SubjectIsWord(row);
    HeadReads(row, SubjectText(row), SubjectPattern(), Matched(IdGroups(row, m.groups), m.rest));
  }

  lemma PgIsWord(row: OpRow)
    ensures Word(Pg(row)) && forall i | 0 <= i < |Pg(row)| :: !IsBlank(Pg(row)[i])
  {
    var pool, seed := Signed(row.pool), Hex(row.seed);
    forall i | 0 <= i < |Pg(row)| ensures !IsBlank(Pg(row)[i]) {
      if i < |pool| { assert Pg(row)[i] == pool[i]; }
      else if i > |pool| { assert Pg(row)[i] == seed[i - |pool| - 1]; }
    }
  }

  // ================= the peers of a row =================

  /** One pair in parentheses. */
  function PairPattern(): seq<Item> {
    [Plain(Alt(["("]))] + ([Group(DIGITS)] + ([Plain(Alt([","]))] + ([Plain(Run(Blank, 0))]
    + ([Group(DIGITS)] + ([Plain(Alt([")"]))] + [])))))
  }

  function PairGroups(p: (nat, nat)): Captures {
    Caught(p.0) + (Caught(p.1) + [])
  }

  lemma LiteralReads(c: string, tail: string, rest: seq<Item>, m: Matched)
    requires Match(rest, tail) == Some(m)
    ensures Match([Plain(Alt([c]))] + rest, c + tail) == Some(m)
  {
    WordPrefers([c], 0, tail);
    PlainReads(Alt([c]), c, tail, rest, m);
  }

  lemma Regroup(a: string, b: string, c: string, d: string, e: string, t: string)
    ensures (a + (b + (c + (d + e)))) + t == a + (b + (c + (d + (e + t))))
  {
  }

  lemma CommaBlank(t: string)
    ensures ", " + t == "," + (" " + t)
  {
  }

  lemma SecondReads(b: nat, tail: string)
    ensures Match([Plain(Run(Blank, 0))] + ([Group(DIGITS)] + ([Plain(Alt([")"]))] + [])), " " + (Decimal(b) + (")" + tail)))
            == Some(Matched(Caught(b) + [], tail))
  {
    var t := ")" + tail;
    var p := [Plain(Alt([")"]))] + [];
    LiteralReads(")", tail, [], Matched([], tail));
    RunPrefers(Digit, 1, Decimal(b), t);
    GroupReads(DIGITS, Decimal(b), t, p, Matched([], tail));
    RunPrefers(Blank, 0, " ", Decimal(b) + t);
    PlainReads(Run(Blank, 0), " ", Decimal(b) + t, [Group(DIGITS)] + p, Matched(Caught(b) + [], tail));
  }

  lemma PairReads(p: (nat, nat), tail: string)
    ensures Match(PairPattern(), PeerText(p) + tail) == Some(Matched(PairGroups(p), tail))
  {
    var a, b := Decimal(p.0), Decimal(p.1);
    var p2 := [Plain(Run(Blank, 0))] + ([Group(DIGITS)] + ([Plain(Alt([")"]))] + []));
    var t2 := " " + (b + (")" + tail));
    SecondReads(p.1, tail);
    LiteralReads(",", t2, p2, Matched(Caught(p.1) + [], tail));
    RunPrefers(Digit, 1, a, "," + t2);
    GroupReads(DIGITS, a, "," + t2, [Plain(Alt([","]))] + p2, Matched(Caught(p.1) + [], tail));
    LiteralReads("(", a + ("," + t2), [Group(DIGITS)] + ([Plain(Alt([","]))] + p2), Matched(PairGroups(p), tail));
    Regroup("(", a, ", ", b, ")", tail);
    CommaBlank(b + (")" + tail));
  }

  lemma SkipChar(c: char, t: string)
    requires c != '('
    ensures FindAll(PairPattern(), [c] + t) == FindAll(PairPattern(), t)
  {
    var s := [c] + t;
    NotParenthesis(s, PairPattern()[1..]);
    assert PairPattern() == [Plain(Alt(["("]))] + PairPattern()[1..];
    assert s[1..] == t;
  }

  lemma FindsPair(p: (nat, nat), tail: string)
    ensures FindAll(PairPattern(), PeerText(p) + tail) == [PairGroups(p)] + FindAll(PairPattern(), tail)
  {
    PairReads(p, tail);
    assert |PeerText(p)| > 0;
  }

  /** The peers after the first. */
  function PeersTail(ps: Peers): string {
    if ps == [] then "" else ", " + (PeerText(ps[0]) + PeersTail(ps[1..]))
  }

  lemma {:induction false} TailGrows(ps: Peers, p: (nat, nat))
    ensures PeersTail(ps + [p]) == PeersTail(ps) + (", " + PeerText(p))
  {
    if ps == [] {
      assert ([] + [p])[1..] == [];
      assert PeersTail([p]) == ", " + (PeerText(p) + "");
      assert PeerText(p) + "" == PeerText(p);
      assert [] + [p] == [p];
    } else {
      assert (ps + [p])[1..] == ps[1..] + [p];
      TailGrows(ps[1..], p);
      var rest := ", " + PeerText(p);
      assert ", " + (PeerText(ps[0]) + (PeersTail(ps[1..]) + rest)) == (", " + (PeerText(ps[0]) + PeersTail(ps[1..]))) + rest;
    }
  }

  lemma Glue(a: string, b: string, c: string, d: string)
    ensures (a + b) + c + d == a + (b + (c + d))
  {
  }

  lemma {:induction false} FirstAndTail(ps: Peers)
    requires ps != []
    ensures PeersText(ps) == PeerText(ps[0]) + PeersTail(ps[1..])
  {
    if |ps| == 1 {
      assert PeerText(ps[0]) + "" == PeerText(ps[0]);
    } else {
      var front, last := ps[..|ps| - 1], ps[|ps| - 1];
      FirstAndTail(front);
      TailGrows(front[1..], last);
      assert front[1..] + [last] == ps[1..];
      Glue(PeerText(ps[0]), PeersTail(front[1..]), ", ", PeerText(last));
    }
  }

  function AllPairs(ps: Peers): seq<Captures> {
    if ps == [] then [] else [PairGroups(ps[0])] + AllPairs(ps[1..])
  }

  lemma TailSplits(p: (nat, nat), more: string)
    ensures (", " + (PeerText(p) + more)) + "]" == [','] + ([' '] + (PeerText(p) + (more + "]")))
  {
    CommaBlank(PeerText(p) + more);
    assert ("," + (" " + (PeerText(p) + more))) + "]" == "," + (" " + (PeerText(p) + (more + "]")));
    assert "," == [','] && " " == [' '];
  }

  lemma {:induction false} TailIsFound(ps: Peers)
    ensures FindAll(PairPattern(), PeersTail(ps) + "]") == AllPairs(ps)
  {
    if ps == [] {
      SkipChar(']', "");
      assert PeersTail(ps) + "]" == [']'] + "";
    } else {
      var more := PeersTail(ps[1..]) + "]";
      TailIsFound(ps[1..]);
      FindsPair(ps[0], more);
      SkipChar(' ', PeerText(ps[0]) + more);
      SkipChar(',', [' '] + (PeerText(ps[0]) + more));
      TailSplits(ps[0], PeersTail(ps[1..]));
    }
  }

  /** Searching the printed peers finds each of them, in order. */
  lemma PeersAreFound(ps: Peers)
    ensures FindAll(PairPattern(), "[" + PeersText(ps) + "]") == AllPairs(ps)
  {
    SkipChar('[', PeersText(ps) + "]");
    assert "[" + PeersText(ps) + "]" == ['['] + (PeersText(ps) + "]");
    if ps == [] {
      TailIsFound([]);
      assert PeersText(ps) + "]" == PeersTail([]) + "]";
    } else {
      FirstAndTail(ps);
      var tail := PeersTail(ps[1..]) + "]";
      assert PeersText(ps) + "]" == PeerText(ps[0]) + tail;
      FindsPair(ps[0], tail);
      TailIsFound(ps[1..]);
    }
  }

  // ================= parse_line =================

  datatype Entry = Entry(
    osd: nat, pg: Option<string>, op: Option<string>, size: nat, client: nat, tid: nat,
    name: Option<string>, ops: Option<string>, throttle: nat, recv: nat, dispatch: nat, queue: nat, osdLat: nat,
    peers: Peers, bluestore: nat, latType: Option<string>, lat: nat)

  function GroupAt(g: Captures, i: nat): Option<string> {
    if i < |g| then g[i] else None
  }

  /** int() of a group, which holds digits wherever it is used. */
  function Number(o: Option<string>): nat {
    if o.Some? && forall i | 0 <= i < |o.value| :: '0' <= o.value[i] <= '9' then Value(o.value) else 0
  }

  function Pairs(found: seq<Captures>): Peers {
    if found == [] then []
    else [(Number(GroupAt(found[0], 0)), Number(GroupAt(found[0], 1)))] + Pairs(found[1..])
  }

  function PeersIn(o: Option<string>): Peers {
    if o.Some? then Pairs(FindAll(PairPattern(), o.value)) else []
  }

  /** parse_line, without the BlueStore details that no row printed here has. */
  function ParseLine(line: string): Option<Entry> {
    var m := Search(RowPattern(), line);
    if m.None? then None
    else
      var g := m.value.groups;
      Some(Entry(Number(GroupAt(g, 0)), GroupAt(g, 1), GroupAt(g, 2), Number(GroupAt(g, 3)), Number(GroupAt(g, 4)),
                 Number(GroupAt(g, 5)), GroupAt(g, 6), GroupAt(g, 7), Number(GroupAt(g, 8)), Number(GroupAt(g, 9)),
                 Number(GroupAt(g, 10)), Number(GroupAt(g, 11)), Number(GroupAt(g, 12)), PeersIn(GroupAt(g, 13)),
                 Number(GroupAt(g, 14)), GroupAt(g, 16), Number(GroupAt(g, 17))))
  }

  lemma NumberIs(n: nat)
    ensures Number(Some(Decimal(n))) == n
  {
    DecimalValue(n);
  }

  lemma {:induction false} PairsAre(ps: Peers)
    ensures Pairs(AllPairs(ps)) == ps
  {
    if ps != [] {
      NumberIs(ps[0].0);
      NumberIs(ps[0].1);
      PairsAre(ps[1..]);
      assert AllPairs(ps)[1..] == AllPairs(ps[1..]);
      assert ps == [ps[0]] + ps[1..];
    }
  }

  lemma SubjectGroupsAre(row: OpRow)
    requires NonNegative(row)
    ensures var g := RowGroups(row);
            && GroupAt(g, 0) == Some(Signed(row.osd)) && GroupAt(g, 1) == Some(Pg(row))
            && GroupAt(g, 2) == Some(OpName(row.kind)) && GroupAt(g, 3) == Some(Signed(row.size))
            && GroupAt(g, 4) == Some(Signed(row.client)) && GroupAt(g, 5) == Some(Signed(row.tid))
            && GroupAt(g, 6) == Some(row.name) && GroupAt(g, 7) == Some("[" + row.ops + "]")
    ensures |RowGroups(row)| == 18 && RowGroups(row)[8..] == LatencyGroups(row)
  {
  }

  lemma LatencyGroupsAre(row: OpRow)
    requires NonNegative(row)
    ensures var g := RowGroups(row);
            && GroupAt(g, 8) == Some(Decimal(row.throttle)) && GroupAt(g, 9) == Some(Decimal(row.recv))
            && GroupAt(g, 10) == Some(Decimal(row.dispatch)) && GroupAt(g, 11) == Some(Decimal(row.queue))
            && GroupAt(g, 12) == Some(Decimal(row.osdLat)) && GroupAt(g, 13) == PeersGroup(row)
            && GroupAt(g, 14) == Some(Decimal(row.bluestore)) && GroupAt(g, 16) == Some(LatName(row.kind))
            && GroupAt(g, 17) == Some(Decimal(row.lat))
  {
    SubjectGroupsAre(row);
    assert forall i | 8 <= i < 18 :: RowGroups(row)[i] == LatencyGroups(row)[i - 8];
  }

  /** The entry is what the row was printed from, leaving aside the object and the op list. */
  predicate DescribesRest(e: Entry, row: OpRow) {
    && e.osd == row.osd && e.pg == Some(Pg(row)) && e.op == Some(OpName(row.kind))
    && e.size == row.size && e.client == row.client && e.tid == row.tid
    && e.throttle == row.throttle && e.recv == row.recv && e.dispatch == row.dispatch && e.queue == row.queue
    && e.osdLat == row.osdLat && e.peers == (if row.kind.WriteOp? then row.peers else [])
    && e.bluestore == row.bluestore && e.latType == Some(LatName(row.kind)) && e.lat == row.lat
  }

  predicate Describes(e: Entry, row: OpRow) {
    DescribesRest(e, row) && e.name == Some(row.name) && e.ops == Some("[" + row.ops + "]")
  }

  /** Every such row is read back as the values it was printed from: the op, the object, the op
      list, the latencies, and the peers of a write. */
  lemma ParsePrinted(row: OpRow)
    requires Printable(row) && NonNegative(row)
    ensures ParseLine(RowText(row)).Some? && Describes(ParseLine(RowText(row)).value, row)
  {
    RowReads(row);
    SubjectGroupsAre(row);
    LatencyGroupsAre(row);
    PeersAreFound(row.peers);
    PairsAre(row.peers);
    NumberIs(row.osd);
    NumberIs(row.size);
    NumberIs(row.client);
    NumberIs(row.tid);
    NumberIs(row.throttle);
    NumberIs(row.recv);
    NumberIs(row.dispatch);
    NumberIs(row.queue);
    NumberIs(row.osdLat);
    NumberIs(row.bluestore);
    NumberIs(row.lat);
  }
}
