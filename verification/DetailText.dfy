/** The printed op list: what format_detail_ops makes of the captured opcodes. */
module DetailText {
  import opened Words
  import opened ClassCalls
  import opened OpRows
  import opened DroppedRows
  import opened Utf8

  /** One element of the list. */
  datatype Token = Op(code: U32) | Call(cls: Bytes, call: Bytes) | More(omitted: nat) | Unavailable(ops: nat)

  function ShownBy(t: Token): nat {
    if t.Op? || t.Call? then 1 else 0
  }

  function OmittedBy(t: Token): nat {
    match t case More(n) => n case Unavailable(n) => n case _ => 0
  }

  function Shown(tokens: seq<Token>): nat {
    if tokens == [] then 0 else Shown(tokens[..|tokens| - 1]) + ShownBy(tokens[|tokens| - 1])
  }

  function Omitted(tokens: seq<Token>): nat {
    if tokens == [] then 0 else Omitted(tokens[..|tokens| - 1]) + OmittedBy(tokens[|tokens| - 1])
  }

  /** The names of opcodes; a code without one is printed as a number. */
  type Names = map<U32, string>

  function CallText(cls: Bytes, call: Bytes): string {
    "call(" + AsText(cls) + "." + AsText(call) + ")"
  }

  function TokenText(t: Token, names: Names): string {
    match t
    case Op(code) => if code in names then names[code] else "unknown-" + Decimal(code)
    case Call(cls, call) => CallText(cls, call)
    case More(n) => "...+" + Decimal(n)
    case Unavailable(n) => "unavailable+" + Decimal(n)
  }

  function Separator(i: nat): string {
    if i == 0 then "" else ","
  }

  /** The first n strings, separated by commas. */
  function JoinedTo(texts: seq<string>, n: nat): string
    requires n <= |texts|
  {
    if n == 0 then "" else JoinedTo(texts, n - 1) + Separator(n - 1) + texts[n - 1]
  }

  function Texts(tokens: seq<Token>, names: Names): (texts: seq<string>)
    ensures |texts| == |tokens|
  {
    seq(|tokens|, i requires 0 <= i < |tokens| => TokenText(tokens[i], names))
  }

  lemma TextAt(tokens: seq<Token>, names: Names, i: nat)
    requires i < |tokens|
    ensures Texts(tokens, names)[i] == TokenText(tokens[i], names)
  {
  }

  function Joined(tokens: seq<Token>, names: Names): string {
    JoinedTo(Texts(tokens, names), |tokens|)
  }

  lemma {:induction false} JoinedSame(a: seq<string>, b: seq<string>, n: nat)
    requires n <= |a| && a <= b
    ensures JoinedTo(a, n) == JoinedTo(b, n)
  {
    if n > 0 { JoinedSame(a, b, n - 1); }
  }

  lemma OneMore(tokens: seq<Token>, t: Token, names: Names)
    ensures Joined(tokens + [t], names) == Joined(tokens, names) + Separator(|tokens|) + TokenText(t, names)
  {
    assert Texts(tokens + [t], names) == Texts(tokens, names) + [TokenText(t, names)];
    JoinedSame(Texts(tokens, names), Texts(tokens, names) + [TokenText(t, names)], |tokens|);
  }

  lemma CountOneMore(tokens: seq<Token>, t: Token)
    ensures Shown(tokens + [t]) == Shown(tokens) + ShownBy(t) && Omitted(tokens + [t]) == Omitted(tokens) + OmittedBy(t)
  {
    assert (tokens + [t])[..|tokens|] == tokens;
  }

  lemma Regroup(a: string, b: string, c: string, d: string)
    ensures ((a + b) + c) + d == a + ((b + c) + d)
  {
  }

  /** A client op's call is shown by its names, if a class name was captured. */
  function TokenOf(code: U32, c: ClsOp, transaction: bool): Token {
    if !transaction && code == CALL && UpToNul(c.cls) != [] then Call(UpToNul(c.cls), UpToNul(c.call)) else Op(code)
  }

  function Tokens(ops: seq<U32>, calls: seq<ClsOp>, transaction: bool): (tokens: seq<Token>)
    ensures |tokens| == |ops|
    ensures forall i | 0 <= i < |ops| :: tokens[i] == TokenOf(ops[i], Peek(calls, i, NO_CALL), transaction)
  {
    seq(|ops|, i requires 0 <= i < |ops| => TokenOf(ops[i], Peek(calls, i, NO_CALL), transaction))
  }

  lemma {:induction false} TokensAreShown(tokens: seq<Token>)
    requires forall i | 0 <= i < |tokens| :: tokens[i].Op? || tokens[i].Call?
    ensures Shown(tokens) == |tokens| && Omitted(tokens) == 0
  {
    if tokens != [] { TokensAreShown(tokens[..|tokens| - 1]); }
  }

  lemma ShowOne(texts: seq<string>, i: nat)
    requires i < |texts|
    ensures "[" + JoinedTo(texts, i + 1) == "[" + JoinedTo(texts, i) + Separator(i) + texts[i]
  {
    Regroup("[", JoinedTo(texts, i), Separator(i), texts[i]);
  }

  /** One element, with the names of a call in buffers of which the first byte tells whether there
      is any. */
  method ShowToken(code: U32, c: ClsOp, transaction: bool, names: Names) returns (text: string)
    ensures text == TokenText(TokenOf(code, c, transaction), names)
  {
    if !transaction && code == CALL && c.cls[0] != 0 {
      text := "call(" + AsText(UpToNul(c.cls)) + "." + AsText(UpToNul(c.call)) + ")";
    } else {
      text := if code in names then names[code] else "unknown-" + Decimal(code);
    }
  }

  /** One element more, behind a comma unless it is the first. */
  method ShowNext(before: string, i: nat, code: U32, c: ClsOp, transaction: bool, names: Names, ghost texts: seq<string>)
    returns (text: string)
    requires i < |texts| && texts[i] == TokenText(TokenOf(code, c, transaction), names)
    requires before == "[" + JoinedTo(texts, i)
    ensures text == "[" + JoinedTo(texts, i + 1)
  {
    var shown := ShowToken(code, c, transaction, names);
    ShowOne(texts, i);
    text := before + Separator(i) + shown;
  }

  /** The loop over the opcodes, after the opening bracket. */
  method ShowOps(ops: seq<U32>, calls: seq<ClsOp>, transaction: bool, names: Names) returns (text: string)
    requires |ops| <= |calls|
    ensures text == "[" + Joined(Tokens(ops, calls, transaction), names)
  {
    ghost var tokens := Tokens(ops, calls, transaction);
    ghost var texts := Texts(tokens, names);
    text := "[";
    var i := 0;
    while i < |ops|
      invariant 0 <= i <= |ops| && text == "[" + JoinedTo(texts, i)
    {
      TextAt(tokens, names, i);
      text := ShowNext(text, i, ops[i], calls[i], transaction, names, texts);
      i := i + 1;
    }
  }

  /** The tokens of a whole list. */
  function Listing(ops: seq<U32>, calls: seq<ClsOp>, transaction: bool, total: U32, unavailable: bool): seq<Token> {
    if unavailable then [Unavailable(total)]
    else if total > |ops| then Tokens(ops, calls, transaction) + [More(total - |ops|)]
    else Tokens(ops, calls, transaction)
  }

  /** Shown and omitted ops make up the total if and only if no more are shown than there are. */
  lemma ListingAddsUpIff(ops: seq<U32>, calls: seq<ClsOp>, transaction: bool, total: U32)
    ensures var tokens := Listing(ops, calls, transaction, total, false);
            Shown(tokens) == |ops| && (Shown(tokens) + Omitted(tokens) == total <==> |ops| <= total)
  {
    var tokens := Tokens(ops, calls, transaction);
    TokensAreShown(tokens);
    if total > |ops| { CountOneMore(tokens, More(total - |ops|)); }
  }

  lemma ShowMore(tokens: seq<Token>, more: Token, names: Names)
    ensures "[" + Joined(tokens + [more], names) == "[" + Joined(tokens, names) + Separator(|tokens|) + TokenText(more, names)
  {
    OneMore(tokens, more, names);
    Regroup("[", Joined(tokens, names), Separator(|tokens|), TokenText(more, names));
  }

  lemma ShowUnavailable(total: U32, names: Names)
    ensures Joined([Unavailable(total)], names) == "unavailable+" + Decimal(total)
  {
    var texts := Texts([Unavailable(total)], names);
    TextAt([Unavailable(total)], names, 0);
    assert JoinedTo(texts, 1) == "" + "" + texts[0];
  }

  /** How many ops are left out, behind those shown. */
  method ShowOmitted(shown: string, ops: seq<U32>, calls: seq<ClsOp>, transaction: bool, omitted: nat, names: Names)
    returns (text: string)
    requires shown == "[" + Joined(Tokens(ops, calls, transaction), names)
    ensures text == "[" + Joined(Tokens(ops, calls, transaction) + [More(omitted)], names)
  {
    ShowMore(Tokens(ops, calls, transaction), More(omitted), names);
    text := shown;
    if ops != [] { text := text + ","; }
    text := text + ("...+" + Decimal(omitted));
  }

  /** format_detail_ops */
  method FormatDetailOps(ops: seq<U32>, calls: seq<ClsOp>, transaction: bool, total: U32, unavailable: bool, names: Names)
    returns (text: string)
    requires |ops| <= |calls|
    ensures text == "[" + Joined(Listing(ops, calls, transaction, total, unavailable), names) + "]"
  {
    if unavailable {
      ShowUnavailable(total, names);
      return "[" + ("unavailable+" + Decimal(total)) + "]";
    }
    text := ShowOps(ops, calls, transaction, names);
    if total > |ops| {
      text := ShowOmitted(text, ops, calls, transaction, total - |ops|, names);
    }
    text := text + "]";
  }

  // ---- a worked list ----

  const LOCK: ClsOp := Buffers(Padded([0x72, 0x62, 0x64], 3, 16), Padded([0x6c, 0x6f, 0x63, 0x6b], 4, 32))

  lemma FourTexts(a: string, b: string, c: string, more: string)
    ensures JoinedTo([a, b, c, more], 4) == a + "," + b + "," + c + "," + more
  {
    var texts := [a, b, c, more];
    assert JoinedTo(texts, 1) == "" + "" + a == a;
    assert JoinedTo(texts, 2) == a + "," + b;
    assert JoinedTo(texts, 3) == a + "," + b + "," + c;
  }

  lemma LockText()
    ensures CallText([0x72, 0x62, 0x64], [0x6c, 0x6f, 0x63, 0x6b]) == "call(rbd.lock)"
  {
    assert AsText([0x72, 0x62, 0x64]) == "rbd" && AsText([0x6c, 0x6f, 0x63, 0x6b]) == "lock";
    assert "call(" + "rbd" + "." + "lock" + ")" == "call(rbd.lock)";
  }

  lemma LockNames()
    ensures UpToNul(LOCK.cls) == [0x72, 0x62, 0x64] && UpToNul(LOCK.call) == [0x6c, 0x6f, 0x63, 0x6b]
  {
    assert LOCK.cls[..3] == [0x72, 0x62, 0x64] && LOCK.cls[3] == 0;
    UpToFirst(LOCK.cls, 3);
    assert LOCK.call[..4] == [0x6c, 0x6f, 0x63, 0x6b] && LOCK.call[4] == 0;
    UpToFirst(LOCK.call, 4);
  }

  /** What a list is made of. */
  lemma ListingIs(ops: seq<U32>, calls: seq<ClsOp>, transaction: bool, total: U32, unavailable: bool)
    requires |ops| <= |calls|
    ensures var tokens := Listing(ops, calls, transaction, total, unavailable);
            if unavailable then tokens == [Unavailable(total)]
            else
              && |tokens| == |ops| + (if total > |ops| then 1 else 0)
              && (total > |ops| ==> tokens[|ops|] == More(total - |ops|))
              && forall i | 0 <= i < |ops| ::
                   tokens[i] == if !transaction && ops[i] == 0x1401 && UpToNul(calls[i].cls) != []
                                then Call(UpToNul(calls[i].cls), UpToNul(calls[i].call)) else Op(ops[i])
  {
  }

  lemma LockTokens()
    ensures Listing([0x2201, 0x1401, 77], [NO_CALL, LOCK, NO_CALL], false, 5, false)
            == [Op(0x2201), Call([0x72, 0x62, 0x64], [0x6c, 0x6f, 0x63, 0x6b]), Op(77), More(2)]
  {
    var ops: seq<U32> := [0x2201, 0x1401, 77];
    LockNames();
    ListingIs(ops, [NO_CALL, LOCK, NO_CALL], false, 5, false);
    var tokens := Listing(ops, [NO_CALL, LOCK, NO_CALL], false, 5, false);
    assert ops[0] == 0x2201 && ops[1] == 0x1401 && ops[2] == 77;
    assert tokens[0] == Op(0x2201) && tokens[2] == Op(77) && tokens[3] == More(2);
    assert tokens[1] == Call([0x72, 0x62, 0x64], [0x6c, 0x6f, 0x63, 0x6b]);
  }

  lemma Numbered()
    ensures "unknown-" + Decimal(77) == "unknown-77" && "...+" + Decimal(2) == "...+2"
  {
    assert Decimal(77) == "77" && Decimal(2) == "2";
  }

  /** A client op that writes, calls rbd.lock, does something without a name, and two things more. */
  lemma ListHappens()
    ensures var names: Names := map[0x2201 := "write"];
            "[" + Joined(Listing([0x2201, 0x1401, 77], [NO_CALL, LOCK, NO_CALL], false, 5, false), names) + "]"
            == "[" + ("write" + "," + "call(rbd.lock)" + "," + "unknown-77" + "," + "...+2") + "]"
  {
    var names: Names := map[0x2201 := "write"];
    var tokens := [Op(0x2201), Call([0x72, 0x62, 0x64], [0x6c, 0x6f, 0x63, 0x6b]), Op(77), More(2)];
    LockTokens();
    LockText();
    Numbered();
    assert Texts(tokens, names) == ["write", "call(rbd.lock)", "unknown-77", "...+2"];
    FourTexts("write", "call(rbd.lock)", "unknown-77", "...+2");
  }

  lemma NoBlankConcat(a: string, b: string)
    requires NoBlank(a) && NoBlank(b)
    ensures NoBlank(a + b)
  {
  }

  /** No opcode name has a blank in it. */
  ghost predicate PlainNames(names: Names) {
    forall code <- names :: NoBlank(names[code])
  }

  /** Nor has a class or method name. */
  predicate PlainCall(c: ClsOp) {
    NoBlank(AsText(UpToNul(c.cls))) && NoBlank(AsText(UpToNul(c.call)))
  }

  predicate PlainToken(t: Token) {
    t.Call? ==> NoBlank(AsText(t.cls)) && NoBlank(AsText(t.call))
  }

  lemma CallHasNoBlank(cls: string, call: string)
    requires NoBlank(cls) && NoBlank(call)
    ensures NoBlank("call(" + cls + "." + call + ")")
  {
    NoBlankConcat("call(", cls);
    NoBlankConcat("call(" + cls, ".");
    NoBlankConcat("call(" + cls + ".", call);
    NoBlankConcat("call(" + cls + "." + call, ")");
  }

  lemma TokenHasNoBlank(t: Token, names: Names)
    requires PlainNames(names) && PlainToken(t)
    ensures NoBlank(TokenText(t, names))
  {
    match t
    case Op(code) => if code !in names { NoBlankConcat("unknown-", Decimal(code)); }
    case Call(cls, call) => CallHasNoBlank(AsText(cls), AsText(call));
    case More(n) => NoBlankConcat("...+", Decimal(n));
    case Unavailable(n) => NoBlankConcat("unavailable+", Decimal(n));
  }

  lemma {:induction false} ListHasNoBlank(texts: seq<string>, n: nat)
    requires n <= |texts| && forall i | 0 <= i < n :: NoBlank(texts[i])
    ensures NoBlank(JoinedTo(texts, n))
  {
    if n > 0 {
      ListHasNoBlank(texts, n - 1);
      NoBlankConcat(JoinedTo(texts, n - 1), Separator(n - 1));
      NoBlankConcat(JoinedTo(texts, n - 1) + Separator(n - 1), texts[n - 1]);
    }
  }

  lemma ListingIsPlain(ops: seq<U32>, calls: seq<ClsOp>, transaction: bool, total: U32, unavailable: bool)
    requires forall i | 0 <= i < |calls| :: PlainCall(calls[i])
    ensures var tokens := Listing(ops, calls, transaction, total, unavailable);
            forall i | 0 <= i < |tokens| :: PlainToken(tokens[i])
  {
  }

  /** A row with the op list format_detail_ops printed for it parses if and only if it has no
      negative number, and then the op list comes back whole. */
  lemma PrintedListParses(row: OpRow, ops: seq<U32>, calls: seq<ClsOp>, transaction: bool, total: U32,
                          unavailable: bool, names: Names)
    requires row.ops == Joined(Listing(ops, calls, transaction, total, unavailable), names) && PlainNames(names)
    requires forall i | 0 <= i < |calls| :: PlainCall(calls[i])
    requires row.name != "" && NoBlank(row.name)
    ensures ParseLine(RowText(row)).Some? <==> NonNegative(row)
    ensures NonNegative(row) ==> ParseLine(RowText(row)).value.ops == Some("[" + row.ops + "]")
  {
    ListingHasNoBlank(ops, calls, transaction, total, unavailable, names);
    OneWordListParses(row);
  }

  lemma ListingHasNoBlank(ops: seq<U32>, calls: seq<ClsOp>, transaction: bool, total: U32, unavailable: bool, names: Names)
    requires PlainNames(names) && forall i | 0 <= i < |calls| :: PlainCall(calls[i])
    ensures NoBlank(Joined(Listing(ops, calls, transaction, total, unavailable), names))
  {
    var tokens := Listing(ops, calls, transaction, total, unavailable);
    ListingIsPlain(ops, calls, transaction, total, unavailable);
    forall i | 0 <= i < |tokens| ensures NoBlank(Texts(tokens, names)[i]) {
      TextAt(tokens, names, i);
      TokenHasNoBlank(tokens[i], names);
    }
    ListHasNoBlank(Texts(tokens, names), |tokens|);
  }

  lemma OneWordListParses(row: OpRow)
    requires row.name != "" && NoBlank(row.name) && NoBlank(row.ops)
    ensures ParseLine(RowText(row)).Some? <==> NonNegative(row)
    ensures NonNegative(row) ==> ParseLine(RowText(row)).value.ops == Some("[" + row.ops + "]")
  {
    OneWordIsListText(row.ops);
    RecognisedIff(row);
    if NonNegative(row) { ParsePrinted(row); }
  }

  lemma OneWordIsListText(s: string)
    requires NoBlank(s)
    ensures ListText(s) && Spaced(s)
  {
  }
}
