/** Matching with a backtracking pattern, the way the analyser's regular expression is matched:
    every construct offers its candidate lengths in order of preference, and the first that lets the
    rest match is taken. */
module Patterns {
  import opened Words

  datatype Class = Digit | Blank | NonBlank

  predicate In(k: Class, c: char) {
    match k
    case Digit => '0' <= c <= '9'
    case Blank => IsBlank(c)
    case NonBlank => !IsBlank(c)
  }

  /** White space of a text pattern, which goes beyond ASCII. */
  predicate IsBlank(c: char) {
    if c < '\U{80}' then '\t' <= c <= '\r' || '\U{1c}' <= c <= ' '
    else c == '\U{85}' || c == '\U{a0}' || c == '\U{1680}' || '\U{2000}' <= c <= '\U{200a}' || c == '\U{2028}'
         || c == '\U{2029}' || c == '\U{202f}' || c == '\U{205f}' || c == '\U{3000}'
  }

  /** The code points of white space, one by one. */
  lemma BlanksAre(c: char)
    ensures IsBlank(c)
            <==> c as int in {0x9, 0xa, 0xb, 0xc, 0xd, 0x1c, 0x1d, 0x1e, 0x1f, 0x20, 0x85, 0xa0, 0x1680,
                              0x2000, 0x2001, 0x2002, 0x2003, 0x2004, 0x2005, 0x2006, 0x2007, 0x2008, 0x2009, 0x200a,
                              0x2028, 0x2029, 0x202f, 0x205f, 0x3000}
  {
  }

  datatype Re =
    | Alt(options: seq<string>)          // literal alternatives
    | Run(k: Class, min: nat)            // greedy repetition of a class
    | Enclosed(open: char, close: char)  // open, as little as possible on one line, close
    | Little                             // as little as possible on one line

  datatype Item = Plain(re: Re) | Group(re: Re) | Opt(items: seq<Item>)

  // ================= candidates =================

  function Span(k: Class, s: string): (n: nat)
    ensures n <= |s|
  {
    if s == "" || !In(k, s[0]) then 0 else 1 + Span(k, s[1..])
  }

  function Down(from: nat, to: nat): (ns: seq<nat>)
    ensures forall n <- ns :: n <= from
  {
    if from < to then [] else if from == 0 then [0] else [from] + Down(from - 1, to)
  }

  function Options(options: seq<string>, s: string): (ns: seq<nat>)
    ensures forall n <- ns :: n <= |s|
  {
    if options == [] then []
    else (if options[0] <= s then [|options[0]|] else []) + Options(options[1..], s)
  }

  /** Ends of a stretch from position i: each closing character on the same line. */
  function Closers(s: string, i: nat, close: char): (ns: seq<nat>)
    ensures forall n <- ns :: n <= |s|
    decreases |s| - i
  {
    if i >= |s| || s[i] == '\n' then [] else (if s[i] == close then [i + 1] else []) + Closers(s, i + 1, close)
  }

  function Stretch(s: string, i: nat): (ns: seq<nat>)
    requires i <= |s|
    ensures forall n <- ns :: n <= |s|
    decreases |s| - i
  {
    [i] + if i == |s| || s[i] == '\n' then [] else Stretch(s, i + 1)
  }

  /** The lengths a construct can match at the start of s, the preferred ones first. */
  function Lengths(re: Re, s: string): (ns: seq<nat>)
    ensures forall n <- ns :: n <= |s|
  {
    match re
    case Alt(options) => Options(options, s)
    case Run(k, min) => Down(Span(k, s), min)
    case Enclosed(open, close) => if s == "" || s[0] != open then [] else Closers(s, 1, close)
    case Little => Stretch(s, 0)
  }

  // ================= matching =================

  type Captures = seq<Option<string>>

  function Weight(items: seq<Item>): nat {
    if items == [] then 0
    else (match items[0] case Opt(g) => 1 + Weight(g) case _ => 1) + Weight(items[1..])
  }

  lemma {:induction false} WeightConcat(a: seq<Item>, b: seq<Item>)
    ensures Weight(a + b) == Weight(a) + Weight(b)
  {
    if a == [] {
      assert a + b == b;
    } else {
      assert (a + b)[1..] == a[1..] + b;
      WeightConcat(a[1..], b);
    }
  }

  /** How many groups there are to capture. */
  function Groups(items: seq<Item>): nat {
    if items == [] then 0
    else (match items[0] case Opt(g) => Groups(g) case Group(_) => 1 case Plain(_) => 0) + Groups(items[1..])
  }

  function Nothing(n: nat): Captures {
    seq(n, _ => None)
  }

  /** What the groups captured, and the text after the match. */
  datatype Matched = Matched(groups: Captures, rest: string)

  function Before(front: Captures, m: Option<Matched>): Option<Matched> {
    if m.Some? then Some(Matched(front + m.value.groups, m.value.rest)) else None
  }

  /** Match the items at the start of s.  A group in an optional part that is skipped captures
      nothing. */
  function Match(items: seq<Item>, s: string): Option<Matched>
    decreases Weight(items), 1, 0
  {
    if items == [] then Some(Matched([], s))
    else
      match items[0]
      case Plain(re) => TryEach(Lengths(re, s), items[1..], s, false)
      case Group(re) => TryEach(Lengths(re, s), items[1..], s, true)
      case Opt(g) =>
        WeightConcat(g, items[1..]);
        var taken := Match(g + items[1..], s);
        if taken.Some? then taken else Before(Nothing(Groups(g)), Match(items[1..], s))
  }

  function TryEach(ns: seq<nat>, rest: seq<Item>, s: string, capture: bool): Option<Matched>
    requires forall n <- ns :: n <= |s|
    decreases Weight(rest), 2, |ns|
  {
    if ns == [] then None
    else
      assert ns[0] in ns;
      assert forall n <- ns[1..] :: n in ns;
      var first := Match(rest, s[ns[0]..]);
      if first.Some? then Before(if capture then [Some(s[..ns[0]])] else [], first)
      else TryEach(ns[1..], rest, s, capture)
  }

  /** The leftmost match. */
  function Search(items: seq<Item>, s: string): Option<Matched> {
    var m := Match(items, s);
    if m.Some? || s == "" then m else Search(items, s[1..])
  }

  /** All matches, each from where the one before ended. */
  function FindAll(items: seq<Item>, s: string): seq<Captures>
    decreases |s|
  {
    if s == "" then []
    else
      var m := Match(items, s);
      if m.Some? && |m.value.rest| < |s| then [m.value.groups] + FindAll(items, m.value.rest)
      else FindAll(items, s[1..])
  }

  // ================= the preferred candidate =================

  /** The construct's first choice on value + tail is value. */
  predicate Prefers(re: Re, value: string, tail: string) {
    var ns := Lengths(re, value + tail);
    ns != [] && ns[0] == |value|
  }

  lemma {:induction false} SpanIs(k: Class, value: string, tail: string)
    requires forall i | 0 <= i < |value| :: In(k, value[i])
    requires tail == "" || !In(k, tail[0])
    ensures Span(k, value + tail) == |value|
  {
    if value == "" {
      assert value + tail == tail;
    } else {
      assert (value + tail)[1..] == value[1..] + tail;
      SpanIs(k, value[1..], tail);
    }
  }

  lemma RunPrefers(k: Class, min: nat, value: string, tail: string)
    requires |value| >= min && forall i | 0 <= i < |value| :: In(k, value[i])
    requires tail == "" || !In(k, tail[0])
    ensures Prefers(Run(k, min), value, tail)
  {
    SpanIs(k, value, tail);
  }

  lemma {:induction false} FirstCloser(s: string, i: nat, j: nat, close: char)
    requires i <= j < |s| && s[j] == close && close != '\n'
    requires forall m | i <= m < j :: s[m] != close && s[m] != '\n'
    ensures Closers(s, i, close) != [] && Closers(s, i, close)[0] == j + 1
    decreases j - i
  {
    if i < j { FirstCloser(s, i + 1, j, close); }
  }

  lemma EnclosedPrefers(open: char, close: char, inside: string, tail: string)
    requires close != '\n' && forall i | 0 <= i < |inside| :: inside[i] != close && inside[i] != '\n'
    ensures Prefers(Enclosed(open, close), [open] + inside + [close], tail)
  {
    var s := [open] + inside + [close] + tail;
    assert s[|inside| + 1] == close;
    assert forall m | 1 <= m < |inside| + 1 :: s[m] == inside[m - 1];
    FirstCloser(s, 1, |inside| + 1, close);
  }

  lemma WordPrefers(options: seq<string>, i: nat, tail: string)
    requires i < |options| && forall j | 0 <= j < i :: !(options[j] <= options[i] + tail)
    ensures Prefers(Alt(options), options[i], tail)
  {
    FirstOption(options, i, options[i] + tail);
  }

  lemma {:induction false} FirstOption(options: seq<string>, i: nat, s: string)
    requires i < |options| && options[i] <= s && forall j | 0 <= j < i :: !(options[j] <= s)
    ensures Options(options, s) != [] && Options(options, s)[0] == |options[i]|
  {
    if i > 0 {
      assert forall j | 0 <= j < i - 1 :: options[1..][j] == options[j + 1];
      FirstOption(options[1..], i - 1, s);
    }
  }

  // ================= one item at a time =================

  lemma PlainReads(re: Re, value: string, tail: string, rest: seq<Item>, m: Matched)
    requires Prefers(re, value, tail) && Match(rest, tail) == Some(m)
    ensures Match([Plain(re)] + rest, value + tail) == Some(m)
  {
    assert ([Plain(re)] + rest)[1..] == rest;
    assert (value + tail)[|value|..] == tail;
    assert [] + m.groups == m.groups;
  }

  lemma GroupReads(re: Re, value: string, tail: string, rest: seq<Item>, m: Matched)
    requires Prefers(re, value, tail) && Match(rest, tail) == Some(m)
    ensures Match([Group(re)] + rest, value + tail) == Some(Matched([Some(value)] + m.groups, m.rest))
  {
    assert ([Group(re)] + rest)[1..] == rest;
    assert (value + tail)[|value|..] == tail;
    assert (value + tail)[..|value|] == value;
  }

  /** A lazy stretch goes on past each closing character after which the rest does not match. */
  lemma {:induction false} SkipsClosers(s: string, i: nat, j: nat, close: char, rest: seq<Item>, m: Matched)
    requires i <= j < |s| && s[j] == close && close != '\n' && forall q | i <= q < j :: s[q] != '\n'
    requires forall q | i <= q < j && s[q] == close :: Match(rest, s[q + 1..]).None?
    requires Match(rest, s[j + 1..]) == Some(m)
    ensures TryEach(Closers(s, i, close), rest, s, true) == Some(Matched([Some(s[..j + 1])] + m.groups, m.rest))
    decreases j - i
  {
    var ns, more := Closers(s, i, close), Closers(s, i + 1, close);
    if s[i] == close {
      assert ns == [i + 1] + more && ns[0] == i + 1 && ns[1..] == more;
    } else {
      assert ns == [] + more == more;
    }
    if i < j {
      SkipsClosers(s, i + 1, j, close, rest, m);
      assert TryEach(ns, rest, s, true) == TryEach(more, rest, s, true);
    }
  }

  lemma OptReads(g: seq<Item>, rest: seq<Item>, s: string, m: Matched)
    requires Match(g + rest, s) == Some(m)
    ensures Match([Opt(g)] + rest, s) == Some(m)
  {
    assert ([Opt(g)] + rest)[1..] == rest;
  }

  lemma OptSkips(g: seq<Item>, rest: seq<Item>, s: string, m: Matched)
    requires Match(g + rest, s).None? && Groups(g) == 1 && Match(rest, s) == Some(m)
    ensures Match([Opt(g)] + rest, s) == Some(Matched([None] + m.groups, m.rest))
  {
    assert ([Opt(g)] + rest)[1..] == rest;
    assert Nothing(1) == [None];
  }

  lemma NothingMatches(item: Item, rest: seq<Item>, s: string)
    requires !item.Opt? && Lengths(item.re, s) == []
    ensures Match([item] + rest, s).None?
  {
  }

  // ================= what a group can capture =================

  /** The constructs that are captured, in order. */
  function Captured(items: seq<Item>): (res: seq<Re>)
    ensures |res| == Groups(items)
  {
    if items == [] then []
    else (match items[0] case Opt(g) => Captured(g) case Group(re) => [re] case Plain(_) => []) + Captured(items[1..])
  }

  lemma CapturedCons(item: Item, rest: seq<Item>)
    ensures Captured([item] + rest)
            == (match item case Opt(g) => Captured(g) case Group(re) => [re] case Plain(_) => []) + Captured(rest)
  {
    assert ([item] + rest)[1..] == rest;
  }

  lemma {:induction false} CapturedConcat(a: seq<Item>, b: seq<Item>)
    ensures Captured(a + b) == Captured(a) + Captured(b)
    decreases |a|
  {
    if a == [] {
      assert a + b == b;
    } else {
      var item, rest := a[0], a[1..];
      var head := match item case Opt(g) => Captured(g) case Group(re) => [re] case Plain(_) => [];
      assert Captured(rest + b) == Captured(rest) + Captured(b) by { CapturedConcat(rest, b); }
      assert a + b == [item] + (rest + b) && a == [item] + rest;
      assert Captured(a + b) == head + Captured(rest + b) by { CapturedCons(item, rest + b); }
      assert Captured(a) == head + Captured(rest) by { CapturedCons(item, rest); }
      Reassociate(head, Captured(rest), Captured(b));
    }
  }

  predicate OfClass(re: Re, value: string) {
    re.Run? ==> forall i | 0 <= i < |value| :: In(re.k, value[i])
  }

  /** Each capture of a repetition consists of characters of its class. */
  predicate Fits(res: seq<Re>, groups: Captures) {
    |groups| == |res| && forall i | 0 <= i < |res| && groups[i].Some? :: OfClass(res[i], groups[i].value)
  }

  lemma {:induction false} SpanFits(k: Class, s: string, n: nat)
    requires n <= Span(k, s)
    ensures forall i | 0 <= i < n :: In(k, s[i])
  {
    if n > 0 {
      SpanFits(k, s[1..], n - 1);
      assert forall i | 0 < i < n :: s[i] == s[1..][i - 1];
    }
  }

  lemma LengthsFit(re: Re, s: string)
    ensures forall n <- Lengths(re, s) :: OfClass(re, s[..n])
  {
    forall n | n in Lengths(re, s) ensures OfClass(re, s[..n]) {
      if re.Run? { SpanFits(re.k, s, n); }
    }
  }

  lemma {:induction false} MatchFits(items: seq<Item>, s: string)
    ensures Match(items, s).Some? ==> Fits(Captured(items), Match(items, s).value.groups)
    decreases Weight(items), 1, 0
  {
    if items != [] {
      match items[0]
      case Plain(re) =>
        TryEachFits(Lengths(re, s), re, items[1..], s, false);
        assert Captured(items) == Captured(items[1..]);
      case Group(re) =>
        LengthsFit(re, s);
        TryEachFits(Lengths(re, s), re, items[1..], s, true);
      case Opt(g) =>
        WeightConcat(g, items[1..]);
        CapturedConcat(g, items[1..]);
        MatchFits(g + items[1..], s);
        MatchFits(items[1..], s);
    }
  }

  lemma {:induction false} TryEachFits(ns: seq<nat>, re: Re, rest: seq<Item>, s: string, capture: bool)
    requires forall n <- ns :: n <= |s| && (capture ==> OfClass(re, s[..n]))
    ensures var m := TryEach(ns, rest, s, capture);
            m.Some? ==> Fits((if capture then [re] else []) + Captured(rest), m.value.groups)
    decreases Weight(rest), 2, |ns|
  {
    if ns != [] {
      assert ns[0] in ns;
      assert forall n <- ns[1..] :: n in ns;
      MatchFits(rest, s[ns[0]..]);
      TryEachFits(ns[1..], re, rest, s, capture);
    }
  }

  /** So does each capture of a search. */
  lemma {:induction false} SearchFits(items: seq<Item>, s: string)
    ensures Search(items, s).Some? ==> Fits(Captured(items), Search(items, s).value.groups)
    decreases |s|
  {
    MatchFits(items, s);
    if s != "" { SearchFits(items, s[1..]); }
  }
}
