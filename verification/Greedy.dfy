/** The greedy elimination of the radostrace analyser: which few OSDs explain the slow operations. */
module Greedy {
  import opened Words

  /** An OSD as the log names it: a run of digits. */
  datatype Osd = Osd(digits: string)
  type Entry = seq<Osd>

  datatype Finding = Finding(osd: Osd, count: nat, host: string, iteration: nat)

  // ================= counting =================

  /** All OSDs named by the entries, in reading order. */
  function Flat(entries: seq<Entry>): seq<Osd> {
    if entries == [] then [] else Flat(entries[..|entries| - 1]) + entries[|entries| - 1]
  }

  function Occurrences(entries: seq<Entry>, osd: Osd): nat {
    multiset(Flat(entries))[osd]
  }

  /** The keys of a dictionary filled in this order: each element where it first appears. */
  function Firsts(s: seq<Osd>): seq<Osd> {
    if s == [] then []
    else
      var keys, last := Firsts(s[..|s| - 1]), s[|s| - 1];
      if last in keys then keys else keys + [last]
  }

  lemma {:induction false} FirstsAre(s: seq<Osd>)
    ensures forall o :: o in Firsts(s) <==> o in s
    ensures forall i, j | 0 <= i < j < |Firsts(s)| :: Firsts(s)[i] != Firsts(s)[j]
  {
    if s != [] {
      FirstsAre(s[..|s| - 1]);
      assert s == s[..|s| - 1] + [s[|s| - 1]];
    }
  }

  /** The dictionary filled by counting one element after the other. */
  function Tally(s: seq<Osd>): map<Osd, nat> {
    if s == [] then map[]
    else
      var counts, last := Tally(s[..|s| - 1]), s[|s| - 1];
      counts[last := 1 + if last in counts then counts[last] else 0]
  }

  lemma {:induction false} TallyMeaning(s: seq<Osd>, o: Osd)
    ensures o in Tally(s) <==> o in Firsts(s)
    ensures o in Tally(s) <==> o in s
    ensures o in s ==> Tally(s)[o] == multiset(s)[o]
  {
    FirstsAre(s);
    if s != [] {
      var front := s[..|s| - 1];
      TallyMeaning(front, o);
      assert s == front + [s[|s| - 1]];
      assert o !in front ==> multiset(front)[o] == 0;
    }
  }

  lemma {:induction false} TallyOne(read: seq<Osd>, osd: Osd)
    ensures Firsts(read + [osd]) == if osd in Tally(read) then Firsts(read) else Firsts(read) + [osd]
    ensures Tally(read + [osd]) == Tally(read)[osd := 1 + if osd in Tally(read) then Tally(read)[osd] else 0]
  {
    TallyMeaning(read, osd);
    var more := read + [osd];
    assert more[..|more| - 1] == read;
    assert more[|more| - 1] == osd;
  }

  lemma ReadOne(read: seq<Osd>, entry: Entry, j: nat)
    requires j < |entry|
    ensures read + entry[..j + 1] == (read + entry[..j]) + [entry[j]]
  {
  }

  /** One step of the inner loop. */
  method CountOsd(keysBefore: seq<Osd>, countsBefore: map<Osd, nat>, osd: Osd, ghost read: seq<Osd>)
    returns (keys: seq<Osd>, counts: map<Osd, nat>)
    requires keysBefore == Firsts(read) && countsBefore == Tally(read)
    ensures keys == Firsts(read + [osd]) && counts == Tally(read + [osd])
  {
    keys, counts := keysBefore, countsBefore;
    TallyOne(read, osd);
    if osd !in counts {
      keys := keys + [osd];
      counts := counts[osd := 1];
    } else {
      counts := counts[osd := counts[osd] + 1];
    }
  }

  /** The inner loop of count_osds_in_entries. */
  method CountEntry(keysBefore: seq<Osd>, countsBefore: map<Osd, nat>, entry: Entry, ghost read: seq<Osd>)
    returns (keys: seq<Osd>, counts: map<Osd, nat>)
    requires keysBefore == Firsts(read) && countsBefore == Tally(read)
    ensures keys == Firsts(read + entry) && counts == Tally(read + entry)
  {
    keys, counts := keysBefore, countsBefore;
    ghost var seen := read;
    var j := 0;
    while j < |entry|
      invariant 0 <= j <= |entry| && seen == read + entry[..j]
      invariant keys == Firsts(seen) && counts == Tally(seen)
    {
      ReadOne(read, entry, j);
      keys, counts := CountOsd(keys, counts, entry[j], seen);
      seen := seen + [entry[j]];
      j := j + 1;
    }
    assert seen == read + entry;
  }

  /** count_osds_in_entries; the dictionary keeps its keys in insertion order. */
  method CountOsds(entries: seq<Entry>) returns (keys: seq<Osd>, counts: map<Osd, nat>)
    ensures keys == Firsts(Flat(entries)) && counts == Tally(Flat(entries))
    ensures forall o <- keys :: o in counts && counts[o] == Occurrences(entries, o)
  {
    keys, counts := [], map[];
    var i := 0;
    while i < |entries|
      invariant 0 <= i <= |entries|
      invariant keys == Firsts(Flat(entries[..i])) && counts == Tally(Flat(entries[..i]))
    {
      assert entries[..i + 1][..i] == entries[..i];
      keys, counts := CountEntry(keys, counts, entries[i], Flat(entries[..i]));
      i := i + 1;
    }
    assert entries[..i] == entries;
    FirstsAre(Flat(entries));
    forall o <- keys ensures o in counts && counts[o] == Occurrences(entries, o) {
      TallyMeaning(Flat(entries), o);
    }
  }

  /** The earliest key with the greatest count. */
  function Top(keys: seq<Osd>, counts: multiset<Osd>): (t: nat)
    requires keys != []
    ensures t < |keys|
  {
    if |keys| == 1 then 0
    else
      var t := Top(keys[..|keys| - 1], counts);
      if counts[keys[|keys| - 1]] > counts[keys[t]] then |keys| - 1 else t
  }

  lemma {:induction false} TopIsEarliest(keys: seq<Osd>, counts: multiset<Osd>)
    requires keys != []
    ensures var t := Top(keys, counts);
            && (forall i | 0 <= i < |keys| :: counts[keys[i]] <= counts[keys[t]])
            && (forall i | 0 <= i < t :: counts[keys[i]] < counts[keys[t]])
  {
    if |keys| > 1 { TopIsEarliest(keys[..|keys| - 1], counts); }
  }

  function TopOsd(entries: seq<Entry>): Osd
    requires Flat(entries) != []
  {
    var keys := Firsts(Flat(entries));
    FirstsAre(Flat(entries));
    assert Flat(entries)[0] in keys;
    keys[Top(keys, multiset(Flat(entries)))]
  }

  /** max over the items of the dictionary, which keeps the first of several maxima. */
  method FindTop(keys: seq<Osd>, counts: map<Osd, nat>) returns (top: Osd)
    requires keys != [] && forall o <- keys :: o in counts
    ensures exists t: nat ::
              && t < |keys| && top == keys[t]
              && (forall i | 0 <= i < |keys| :: counts[keys[i]] <= counts[top])
              && (forall i | 0 <= i < t :: counts[keys[i]] < counts[top])
  {
    top := keys[0];
    ghost var t := 0;
    var n := 1;
    while n < |keys|
      invariant 0 <= t < n <= |keys| && top == keys[t]
      invariant forall i | 0 <= i < n :: counts[keys[i]] <= counts[top]
      invariant forall i | 0 <= i < t :: counts[keys[i]] < counts[top]
    {
      if counts[keys[n]] > counts[top] {
        top := keys[n];
        t := n;
      }
      n := n + 1;
    }
  }

  // ================= the rounds =================

  /** The entries that do not name the OSD. */
  function Without(entries: seq<Entry>, osd: Osd): (rest: seq<Entry>)
    ensures forall e <- rest :: e in entries && osd !in e
  {
    if entries == [] then []
    else
      var rest, last := Without(entries[..|entries| - 1], osd), entries[|entries| - 1];
      if osd in last then rest else rest + [last]
  }

  function Containing(entries: seq<Entry>, osd: Osd): nat {
    if entries == [] then 0
    else Containing(entries[..|entries| - 1], osd) + if osd in entries[|entries| - 1] then 1 else 0
  }

  function NonEmpty(entries: seq<Entry>): nat {
    if entries == [] then 0
    else NonEmpty(entries[..|entries| - 1]) + if entries[|entries| - 1] != [] then 1 else 0
  }

  lemma {:induction false} RoundCounts(entries: seq<Entry>, osd: Osd)
    ensures NonEmpty(entries) == NonEmpty(Without(entries, osd)) + Containing(entries, osd)
    ensures |entries| == |Without(entries, osd)| + Containing(entries, osd)
    ensures Containing(entries, osd) <= Occurrences(entries, osd)
  {
    if entries != [] {
      var front, last := entries[..|entries| - 1], entries[|entries| - 1];
      RoundCounts(front, osd);
      if osd in last { assert multiset(last)[osd] >= 1; }
    }
  }

  lemma {:induction false} RoundsShrink(entries: seq<Entry>, osd: Osd, o: Osd)
    ensures Occurrences(Without(entries, osd), o) <= Occurrences(entries, o)
  {
    if entries != [] {
      var rest, last := Without(entries[..|entries| - 1], osd), entries[|entries| - 1];
      RoundsShrink(entries[..|entries| - 1], osd, o);
      if osd !in last { assert (rest + [last])[..|rest|] == rest; }
    }
  }

  lemma {:induction false} RoundsContainLess(entries: seq<Entry>, osd: Osd, o: Osd)
    ensures Containing(Without(entries, osd), o) <= Containing(entries, o)
  {
    if entries != [] {
      RoundsContainLess(entries[..|entries| - 1], osd, o);
    }
  }

  lemma {:induction false} Contained(entries: seq<Entry>, osd: Osd)
    ensures Containing(entries, osd) > 0 <==> osd in Flat(entries)
  {
    if entries != [] { Contained(entries[..|entries| - 1], osd); }
  }

  lemma TopProgress(entries: seq<Entry>)
    requires Flat(entries) != []
    ensures TopOsd(entries) in Flat(entries) && Occurrences(entries, TopOsd(entries)) > 0
    ensures |Without(entries, TopOsd(entries))| < |entries|
    ensures forall o :: Occurrences(entries, o) <= Occurrences(entries, TopOsd(entries))
  {
    var flat, top := Flat(entries), TopOsd(entries);
    var keys := Firsts(flat);
    FirstsAre(flat);
    assert top in keys;
    TopIsEarliest(keys, multiset(flat));
    Contained(entries, top);
    RoundCounts(entries, top);
    forall o ensures Occurrences(entries, o) <= Occurrences(entries, top) {
      if o in flat {
        var i :| 0 <= i < |keys| && keys[i] == o;
      } else {
        assert multiset(flat)[o] == 0;
      }
    }
  }

  // ---- on their own terms ----

  /** Reading order is the order of the entries, and within them. */
  lemma {:induction false} FlatConcat(a: seq<Entry>, b: seq<Entry>, e: Entry)
    ensures Flat(a + b) == Flat(a) + Flat(b) && Flat([e]) == e
  {
    assert [e][..0] == [] && [] + e == e;
    if b == [] {
      assert a + b == a;
    } else {
      assert (a + b)[..|a + b| - 1] == a + b[..|b| - 1];
      FlatConcat(a, b[..|b| - 1], e);
    }
  }

  /** Leaving out entries keeps the others, in their order. */
  lemma {:induction false} WithoutConcat(a: seq<Entry>, b: seq<Entry>, e: Entry, osd: Osd)
    ensures Without(a + b, osd) == Without(a, osd) + Without(b, osd)
    ensures Without([e], osd) == if osd in e then [] else [e]
  {
    assert [e][..0] == [];
    if b == [] {
      assert a + b == a;
    } else {
      assert (a + b)[..|a + b| - 1] == a + b[..|b| - 1];
      WithoutConcat(a, b[..|b| - 1], e, osd);
    }
  }

  /** One is read before the other is. */
  ghost predicate ReadBefore(s: seq<Osd>, a: Osd, b: Osd) {
    exists p :: 0 <= p < |s| && s[p] == a && forall q | 0 <= q <= p :: s[q] != b
  }

  lemma {:induction false} FirstsInOrder(s: seq<Osd>, i: nat, j: nat)
    requires i < j < |Firsts(s)|
    ensures ReadBefore(s, Firsts(s)[i], Firsts(s)[j])
  {
    var front := s[..|s| - 1];
    if j < |Firsts(front)| {
      FirstsInOrder(front, i, j);
      var p :| 0 <= p < |front| && front[p] == Firsts(front)[i] && forall q | 0 <= q <= p :: front[q] != Firsts(front)[j];
      assert s[p] == front[p] && forall q | 0 <= q <= p :: s[q] == front[q];
    } else {
      FirstsAre(front);
      assert Firsts(front)[i] in front;
      var p :| 0 <= p < |front| && front[p] == Firsts(front)[i];
      assert s[p] == front[p];
      forall q | 0 <= q <= p ensures s[q] != Firsts(s)[j] {
        assert s[q] == front[q] && front[q] in front;
      }
    }
  }

  /** A round finds an OSD named most often and, of several, the one read first. */
  lemma TopIsMostThenFirst(entries: seq<Entry>, o: Osd)
    requires Flat(entries) != [] && o in Flat(entries) && o != TopOsd(entries)
    ensures var top := TopOsd(entries);
            || Occurrences(entries, o) < Occurrences(entries, top)
            || (Occurrences(entries, o) == Occurrences(entries, top) && ReadBefore(Flat(entries), top, o))
  {
    var s := Flat(entries);
    var keys := Firsts(s);
    FirstsAre(s);
    TopIsEarliest(keys, multiset(s));
    var i :| 0 <= i < |keys| && keys[i] == o;
    var t := Top(keys, multiset(s));
    if t < i { FirstsInOrder(s, t, i); }
  }

  /** The OSD a round finds, with its count. */
  function TopRound(entries: seq<Entry>): Option<(Osd, nat)> {
    if Flat(entries) == [] then None else Some((TopOsd(entries), Occurrences(entries, TopOsd(entries))))
  }

  /** The OSDs in the order found, with their counts. */
  function Rounds(entries: seq<Entry>): seq<(Osd, nat)>
    decreases |entries|
  {
    if Flat(entries) == [] then []
    else
      var top := TopOsd(entries);
      TopProgress(entries);
      [(top, Occurrences(entries, top))] + Rounds(Without(entries, top))
  }

  function FindingOf(round: (Osd, nat), hosts: map<Osd, string>, iteration: nat): Finding {
    Finding(round.0, round.1, if round.0 in hosts then hosts[round.0] else "Unknown", iteration)
  }

  function Report(rounds: seq<(Osd, nat)>, hosts: map<Osd, string>, first: nat): seq<Finding> {
    if rounds == [] then [] else [FindingOf(rounds[0], hosts, first)] + Report(rounds[1..], hosts, first + 1)
  }

  lemma TopIsUnique(keys: seq<Osd>, counts: multiset<Osd>, t: nat)
    requires t < |keys|
    requires forall i | 0 <= i < |keys| :: counts[keys[i]] <= counts[keys[t]]
    requires forall i | 0 <= i < t :: counts[keys[i]] < counts[keys[t]]
    ensures Top(keys, counts) == t
  {
    var u := Top(keys, counts);
    assert counts[keys[u]] <= counts[keys[t]] <= counts[keys[u]];
  }

  lemma NoKeys(entries: seq<Entry>)
    ensures Firsts(Flat(entries)) == [] <==> Flat(entries) == []
  {
    FirstsAre(Flat(entries));
    if Flat(entries) != [] { assert Flat(entries)[0] in Firsts(Flat(entries)); }
  }

  /** The two lines that count and take the maximum. */
  method CountAndFindTop(entries: seq<Entry>) returns (top: Option<(Osd, nat)>)
    ensures top == TopRound(entries)
  {
    var keys, counts := CountOsds(entries);
    NoKeys(entries);
    if keys == [] {
      return None;
    }
    assert forall i | 0 <= i < |keys| :: keys[i] in keys;
    var osd := FindTop(keys, counts);
    ghost var t: nat :| t < |keys| && osd == keys[t]
      && (forall i | 0 <= i < |keys| :: counts[keys[i]] <= counts[osd])
      && (forall i | 0 <= i < t :: counts[keys[i]] < counts[osd]);
    TopIsUnique(keys, multiset(Flat(entries)), t);
    top := Some((osd, counts[osd]));
  }

  lemma ReportCons(top: (Osd, nat), rest: seq<(Osd, nat)>, hosts: map<Osd, string>, first: nat)
    ensures Report([top] + rest, hosts, first) == [FindingOf(top, hosts, first)] + Report(rest, hosts, first + 1)
  {
    assert ([top] + rest)[1..] == rest;
  }

  lemma ReportRound(entries: seq<Entry>, hosts: map<Osd, string>, first: nat, found: seq<Finding>)
    requires TopRound(entries).Some?
    ensures var top := TopRound(entries).value;
            && |Without(entries, top.0)| < |entries|
            && found + Report(Rounds(entries), hosts, first)
               == (found + [FindingOf(top, hosts, first)]) + Report(Rounds(Without(entries, top.0)), hosts, first + 1)
  {
    var top := TopRound(entries).value;
    var rest := Rounds(Without(entries, top.0));
    TopProgress(entries);
    assert Rounds(entries) == [top] + rest;
    ReportCons(top, rest, hosts, first);
    Reassociate(found, [FindingOf(top, hosts, first)], Report(rest, hosts, first + 1));
  }

  /** print_results, as the list it collects. */
  method PrintResults(entries: seq<Entry>, hosts: map<Osd, string>) returns (found: seq<Finding>)
    ensures found == Report(Rounds(entries), hosts, 1)
  {
    found := [];
    var remaining := entries;
    var iteration := 1;
    var top := CountAndFindTop(remaining);
    while top.Some?
      invariant top == TopRound(remaining)
      invariant iteration >= 1
      invariant Report(Rounds(entries), hosts, 1) == found + Report(Rounds(remaining), hosts, iteration)
      decreases |remaining|
    {
      var (osd, count) := top.value;
      ReportRound(remaining, hosts, iteration, found);
      var host := if osd in hosts then hosts[osd] else "Unknown";
      found := found + [Finding(osd, count, host, iteration)];
      remaining := Without(remaining, osd);
      iteration := iteration + 1;
      top := CountAndFindTop(remaining);
    }
    assert Report([], hosts, iteration) == [];
  }

  /** One finding for each round: its OSD and count, the host if it is known, and its number. */
  ghost predicate Recorded(found: seq<Finding>, rounds: seq<(Osd, nat)>, hosts: map<Osd, string>, first: nat) {
    && |found| == |rounds|
    && forall i | 0 <= i < |rounds| ::
         && found[i].osd == rounds[i].0 && found[i].count == rounds[i].1 && found[i].iteration == first + i
         && found[i].host == if rounds[i].0 in hosts then hosts[rounds[i].0] else "Unknown"
  }

  lemma {:induction false} ReportIs(rounds: seq<(Osd, nat)>, hosts: map<Osd, string>, first: nat)
    ensures Recorded(Report(rounds, hosts, first), rounds, hosts, first)
  {
    if rounds != [] {
      var rest := Report(rounds[1..], hosts, first + 1);
      ReportIs(rounds[1..], hosts, first + 1);
      RecordedCons(FindingOf(rounds[0], hosts, first), rest, rounds, hosts, first);
    }
  }

  lemma RecordedCons(f: Finding, rest: seq<Finding>, rounds: seq<(Osd, nat)>, hosts: map<Osd, string>, first: nat)
    requires rounds != [] && f == FindingOf(rounds[0], hosts, first) && Recorded(rest, rounds[1..], hosts, first + 1)
    ensures Recorded([f] + rest, rounds, hosts, first)
  {
    forall i | 0 < i < |rounds| ensures ([f] + rest)[i] == rest[i - 1] && rounds[1..][i - 1] == rounds[i] {
    }
  }

  // ================= what the rounds achieve =================

  predicate Hit(entry: Entry, osds: set<Osd>) {
    exists o :: o in entry && o in osds
  }

  /** Every operation with an acting set names one of the OSDs. */
  predicate HittingSet(osds: set<Osd>, entries: seq<Entry>) {
    forall i | 0 <= i < |entries| && entries[i] != [] :: Hit(entries[i], osds)
  }

  function Found(rounds: seq<(Osd, nat)>): set<Osd> {
    set i | 0 <= i < |rounds| :: rounds[i].0
  }

  lemma FoundCons(top: (Osd, nat), rest: seq<(Osd, nat)>)
    ensures Found([top] + rest) == {top.0} + Found(rest)
  {
    var all := [top] + rest;
    assert all[0] == top;
    forall o | o in Found(rest) ensures o in Found(all) {
      var i :| 0 <= i < |rest| && rest[i].0 == o;
      assert all[i + 1].0 == o;
    }
    forall o | o in Found(all) ensures o in {top.0} + Found(rest) {
      var i :| 0 <= i < |all| && all[i].0 == o;
      assert i > 0 ==> rest[i - 1].0 == o;
    }
  }

  lemma {:induction false} KeptOrNamed(entries: seq<Entry>, osd: Osd, i: nat)
    requires i < |entries| && osd !in entries[i]
    ensures entries[i] in Without(entries, osd)
    decreases |entries|
  {
    if i < |entries| - 1 { KeptOrNamed(entries[..|entries| - 1], osd, i); }
  }

  lemma {:induction false} NotLonger(entries: seq<Entry>, i: nat)
    requires i < |entries|
    ensures |entries[i]| <= |Flat(entries)|
    decreases |entries|
  {
    if i < |entries| - 1 { NotLonger(entries[..|entries| - 1], i); }
  }

  /** The OSDs found hit every operation. */
  lemma {:induction false} FoundIsHittingSet(entries: seq<Entry>)
    ensures HittingSet(Found(Rounds(entries)), entries)
    decreases |entries|
  {
    if Flat(entries) == [] {
      forall i | 0 <= i < |entries| ensures entries[i] == [] {
        NotLonger(entries, i);
      }
    } else {
      var top := TopOsd(entries);
      var rest := Without(entries, top);
      TopProgress(entries);
      FoundIsHittingSet(rest);
      FoundCons((top, Occurrences(entries, top)), Rounds(rest));
      forall i | 0 <= i < |entries| && entries[i] != [] ensures Hit(entries[i], Found(Rounds(entries))) {
        if top !in entries[i] {
          KeptOrNamed(entries, top, i);
          var j :| 0 <= j < |rest| && rest[j] == entries[i];
          assert Hit(rest[j], Found(Rounds(rest)));
        }
      }
    }
  }

  lemma {:induction false} FoundStillThere(entries: seq<Entry>)
    ensures forall o <- Found(Rounds(entries)) :: o in Flat(entries)
    decreases |entries|
  {
    if Flat(entries) != [] {
      var top := TopOsd(entries);
      var rest := Without(entries, top);
      TopProgress(entries);
      FoundStillThere(rest);
      FoundCons((top, Occurrences(entries, top)), Rounds(rest));
      forall o | o in Flat(rest) ensures o in Flat(entries) {
        RoundsShrink(entries, top, o);
        assert Occurrences(rest, o) > 0;
      }
    }
  }

  lemma {:induction false} Gone(entries: seq<Entry>, osd: Osd)
    ensures osd !in Flat(Without(entries, osd))
  {
    if entries != [] {
      var rest, last := Without(entries[..|entries| - 1], osd), entries[|entries| - 1];
      Gone(entries[..|entries| - 1], osd);
      assert (rest + [last])[..|rest|] == rest;
    }
  }

  /** The greatest count. */
  function Best(entries: seq<Entry>): nat {
    if Flat(entries) == [] then 0 else Occurrences(entries, TopOsd(entries))
  }

  lemma BestShrinks(entries: seq<Entry>, osd: Osd)
    ensures Best(Without(entries, osd)) <= Best(entries)
  {
    var rest := Without(entries, osd);
    if Flat(rest) != [] {
      var o := TopOsd(rest);
      TopProgress(rest);
      RoundsShrink(entries, osd, o);
      assert o in Flat(entries);
      TopProgress(entries);
    }
  }

  predicate Descending(rounds: seq<(Osd, nat)>) {
    forall i, j | 0 <= i < j < |rounds| :: rounds[i].0 != rounds[j].0 && rounds[i].1 >= rounds[j].1
  }

  lemma DescendCons(top: (Osd, nat), rest: seq<(Osd, nat)>)
    requires Descending(rest) && forall i | 0 <= i < |rest| :: rest[i].0 != top.0 && rest[i].1 <= top.1
    ensures Descending([top] + rest)
  {
  }

  /** No OSD is found twice, and the counts never grow. */
  lemma {:induction false} RoundsDescend(entries: seq<Entry>)
    ensures Descending(Rounds(entries))
    ensures forall i | 0 <= i < |Rounds(entries)| :: 0 < Rounds(entries)[i].1 <= Best(entries)
    decreases |entries|
  {
    if Flat(entries) != [] {
      var top := TopOsd(entries);
      var rest := Without(entries, top);
      var s := Rounds(rest);
      TopProgress(entries);
      RoundsDescend(rest);
      BestShrinks(entries, top);
      forall i | 0 <= i < |s| ensures s[i].0 != top {
        Gone(entries, top);
        FoundStillThere(rest);
        assert s[i].0 in Found(s);
      }
      DescendCons((top, Best(entries)), s);
    }
  }

  // ================= how many operations they explain =================

  ghost predicate NoRepeat(entry: Entry) {
    forall o :: multiset(entry)[o] <= 1
  }

  ghost predicate NoRepeats(entries: seq<Entry>) {
    forall i | 0 <= i < |entries| :: NoRepeat(entries[i])
  }

  lemma {:induction false} CountsAreEntries(entries: seq<Entry>, osd: Osd)
    requires NoRepeats(entries)
    ensures Containing(entries, osd) == Occurrences(entries, osd)
    ensures NoRepeats(Without(entries, osd))
  {
    if entries != [] {
      var front, last := entries[..|entries| - 1], entries[|entries| - 1];
      assert forall i | 0 <= i < |front| :: front[i] == entries[i];
      CountsAreEntries(front, osd);
      assert NoRepeat(last);
      assert osd in last <==> multiset(last)[osd] == 1;
    }
  }

  function Total(rounds: seq<(Osd, nat)>): nat {
    if rounds == [] then 0 else rounds[0].1 + Total(rounds[1..])
  }

  lemma {:induction false} NothingLeft(entries: seq<Entry>)
    requires Flat(entries) == []
    ensures NonEmpty(entries) == 0
  {
    if entries != [] { NothingLeft(entries[..|entries| - 1]); }
  }

  /** The counts account for every operation that has an acting set, and for nothing twice when no
      acting set repeats an OSD. */
  lemma {:induction false} CountsCoverEntries(entries: seq<Entry>)
    ensures NonEmpty(entries) <= Total(Rounds(entries))
    ensures NoRepeats(entries) ==> NonEmpty(entries) == Total(Rounds(entries))
    decreases |entries|
  {
    if Flat(entries) == [] {
      NothingLeft(entries);
    } else {
      var top := TopOsd(entries);
      TopProgress(entries);
      RoundCounts(entries, top);
      if NoRepeats(entries) { CountsAreEntries(entries, top); }
      CountsCoverEntries(Without(entries, top));
    }
  }

  // ================= against any hitting set =================

  lemma {:induction false} WithoutHits(entries: seq<Entry>, osds: set<Osd>, osd: Osd)
    requires HittingSet(osds, entries)
    ensures HittingSet(osds - {osd}, Without(entries, osd))
  {
    var rest := Without(entries, osd);
    forall i | 0 <= i < |rest| && rest[i] != [] ensures Hit(rest[i], osds - {osd}) {
      assert rest[i] in rest;
      var j :| 0 <= j < |entries| && entries[j] == rest[i];
      var o :| o in entries[j] && o in osds;
      assert o in rest[i] && o in osds - {osd};
    }
  }

  lemma {:induction false} HittingSetBound(entries: seq<Entry>, osds: set<Osd>, c: nat)
    requires HittingSet(osds, entries) && forall o <- osds :: Containing(entries, o) <= c
    ensures NonEmpty(entries) <= |osds| * c
    decreases |osds|
  {
    if osds == {} {
      if NonEmpty(entries) > 0 {
        var i := SomeNonEmpty(entries);
        assert false;
      }
    } else {
      var o :| o in osds;
      RoundCounts(entries, o);
      WithoutHits(entries, osds, o);
      forall p <- osds - {o} ensures Containing(Without(entries, o), p) <= c {
        RoundsContainLess(entries, o, p);
      }
      HittingSetBound(Without(entries, o), osds - {o}, c);
      assert (|osds| - 1) * c + c == |osds| * c;
    }
  }

  lemma {:induction false} SomeNonEmpty(entries: seq<Entry>) returns (i: nat)
    requires NonEmpty(entries) > 0
    ensures i < |entries| && entries[i] != []
  {
    i := |entries| - 1;
    if entries[i] == [] { i := SomeNonEmpty(entries[..i]); }
  }

  /** A round removes at least the share of any hitting set: its count times the size of the set is
      at least what is left. */
  lemma TopShare(entries: seq<Entry>, osds: set<Osd>)
    requires HittingSet(osds, entries) && Flat(entries) != []
    ensures NonEmpty(entries) <= |osds| * Occurrences(entries, TopOsd(entries))
  {
    TopProgress(entries);
    forall o <- osds ensures Containing(entries, o) <= Occurrences(entries, TopOsd(entries)) {
      RoundCounts(entries, o);
    }
    HittingSetBound(entries, osds, Occurrences(entries, TopOsd(entries)));
  }

  /** What remains after t rounds. */
  function After(entries: seq<Entry>, t: nat): seq<Entry>
    decreases t
  {
    if t == 0 || Flat(entries) == [] then entries else After(Without(entries, TopOsd(entries)), t - 1)
  }

  lemma RoundsUnfold(entries: seq<Entry>)
    requires Flat(entries) != []
    ensures Rounds(entries)
            == [(TopOsd(entries), Occurrences(entries, TopOsd(entries)))] + Rounds(Without(entries, TopOsd(entries)))
  {
    TopProgress(entries);
  }

  lemma AfterUnfold(entries: seq<Entry>, t: nat)
    ensures t == 0 || Flat(entries) == [] ==> After(entries, t) == entries
    ensures t > 0 && Flat(entries) != [] ==> After(entries, t) == After(Without(entries, TopOsd(entries)), t - 1)
  {
  }

  lemma DropShifts<T>(all: seq<T>, head: T, tail: seq<T>, n: nat, left: seq<T>)
    requires n > 0 && all == [head] + tail && left == tail[Min(n - 1, |tail|)..]
    ensures left == all[Min(n, |all|)..]
  {
  }

  /** The rounds from t on are those of what remains after t rounds. */
  lemma {:induction false} AfterIsSuffix(entries: seq<Entry>, t: nat)
    ensures Rounds(After(entries, t)) == Rounds(entries)[Min(t, |Rounds(entries)|)..]
    decreases t
  {
    AfterUnfold(entries, t);
    if t > 0 && Flat(entries) != [] {
      var top := TopOsd(entries);
      var rest := Without(entries, top);
      var left := Rounds(After(rest, t - 1));
      assert left == Rounds(rest)[Min(t - 1, |Rounds(rest)|)..] by { AfterIsSuffix(rest, t - 1); }
      assert Rounds(entries) == [(top, Occurrences(entries, top))] + Rounds(rest) by { RoundsUnfold(entries); }
      DropShifts(Rounds(entries), (top, Occurrences(entries, top)), Rounds(rest), t, left);
    }
  }

  function Power(b: nat, e: nat): nat {
    if e == 0 then 1 else b * Power(b, e - 1)
  }

  lemma Decay(k: nat, r: nat, next: nat, c: nat)
    requires r == next + c && r <= k * c
    ensures k > 0 ==> k * next <= (k - 1) * r
  {
    if k > 0 {
      assert k * next == k * r - k * c;
      assert (k - 1) * r == k * r - r;
    }
  }

  lemma Chain(p: nat, q: nat, k: nat, left: nat, next: nat, r: nat)
    requires p * left <= q * next && k > 0 && k * next <= (k - 1) * r
    ensures (k * p) * left <= ((k - 1) * q) * r
  {
    assert (k * p) * left == k * (p * left) <= k * (q * next) by {
      if p * left < q * next { assert k * (q * next - p * left) >= 0; }
    }
    assert k * (q * next) == q * (k * next);
    assert q * (k * next) <= q * ((k - 1) * r) by { assert q * ((k - 1) * r - k * next) >= 0; }
    assert q * ((k - 1) * r) == ((k - 1) * q) * r;
  }

  /** At most (1 - 1/k)^t of r are left. */
  predicate Decayed(k: nat, t: nat, left: nat, r: nat)
    requires k > 0
  {
    Power(k, t) * left <= Power(k - 1, t) * r
  }

  lemma DecayStart(k: nat, t: nat, r: nat)
    requires k > 0 && (t == 0 || r == 0)
    ensures Decayed(k, t, r, r)
  {
  }

  lemma DecayStep(k: nat, t: nat, left: nat, next: nat, r: nat, c: nat)
    requires k > 0 && r == next + c && r <= k * c && Decayed(k, t, left, next)
    ensures Decayed(k, t + 1, left, r)
  {
    Decay(k, r, next, c);
    Chain(Power(k, t), Power(k - 1, t), k, left, next, r);
  }

  lemma GreedyRound(entries: seq<Entry>, osds: set<Osd>)
    requires NoRepeats(entries) && HittingSet(osds, entries) && Flat(entries) != []
    ensures var rest := Without(entries, TopOsd(entries));
            && NoRepeats(rest) && HittingSet(osds, rest)
            && NonEmpty(entries) == NonEmpty(rest) + Occurrences(entries, TopOsd(entries))
            && NonEmpty(entries) <= |osds| * Occurrences(entries, TopOsd(entries))
  {
    var top := TopOsd(entries);
    RoundCounts(entries, top);
    CountsAreEntries(entries, top);
    TopShare(entries, osds);
    WithoutHits(entries, osds, top);
    Weaken(Without(entries, top), osds - {top}, osds);
  }

  /** If k OSDs could explain every operation, then after t rounds at most (1 - 1/k)^t of the
      operations are left. */
  lemma {:induction false} GreedyDecay(entries: seq<Entry>, osds: set<Osd>, t: nat)
    requires NoRepeats(entries) && HittingSet(osds, entries) && osds != {}
    ensures Decayed(|osds|, t, NonEmpty(After(entries, t)), NonEmpty(entries))
    decreases t
  {
    if Flat(entries) == [] {
      NothingLeft(entries);
      DecayStart(|osds|, t, 0);
    } else if t == 0 {
      DecayStart(|osds|, 0, NonEmpty(entries));
    } else {
      var rest := Without(entries, TopOsd(entries));
      var left, c := NonEmpty(After(rest, t - 1)), Occurrences(entries, TopOsd(entries));
      assert NonEmpty(After(entries, t)) == left by { AfterUnfold(entries, t); }
      GreedyRound(entries, osds);
      assert Decayed(|osds|, t - 1, left, NonEmpty(rest)) by { GreedyDecay(rest, osds, t - 1); }
      DecayStep(|osds|, t - 1, left, NonEmpty(rest), NonEmpty(entries), c);
    }
  }

  lemma Weaken(entries: seq<Entry>, few: set<Osd>, many: set<Osd>)
    requires HittingSet(few, entries) && few <= many
    ensures HittingSet(many, entries)
  {
    forall i | 0 <= i < |entries| && entries[i] != [] ensures Hit(entries[i], many) {
      assert Hit(entries[i], few);
    }
  }
}
