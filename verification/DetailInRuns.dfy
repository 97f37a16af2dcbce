/** The printed op lists of ops in a run: does what a list shows and what it omits make up all? */
module DetailInRuns {
  import opened Words
  import opened OsdTypes
  import opened OsdSpec
  import opened OsdRuns
  import opened OsdDetail
  import OsdLatency
  import DetailText

  /** The list userspace prints for a record. */
  function ListOf(d: Detail, transaction: bool): seq<DetailText.Token> {
    DetailText.Listing(Shown(d), OsdLatency.TakenCalls(d), transaction, d.total, d.unavailable)
  }

  /** Ops shown and ops left out. */
  function Accounted(d: Detail, transaction: bool): nat {
    DetailText.Shown(ListOf(d, transaction)) + DetailText.Omitted(ListOf(d, transaction))
  }

  lemma {:induction false} FollowedIsFewer(ps: seq<Txn>)
    ensures |FollowedOps(ps)| <= |Opcodes(ps)|
  {
    if ps != [] { FollowedIsFewer(ps[..|ps| - 1]); }
  }

  lemma AccountedIff(d: Detail, transaction: bool)
    requires !d.unavailable
    ensures Accounted(d, transaction) == d.total <==> |Shown(d)| <= d.total
  {
    DetailText.ListingAddsUpIff(Shown(d), OsdLatency.TakenCalls(d), transaction, d.total);
  }

  lemma ReplicaAccounted(d: Detail, followed: nat, all: nat)
    requires !d.unavailable && |Shown(d)| == Min(MAX_DETAIL_OPS, followed) && d.total == Low32(all)
    requires followed <= all < TWO32
    ensures Accounted(d, true) == all
  {
    assert d.total == all;
    AccountedIff(d, true);
  }

  /** In every run, the list of a replica op accounts for all its transactions' ops, as long as these
      are fewer than 2^32 and none came in several buffers. */
  lemma ReplicaListAddsUp(opSize: U32, tr: Trace, k: OpKey)
    requires ReplicaOp(opSize, tr, k)
    requires var ps := Transactions(Life(opSize, tr, k).value);
             |Opcodes(ps)| < TWO32 && forall i | 0 <= i < |ps| :: !MultiBuffer(ps[i])
    ensures Accounted(Run(opSize, tr).ops[k].detail, true) == |Opcodes(Transactions(Life(opSize, tr, k).value))|
  {
    ReplicaListInRun(opSize, tr, k);
    var ps := Transactions(Life(opSize, tr, k).value);
    FollowedIsFewer(ps);
    ReplicaAccounted(Run(opSize, tr).ops[k].detail, |FollowedOps(ps)|, |Opcodes(ps)|);
  }

  lemma ClientAccounted(d: Detail, before: nat, total: U32)
    requires !d.unavailable && d.total == total && d.captured == before + Min(MAX_DETAIL_OPS, total)
    ensures Accounted(d, false) == total <==> before == 0 || total >= MAX_DETAIL_OPS
  {
    AccountedIff(d, false);
  }

  /** In every run, the list of a client op accounts for exactly the ops of its latest vector if and
      only if no vector before wrote an opcode or the latest fills all slots. */
  lemma ClientListAddsUpIff(opSize: U32, tr: Trace, k: OpKey)
    requires ClientOp(opSize, tr, k) && Written(Vectors(opSize, Life(opSize, tr, k).value)) < TWO32
    ensures var vs := Vectors(opSize, Life(opSize, tr, k).value);
            Accounted(Run(opSize, tr).ops[k].detail, false) == vs[|vs| - 1].total
            <==> Written(vs[..|vs| - 1]) == 0 || vs[|vs| - 1].total >= MAX_DETAIL_OPS
  {
    var vs := Vectors(opSize, Life(opSize, tr, k).value);
    ClientListInRun(opSize, tr, k);
    ClientAccounted(Run(opSize, tr).ops[k].detail, Written(vs[..|vs| - 1]), vs[|vs| - 1].total);
  }
}
