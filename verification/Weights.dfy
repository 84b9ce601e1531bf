/** The measure that shows propagation ends although facts are queued again and again. */
module Weights {
  import opened Facts
  import opened Semantics
  import opened Cache

  ghost function SumOf(m: map<SetId, nat>): nat {
    if m == map[] then 0
    else
      var k :| k in m;
      m[k] + SumOf(m - {k})
  }

  lemma {:induction false} SumRemove(m: map<SetId, nat>, k: SetId)
    requires k in m
    ensures SumOf(m) == m[k] + SumOf(m - {k})
    decreases |m|
  {
    var k0 :| k0 in m && SumOf(m) == m[k0] + SumOf(m - {k0});
    if k0 != k {
      SumRemove(m - {k0}, k);
      SumRemove(m - {k}, k0);
      assert m - {k0} - {k} == m - {k} - {k0};
    }
  }

  /** Every set in the index belongs to a fact ranked above the parent it is indexed under. */
  ghost predicate IndexRanked(children: Children, rank: map<FactId, nat>, top: nat) {
    (forall f | f in rank :: rank[f] < top) &&
    (forall p, j | j in Kids(children, p) :: p in rank && j.fact in rank && rank[p] < rank[j.fact])
  }

  /** One more than the weight of every set that depends on f. */
  ghost function Weight(children: Children, rank: map<FactId, nat>, top: nat, f: FactId): nat
    requires IndexRanked(children, rank, top)
    decreases if f in rank then top - rank[f] else top + 1, 1
  {
    1 + SumOf(KidWeights(children, rank, top, f, Kids(children, f)))
  }

  ghost function KidWeights(children: Children, rank: map<FactId, nat>, top: nat, f: FactId,
                            kids: set<SetId>): map<SetId, nat>
    requires IndexRanked(children, rank, top) && kids <= Kids(children, f)
    decreases if f in rank then top - rank[f] else top + 1, 0
  {
    map j | j in kids :: Weight(children, rank, top, j.fact)
  }

  /** Visiting one of the remaining children takes exactly its weight off the sum. */
  lemma KidVisited(children: Children, rank: map<FactId, nat>, top: nat, f: FactId, kids: set<SetId>, j: SetId)
    requires IndexRanked(children, rank, top) && kids <= Kids(children, f) && j in kids
    ensures SumOf(KidWeights(children, rank, top, f, kids)) ==
            Weight(children, rank, top, j.fact) + SumOf(KidWeights(children, rank, top, f, kids - {j}))
  {
    var m := KidWeights(children, rank, top, f, kids);
    SumRemove(m, j);
    assert m - {j} == KidWeights(children, rank, top, f, kids - {j});
  }

  ghost function QueueWeight(children: Children, rank: map<FactId, nat>, top: nat, queue: seq<FactId>): nat
    requires IndexRanked(children, rank, top)
  {
    if queue == [] then 0
    else Weight(children, rank, top, queue[0]) + QueueWeight(children, rank, top, queue[1..])
  }

  lemma {:induction false} QueueWeightAppend(children: Children, rank: map<FactId, nat>, top: nat,
                                             a: seq<FactId>, b: seq<FactId>)
    requires IndexRanked(children, rank, top)
    ensures QueueWeight(children, rank, top, a + b) == QueueWeight(children, rank, top, a) + QueueWeight(children, rank,
        top, b)
    decreases |a|
  {
    if a == [] {
      assert a + b == b;
    } else {
      QueueWeightAppend(children, rank, top, a[1..], b);
      assert (a + b)[1..] == a[1..] + b;
    }
  }

  /** Replacing the head of the queue by at most one visit per dependent set makes the queue lighter. */
  lemma PopIsLighter(children: Children, rank: map<FactId, nat>, top: nat, queue: seq<FactId>, added: seq<FactId>)
    requires IndexRanked(children, rank, top) && queue != []
    requires QueueWeight(children, rank, top, added) <=
             SumOf(KidWeights(children, rank, top, queue[0], Kids(children, queue[0])))
    ensures QueueWeight(children, rank, top, queue[1..] + added) < QueueWeight(children, rank, top, queue)
  {
    QueueWeightAppend(children, rank, top, queue[1..], added);
  }
}
