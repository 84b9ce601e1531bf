/** When skipping a fact because a collapsed root dominates it agrees with the propagated statuses. */
module Pruning {
  import opened Facts
  import opened Semantics
  import opened Cache
  import opened Dominators

  /** Every derived fact has one justification set, and all its dependencies are positive. */
  ghost predicate Conjunctive(w: World) {
    forall f | f in w.facts && !w.facts[f].isRoot ::
      |w.facts[f].tokens| == 1 && forall r | r in SetRefs(w.facts[f], 0) :: !r.negated
  }

  /** In a conjunction that holds, every parent is at or above the threshold. */
  lemma HeldParents(w: World, derived: map<FactId, Status>, sets: Sets, children: Children, stamp: map<SetId, int>,
                    f: FactId, p: FactId)
    requires Ranked(w) && Shape(w, sets, children) && Coherent(w, derived, sets, stamp) && Conjunctive(w)
    requires f in w.facts && !w.facts[f].isRoot && derived[f] >= THRESHOLD
    requires SetId(f, 0) in sets && sets[SetId(f, 0)].Mentions(p)
    ensures p in w.facts && p in derived && derived[p] >= THRESHOLD && w.rank[p] < w.rank[f]
  {
    var j := SetId(f, 0);
    var r := ConjunctRef(w, sets, children, f, p);
    assert derived[p] == Resolved(w, sets, p) && SetCurrent(w, derived, stamp, j, sets[j]);
    assert !Stale(w, derived, p) && derived.Keys == w.facts.Keys;
    StandsByItsSet(w, derived, sets, f);
    hide Ranked, Shape, Settled, Refreshed, Conjunctive;
    HeldParent(w, derived, ReadAt(stamp, j), j, sets[j], r);
  }

  /** A parent in the only set of a conjunction is named there without negation. */
  lemma ConjunctRef(w: World, sets: Sets, children: Children, f: FactId, p: FactId) returns (r: DepRef)
    requires Ranked(w) && Shape(w, sets, children) && Conjunctive(w) && f in w.facts && !w.facts[f].isRoot
    requires SetId(f, 0) in sets && sets[SetId(f, 0)].Mentions(p)
    ensures p in w.facts && w.rank[p] < w.rank[f] && r.id == p && !r.negated
    ensures var js := sets[SetId(f, 0)]; r in js.deps.Refs() && js.target == |js.deps.Refs()|
  {
    var j := SetId(f, 0);
    ParentRank(w, sets, children, p, j);
    assert SetShape(w.facts[f], j, sets[j]);
    RefMembers(sets[j]);
    RefsMembers(sets[j].deps);
    hide Ranked, Shape;
    r :| r in sets[j].deps.Refs() && r.id == p;
    assert r in SetRefs(w.facts[f], 0);
  }

  lemma StandsByItsSet(w: World, derived: map<FactId, Status>, sets: Sets, f: FactId)
    requires f in w.facts && !w.facts[f].isRoot && |w.facts[f].tokens| == 1 && SetId(f, 0) in sets
    requires f in derived && derived[f] == Resolved(w, sets, f) && derived[f] >= THRESHOLD
    ensures sets[SetId(f, 0)].confidence >= THRESHOLD
  {
    var confs := CachedConfidences(w, sets, f);
    BestIsLargest(confs, |confs|);
  }

  lemma HeldParent(w: World, derived: map<FactId, Status>, now: int, j: SetId, js: JSet, r: DepRef)
    requires js == Refreshed(w, derived, now, j, js) && js.confidence >= THRESHOLD
    requires js.target == |js.deps.Refs()| && r in js.deps.Refs() && !r.negated
    requires derived.Keys == w.facts.Keys && r.id in w.facts && !Stale(w, derived, r.id)
    ensures derived[r.id] >= THRESHOLD
  {
    var refs, st := js.deps.Refs(), Readings(w, derived, now);
    CountIsAll(w, st, now, j.fact, refs, |refs|);
    var i :| 0 <= i < |refs| && refs[i] == r;
    assert Holds(w, st, now, j.fact, refs[i]);
  }

  /** A dominator of a conjunction is one of its ancestors, so it is at or above the threshold too. */
  lemma {:induction false} DominatorsHold(w: World, derived: map<FactId, Status>, sets: Sets, children: Children,
                                          stamp: map<SetId, int>, idom: IDom, setIDom: map<SetId, FactId>, u: FactId,
                                          f: FactId)
    requires Ranked(w) && Shape(w, sets, children) && Coherent(w, derived, sets, stamp) && Conjunctive(w)
    requires DominatorsRight(w.facts, w.rank, sets, idom, setIDom)
    requires f in w.facts && derived[f] >= THRESHOLD && OnPath(idom, w.rank, u, f)
    ensures u in derived && derived[u] >= THRESHOLD
    decreases w.rank[f]
  {
    if u != f {
      var p := DominatorAbove(w, sets, children, idom, setIDom, u, f);
      HeldParents(w, derived, sets, children, stamp, f, p);
      DominatorsHold(w, derived, sets, children, stamp, idom, setIDom, u, p);
    }
  }

  /** A proper dominator of f already dominates, or is, one of f's parents. */
  lemma DominatorAbove(w: World, sets: Sets, children: Children, idom: IDom, setIDom: map<SetId, FactId>, u: FactId,
                       f: FactId)
    returns (p: FactId)
    requires Ranked(w) && Shape(w, sets, children) && Conjunctive(w)
    requires DominatorsRight(w.facts, w.rank, sets, idom, setIDom)
    requires f in w.facts && OnPath(idom, w.rank, u, f) && u != f
    ensures !w.facts[f].isRoot && SetId(f, 0) in sets && sets[SetId(f, 0)].Mentions(p) && OnPath(idom, w.rank, u, p)
  {
    var rank := w.rank;
    var j: SetId := SetId(f, 0);
    assert f in idom && OnPath(idom, rank, u, idom[f]);
    var d := FactFromSet(w, sets, children, idom, setIDom, f);
    assert SetRight(idom, setIDom, rank, sets, j);
    hide Ranked, Shape, Conjunctive, DominatorsRight, FactRight, OnPath, Forest;
    p := FoldOnSomePath(idom, rank, Somes(sets[j].deps.all));
    var k :| 0 <= k < |sets[j].deps.all| && Somes(sets[j].deps.all)[k] == Some(p);
    assert p in sets[j].deps.all && p in multiset(sets[j].deps.all);
    OnPathTransitive(idom, rank, u, idom[f], d);
    OnPathTransitive(idom, rank, u, d, p);
  }

  /** On a conjunctive graph a fact's dominator comes from its only set. */
  lemma FactFromSet(w: World, sets: Sets, children: Children, idom: IDom, setIDom: map<SetId, FactId>, f: FactId)
    returns (d: FactId)
    requires Ranked(w) && Shape(w, sets, children) && Conjunctive(w)
    requires DominatorsRight(w.facts, w.rank, sets, idom, setIDom) && f in w.facts && f in idom
    ensures var j: SetId := SetId(f, 0);
      j in sets && !w.facts[f].isRoot && Lookup(setIDom, j) == Some(d) && OnPath(idom, w.rank, idom[f], d) &&
      multiset(sets[j].deps.all) == multiset(sets[j].deps.positive) + multiset(sets[j].deps.negative)
  {
    var rank := w.rank;
    assert FactRight(idom, setIDom, rank, w.facts, sets, f);
    var js :| Incoming(sets, f, js) && Lookup(idom, f) == FoldLca(idom, rank, Doms(setIDom, js));
    d := FoldOnSomePath(idom, rank, Doms(setIDom, js));
    var i :| 0 <= i < |js| && Doms(setIDom, js)[i] == Some(d);
    var j: SetId := js[i];
    assert j in js && IsSetId(w, j) && SetShape(w.facts[j.fact], j, sets[j]);
    assert j == SetId(f, 0);
  }
}
