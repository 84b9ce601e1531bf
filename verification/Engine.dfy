/** The truth-maintenance engine: facts asserted by callers, and a cache of their statuses that every
    mutation repairs with a work queue. */
module Engines {
  import opened Facts
  import opened Strings
  import opened Semantics
  import opened Cache
  import opened Weights
  import Cycles
  import opened Dominators
  import opened Pruning
  import opened Digraph

  datatype AssertResult =
    | Asserted | AlreadyPresent
    | CapExceeded | Conflict | NoJustification | EmptySet | BadDependency | UnknownParent(id: FactId)
    | CycleRejected(path: seq<FactId>)

  datatype Outcome = Done | NotFound | NotRoot | BadStatus

  /** What re-asserting a fact compares. */
  ghost predicate SameContent(a: Fact, b: Fact) {
    a.isRoot == b.isRoot && a.manual == b.manual && a.payload == b.payload && a.tokens == b.tokens
  }

  ghost predicate GoodTokens(facts: map<FactId, Fact>, tokens: seq<string>) {
    forall raw | raw in tokens ::
      ParseDependencyRef(raw).Success? && ParseDependencyRef(raw).value.id in facts
  }

  /** What the engine demands of a new fact. */
  ghost predicate Assertable(facts: map<FactId, Fact>, fact: Fact) {
    (fact.isRoot || fact.tokens != []) &&
    forall i | 0 <= i < |fact.tokens| :: fact.tokens[i] != [] && GoodTokens(facts, fact.tokens[i])
  }

  /** A fact that comes without a time gets that of its assertion. */
  ghost function Timed(fact: Fact, now: int): Fact {
    if fact.assertedAt == 0 then fact.(assertedAt := now) else fact
  }

  lemma TimedIs(fact: Fact, now: int, timed: Fact)
    requires timed == if fact.assertedAt == 0 then fact.(assertedAt := now) else fact
    ensures timed == Timed(fact, now)
  {}

  ghost function CollapsedOf(facts: map<FactId, Fact>): set<FactId> {
    set f | f in facts && facts[f].isRoot && facts[f].manual < THRESHOLD
  }

  /** The parts of the engine's state fit together, whatever the statuses are. */
  ghost predicate WellBuilt(w: World, derived: map<FactId, Status>, sets: Sets, children: Children,
                            stamp: map<SetId, int>, clock: int, collapsed: set<FactId>)
  {
    Ranked(w) && Shape(w, sets, children) && IndexRanked(children, w.rank, |w.facts|) &&
    stamp.Keys == sets.Keys && (forall j | j in stamp :: stamp[j] <= clock) &&
    derived.Keys == w.facts.Keys && w.retracted.Keys <= w.facts.Keys && collapsed == CollapsedOf(w.facts) &&
    |w.facts| <= MAX_FACTS
  }

  lemma RefreshKeepsShape(w: World, derived: map<FactId, Status>, now: int, kids: set<SetId>, sets: Sets,
                          children: Children, stamp: map<SetId, int>, sets': Sets, stamp': map<SetId, int>)
    requires Shape(w, sets, children) && RefreshedChildren(w, derived, now, kids, sets, stamp, sets', stamp')
    ensures Shape(w, sets', children)
  {
    hide Shape, Count, Floor, Readings;
    ShapeKept(w, sets, sets', children);
  }

  lemma RefreshKeepsStamps(w: World, derived: map<FactId, Status>, now: int, kids: set<SetId>, sets: Sets,
                           stamp: map<SetId, int>, sets': Sets, stamp': map<SetId, int>)
    requires RefreshedChildren(w, derived, now, kids, sets, stamp, sets', stamp')
    requires stamp.Keys == sets.Keys && stamp'.Keys == stamp.Keys + kids && forall j | j in stamp :: stamp[j] <= now
    ensures stamp'.Keys == sets'.Keys && forall j | j in stamp' :: stamp'[j] <= now
  {
    hide Refreshed;
    forall j | j in stamp' ensures stamp'[j] <= now {
      assert ReadAt(stamp', j) == stamp'[j];
      assert j in sets;
    }
  }

  lemma RefreshKeepsBuilt(w: World, derived: map<FactId, Status>, sets: Sets, children: Children,
                          stamp: map<SetId, int>, clock: int, collapsed: set<FactId>, kids: set<SetId>, sets': Sets,
                          stamp': map<SetId, int>)
    requires WellBuilt(w, derived, sets, children, stamp, clock, collapsed)
    requires RefreshedChildren(w, derived, clock, kids, sets, stamp, sets', stamp')
    requires stamp'.Keys == stamp.Keys + kids
    ensures WellBuilt(w, derived, sets', children, stamp', clock, collapsed)
  {
    hide Ranked, Shape, IndexRanked, RefreshedChildren;
    RefreshKeepsShape(w, derived, clock, kids, sets, children, stamp, sets', stamp');
    RefreshKeepsStamps(w, derived, clock, kids, sets, stamp, sets', stamp');
  }

  lemma RefreshStarts(w: World, derived: map<FactId, Status>, now: int, sets: Sets, stamp: map<SetId, int>)
    ensures RefreshedChildren(w, derived, now, {}, sets, stamp, sets, stamp)
  {}

  /** Refreshing one more set. */
  lemma RefreshContinues(w: World, derived: map<FactId, Status>, now: int, done: set<SetId>, sets: Sets,
                         stamp: map<SetId, int>, sets1: Sets, stamp1: map<SetId, int>, j: SetId)
    requires RefreshedChildren(w, derived, now, done, sets, stamp, sets1, stamp1) && j in sets && j !in done
    ensures RefreshedChildren(w, derived, now, done + {j}, sets, stamp,
                              sets1[j := Refreshed(w, derived, now, j, sets1[j])], stamp1[j := now])
    ensures sets1[j] == sets[j] && sets1.Keys == sets.Keys
  {
    hide Refreshed;
    assert j in sets1 && sets1[j] == sets[j];
  }

  /** The children of p were recomputed, and the queue names every fact one of whose sets moved. */
  ghost predicate Recomputed(w: World, derived: map<FactId, Status>, now: int, children: Children, p: FactId,
                             sets: Sets, stamp: map<SetId, int>, sets': Sets, stamp': map<SetId, int>,
                             queue: seq<FactId>)
  {
    RefreshedChildren(w, derived, now, Kids(children, p), sets, stamp, sets', stamp') &&
    (forall j | j in Kids(children, p) && sets'[j].confidence != sets[j].confidence :: j.fact in queue) &&
    Affordable(w, children, p, queue)
  }

  /** Visiting f may queue what its dependents weigh together. */
  ghost predicate Affordable(w: World, children: Children, f: FactId, more: seq<FactId>) {
    IndexRanked(children, w.rank, |w.facts|) &&
    QueueWeight(children, w.rank, |w.facts|, more) <=
      SumOf(KidWeights(children, w.rank, |w.facts|, f, Kids(children, f)))
  }

  ghost function Heft(w: World, children: Children, queue: seq<FactId>): nat {
    if IndexRanked(children, w.rank, |w.facts|) then QueueWeight(children, w.rank, |w.facts|, queue) else 0
  }

  lemma HeftFalls(w: World, children: Children, queue: seq<FactId>, more: seq<FactId>)
    requires queue != [] && Affordable(w, children, queue[0], more)
    ensures Heft(w, children, queue[1..] + more) < Heft(w, children, queue)
  {
    PopIsLighter(children, w.rank, |w.facts|, queue, more);
  }

  lemma OpenAfterPop(queue: seq<FactId>, more: seq<FactId>, pending: set<FactId>)
    requires queue != []
    ensures Elements(queue) + pending <= Elements(queue[1..]) + pending + {queue[0]}
    ensures Elements(queue[1..] + more) + pending == Elements(queue[1..]) + pending + Elements(more)
  {}

  lemma JustOne(f: FactId)
    ensures Elements([f]) + {} == {} + {f} == {f}
  {}

  lemma OneInZone(facts_: seq<FactId>, i: nat, zone: set<FactId>)
    requires i < |facts_| && Elements(facts_) <= zone
    ensures Elements([facts_[i]]) <= zone
  {
    assert facts_[i] in Elements(facts_);
  }

  lemma OneInside(f: FactId, zone: set<FactId>)
    requires Elements([f]) <= zone
    ensures f in zone
  {
    assert f in Elements([f]);
  }

  lemma FirstInZone(queue: seq<FactId>, zone: set<FactId>)
    requires queue != [] && Elements(queue) <= zone
    ensures queue[0] in zone
  {
    assert queue[0] in Elements(queue);
  }

  lemma QueueInZone(queue: seq<FactId>, more: seq<FactId>, zone: set<FactId>)
    requires queue != [] && Elements(queue) <= zone && Elements(more) <= zone
    ensures Elements(queue[1..] + more) <= zone
  {
    forall f | f in queue[1..] + more ensures f in zone {
      assert f in Elements(queue) || f in Elements(more);
    }
  }

  lemma WholeSlice(s: seq<FactId>)
    ensures s[0..] == s && s[|s|..] == [] && Elements(s[|s|..]) == {}
  {}

  lemma SliceElements(s: seq<FactId>, i: nat)
    requires i < |s|
    ensures Elements(s[i..]) == Elements([s[i]]) + Elements(s[i + 1..])
  {
    assert s[i..] == [s[i]] + s[i + 1..];
  }

  lemma NoneOpen(queue: seq<FactId>, pending: set<FactId>)
    requires queue == []
    ensures Elements(queue) + pending == pending
  {}

  /** The stored sets are the same but for their counts and confidences. */
  ghost predicate SameParents(sets: Sets, sets': Sets) {
    sets'.Keys == sets.Keys && forall j | j in sets :: sets'[j].child == sets[j].child && sets'[j].deps == sets[j].deps
  }

  /** Only counts and confidences moved, and no set was last recomputed earlier than before. */
  ghost predicate Kept(sets: Sets, at: map<SetId, int>, sets': Sets, at': map<SetId, int>) {
    SameParents(sets, sets') && forall j | j in sets :: ReadAt(at, j) <= ReadAt(at', j)
  }

  lemma KeptTwice(a: Sets, at: map<SetId, int>, b: Sets, bt: map<SetId, int>, c: Sets, ct: map<SetId, int>)
    requires Kept(a, at, b, bt) && Kept(b, bt, c, ct)
    ensures Kept(a, at, c, ct)
  {}

  lemma RefreshKeeps(w: World, derived: map<FactId, Status>, sets: Sets, children: Children, stamp: map<SetId, int>,
                     clock: int, collapsed: set<FactId>, kids: set<SetId>, sets': Sets, stamp': map<SetId, int>)
    requires WellBuilt(w, derived, sets, children, stamp, clock, collapsed)
    requires RefreshedChildren(w, derived, clock, kids, sets, stamp, sets', stamp')
    ensures Kept(sets, stamp, sets', stamp')
  {
    hide Ranked, Shape, IndexRanked, CollapsedOf;
    forall j | j in sets ensures ReadAt(stamp, j) <= ReadAt(stamp', j) {
      assert j in stamp;
    }
  }

  lemma ReadyToRecompute(w: World, derived: map<FactId, Status>, sets: Sets, children: Children, stamp: map<SetId, int>,
                         clock: int, collapsed: set<FactId>, p: FactId)
    requires WellBuilt(w, derived, sets, children, stamp, clock, collapsed)
    ensures derived.Keys == w.facts.Keys && IndexRanked(children, w.rank, |w.facts|)
    ensures forall j | j in Kids(children, p) :: j in sets && j.fact in w.facts
  {
    hide Ranked, Shape, IndexRanked, CollapsedOf, Kids;
    KidsKnown(w, sets, children, p);
  }

  lemma KidsKnown(w: World, sets: Sets, children: Children, p: FactId)
    requires Shape(w, sets, children)
    ensures forall j | j in Kids(children, p) :: j in sets && j.fact in w.facts
  {
    forall j | j in Kids(children, p) ensures j in sets && j.fact in w.facts {
      assert IsSetId(w, j);
    }
  }

  lemma RecomputedKeeps(w: World, derived: map<FactId, Status>, sets: Sets, children: Children, stamp: map<SetId, int>,
                        clock: int, collapsed: set<FactId>, p: FactId, sets': Sets, stamp': map<SetId, int>,
                        queue: seq<FactId>)
    requires WellBuilt(w, derived, sets, children, stamp, clock, collapsed)
    requires Recomputed(w, derived, clock, children, p, sets, stamp, sets', stamp', queue)
    requires stamp'.Keys == stamp.Keys + Kids(children, p)
    ensures WellBuilt(w, derived, sets', children, stamp', clock, collapsed) && Kept(sets, stamp, sets', stamp')
  {
    hide WellBuilt, RefreshedChildren, Affordable, Kept, Kids;
    RefreshKeepsBuilt(w, derived, sets, children, stamp, clock, collapsed, Kids(children, p), sets', stamp');
    RefreshKeeps(w, derived, sets, children, stamp, clock, collapsed, Kids(children, p), sets', stamp');
  }

  // ---- Locality, as values ----------------------------------------------------------------------

  /** x and everything that depends on it, however indirectly. */
  ghost function Dependents(facts: map<FactId, Fact>, x: FactId): set<FactId> {
    set f | f in facts && Reaches(Cycles.DependencyEdges(facts), x, f)
  }

  /** Whatever depends on a member is a member. */
  ghost predicate Zone(children: Children, zone: set<FactId>) {
    forall p, j | p in zone && j in Kids(children, p) :: j.fact in zone
  }

  /** Nothing outside the zone moved. */
  ghost predicate Outside(zone: set<FactId>, derived: map<FactId, Status>, sets: Sets,
                          derived': map<FactId, Status>, sets': Sets)
  {
    derived'.Keys == derived.Keys && (forall f | f in derived && f !in zone :: derived'[f] == derived[f]) &&
    sets'.Keys == sets.Keys && (forall j | j in sets && j.fact !in zone :: sets'[j] == sets[j])
  }

  ghost predicate FromKids(children: Children, p: FactId, queue: seq<FactId>) {
    forall f | f in queue :: exists j :: j in Kids(children, p) && j.fact == f
  }

  /** A visit of f moves f's status and the sets f supports, and queues facts of those sets. */
  ghost predicate Visited(children: Children, f: FactId, derived: map<FactId, Status>, sets: Sets,
                          derived': map<FactId, Status>, sets': Sets, more: seq<FactId>)
  {
    derived'.Keys == derived.Keys && (forall g | g in derived && g != f :: derived'[g] == derived[g]) &&
    sets'.Keys == sets.Keys && (forall j | j in sets && j !in Kids(children, f) :: sets'[j] == sets[j]) &&
    FromKids(children, f, more)
  }

  lemma StatusVisited(children: Children, f: FactId, derived: map<FactId, Status>, status: Status, sets: Sets,
                      sets': Sets, more: seq<FactId>)
    requires f in derived && Visited(children, f, derived[f := status], sets, derived[f := status], sets', more)
    ensures Visited(children, f, derived, sets, derived[f := status], sets', more)
  {}

  lemma NothingVisited(children: Children, f: FactId, derived: map<FactId, Status>, sets: Sets)
    ensures Visited(children, f, derived, sets, derived, sets, [])
  {}

  lemma NothingAffordable(w: World, derived: map<FactId, Status>, sets: Sets, children: Children,
                          stamp: map<SetId, int>, clock: int, collapsed: set<FactId>, f: FactId)
    requires WellBuilt(w, derived, sets, children, stamp, clock, collapsed)
    ensures Affordable(w, children, f, [])
  {}

  lemma VisitStaysInside(children: Children, zone: set<FactId>, f: FactId, derived0: map<FactId, Status>, sets0: Sets,
                         derived: map<FactId, Status>, sets: Sets, derived': map<FactId, Status>, sets': Sets,
                         more: seq<FactId>)
    requires Zone(children, zone) && f in zone && Outside(zone, derived0, sets0, derived, sets)
    requires Visited(children, f, derived, sets, derived', sets', more)
    ensures Outside(zone, derived0, sets0, derived', sets') && Elements(more) <= zone
  {
    forall g | g in more ensures g in zone {
      var j :| j in Kids(children, f) && j.fact == g;
    }
    forall j | j in sets0 && j.fact !in zone ensures sets'[j] == sets0[j] {
      assert j !in Kids(children, f);
    }
  }

  lemma NothingMoved(zone: set<FactId>, derived: map<FactId, Status>, sets: Sets)
    ensures Outside(zone, derived, sets, derived, sets)
  {}

  lemma OutsideTwice(zone: set<FactId>, derived: map<FactId, Status>, sets: Sets, derived1: map<FactId, Status>,
                     sets1: Sets, derived2: map<FactId, Status>, sets2: Sets)
    requires Outside(zone, derived, sets, derived1, sets1) && Outside(zone, derived1, sets1, derived2, sets2)
    ensures Outside(zone, derived, sets, derived2, sets2)
  {}

  lemma RefreshIsLocal(w: World, derived: map<FactId, Status>, now: int, children: Children, p: FactId, sets: Sets,
                       stamp: map<SetId, int>, sets': Sets, stamp': map<SetId, int>, queue: seq<FactId>)
    requires Recomputed(w, derived, now, children, p, sets, stamp, sets', stamp', queue) && FromKids(children, p, queue)
    ensures Visited(children, p, derived, sets, derived, sets', queue)
  {
    hide Refreshed, Affordable;
  }

  /** What depends on x is a zone. */
  lemma DependentsAreZone(w: World, sets: Sets, children: Children, x: FactId)
    requires Shape(w, sets, children) && x in w.facts
    ensures Zone(children, Dependents(w.facts, x)) && x in Dependents(w.facts, x)
  {
    var edges, zone := Cycles.DependencyEdges(w.facts), Dependents(w.facts, x);
    ReachesSelf(edges, x);
    forall p, j | p in zone && j in Kids(children, p) ensures j.fact in zone {
      KidDepends(w, sets, children, p, j);
      EdgeReaches(edges, p, j.fact);
      hide Reaches;
      ReachesTransitive(edges, x, p, j.fact);
    }
  }

  lemma KidDepends(w: World, sets: Sets, children: Children, u: FactId, j: SetId)
    requires Shape(w, sets, children) && j in Kids(children, u) && u in w.facts
    ensures (u, j.fact) in Cycles.DependencyEdges(w.facts) && j.fact in w.facts
  {
    assert j in sets && sets[j].Mentions(u) && SetShape(w.facts[j.fact], j, sets[j]);
    RefMembers(sets[j]);
    var r :| r in sets[j].deps.Refs() && r.id == u;
    assert r in SetRefs(w.facts[j.fact], j.index);
    assert Cycles.DependsOn(w.facts[j.fact], u);
  }

  lemma AllIsZone(w: World, derived: map<FactId, Status>, sets: Sets, children: Children, stamp: map<SetId, int>,
                  clock: int, collapsed: set<FactId>)
    requires WellBuilt(w, derived, sets, children, stamp, clock, collapsed)
    ensures Zone(children, w.facts.Keys)
  {
    forall p, j | p in w.facts && j in Kids(children, p) ensures j.fact in w.facts {
      assert IsSetId(w, j);
    }
  }

  lemma BuiltZone(w: World, derived: map<FactId, Status>, sets: Sets, children: Children, stamp: map<SetId, int>,
                  clock: int, collapsed: set<FactId>, x: FactId)
    requires WellBuilt(w, derived, sets, children, stamp, clock, collapsed) && x in w.facts
    ensures Zone(children, Dependents(w.facts, x)) && Elements([x]) <= Dependents(w.facts, x)
  {
    hide Dependents;
    DependentsAreZone(w, sets, children, x);
  }

  /** The statuses of facts that do not depend on x are as they were. */
  ghost predicate Untouched(facts: map<FactId, Fact>, x: FactId, derived: map<FactId, Status>,
                            derived': map<FactId, Status>) {
    derived'.Keys == derived.Keys && forall f | f in derived && f !in Dependents(facts, x) :: derived'[f] == derived[f]
  }

  lemma OutsideIsUntouched(facts: map<FactId, Fact>, x: FactId, derived: map<FactId, Status>, sets: Sets,
                           derived': map<FactId, Status>, sets': Sets)
    requires Outside(Dependents(facts, x), derived, sets, derived', sets')
    ensures Untouched(facts, x, derived, derived')
  {
    hide Dependents;
  }

  /** Nobody depends on a fact that was just added. */
  lemma NewFactHasNoDependents(w: World, w': World, x: FactId)
    requires Ranked(w) && Ranked(w') && Extends(w, w', x)
    ensures Dependents(w'.facts, x) <= {x}
  {
    var edges := Cycles.DependencyEdges(w'.facts);
    forall f ensures (x, f) !in edges {
      NoEdgeFromNew(w, w', x, f);
    }
    hide Cycles.DependencyEdges, Reaches, Ranked;
    forall f | f in w'.facts && f != x ensures !Reaches(edges, x, f) {
      if Reaches(edges, x, f) {
        var next := ReachesFirstStep(edges, x, f);
      }
    }
  }

  lemma NoEdgeFromNew(w: World, w': World, x: FactId, f: FactId)
    requires Ranked(w) && Ranked(w') && Extends(w, w', x)
    ensures (x, f) !in Cycles.DependencyEdges(w'.facts)
  {
    if f in w.facts {
      assert forall i: nat :: SetRefs(w'.facts[f], i) == SetRefs(w.facts[f], i);
    }
  }

  /** A new fact leaves the others as they were. */
  ghost predicate OthersKept(x: FactId, derived: map<FactId, Status>, derived': map<FactId, Status>) {
    forall f | f in derived && f != x :: f in derived' && derived'[f] == derived[f]
  }

  lemma NewFactIsLocal(w: World, w': World, derived0: map<FactId, Status>, sets: Sets, children: Children,
                       stamp: map<SetId, int>, clock: int, collapsed: set<FactId>, x: FactId, status: Status,
                       derived: map<FactId, Status>)
    requires Registered(w, w', derived0, sets, children, stamp, clock, collapsed, x)
    requires Untouched(w'.facts, x, derived0[x := status], derived)
    ensures OthersKept(x, derived0, derived)
  {
    hide Dependents, PartialShape, IndexRanked, Shape, Settled, CollapsedOf;
    NewFactHasNoDependents(w, w', x);
  }

  lemma SameUntouched(facts: map<FactId, Fact>, x: FactId, derived: map<FactId, Status>)
    ensures Untouched(facts, x, derived, derived)
  {}

  // ---- Dominators, as values --------------------------------------------------------------------

  /** The dominator forest and its intervals describe these facts and sets. */
  ghost predicate ForestCurrent(facts: map<FactId, Fact>, rank: map<FactId, nat>, sets: Sets, idom: IDom,
                                setIDom: map<SetId, FactId>, pre: Times, post: Times)
  {
    DominatorsRight(facts, rank, sets, idom, setIDom) && IntervalsRight(facts, rank, idom, pre, post)
  }

  /** Statuses do not enter the forest: it stays right while roots stay roots and sets keep their parents. */
  lemma ForestKept(facts: map<FactId, Fact>, facts': map<FactId, Fact>, rank: map<FactId, nat>, sets: Sets, sets': Sets,
                   idom: IDom, setIDom: map<SetId, FactId>, pre: Times, post: Times)
    requires ForestCurrent(facts, rank, sets, idom, setIDom, pre, post)
    requires facts'.Keys == facts.Keys
    requires (forall f | f in facts :: facts'[f].isRoot == facts[f].isRoot) && SameParents(sets, sets')
    ensures ForestCurrent(facts', rank, sets', idom, setIDom, pre, post)
  {
    hide Forest, IntervalsRight, ClosedUnder;
    forall f | f in facts' ensures FactRight(idom, setIDom, rank, facts', sets', f) {
      assert FactRight(idom, setIDom, rank, facts, sets, f);
      if !facts[f].isRoot {
        var js :| Incoming(sets, f, js) && Lookup(idom, f) == FoldLca(idom, rank, Doms(setIDom, js));
        assert Incoming(sets', f, js);
      }
    }
    forall j | j in sets' ensures SetRight(idom, setIDom, rank, sets', j) {
      assert SetRight(idom, setIDom, rank, sets, j);
    }
    assert IntervalsRight(facts', rank, idom, pre, post) by { IntervalsKept(facts, facts', rank, idom, pre, post); }
  }

  lemma IntervalsKept(facts: map<FactId, Fact>, facts': map<FactId, Fact>, rank: map<FactId, nat>, idom: IDom,
                      pre: Times, post: Times)
    requires IntervalsRight(facts, rank, idom, pre, post) && facts'.Keys == facts.Keys
    ensures IntervalsRight(facts', rank, idom, pre, post)
  {}

  lemma BuiltIsIndexable(w: World, derived: map<FactId, Status>, sets: Sets, children: Children, stamp: map<SetId, int>,
                         clock: int, collapsed: set<FactId>)
    requires WellBuilt(w, derived, sets, children, stamp, clock, collapsed)
    ensures Indexable(w.facts, w.rank, sets, children)
  {
    assert w.facts.Keys == w.rank.Keys;
    WalkableIndex(w, sets, children);
    forall p, j | j in sets && p in sets[j].deps.all ensures j in Kids(children, p) {
      AllIsMentioned(w, sets, j, p);
    }
  }

  lemma WalkableIndex(w: World, sets: Sets, children: Children)
    requires Shape(w, sets, children) && IndexRanked(children, w.rank, |w.facts|)
    ensures Walkable(w.rank, sets, children)
    ensures forall j | j in sets :: sets[j].child == j.fact && j.fact in w.facts
  {
    forall j | j in sets ensures sets[j].child == j.fact && j.fact in w.facts {
      assert IsSetId(w, j) && SetShape(w.facts[j.fact], j, sets[j]);
    }
  }

  lemma AllIsMentioned(w: World, sets: Sets, j: SetId, p: FactId)
    requires j in sets && j.fact in w.facts && SetShape(w.facts[j.fact], j, sets[j])
    ensures p in sets[j].deps.all <==> sets[j].Mentions(p)
  {
    assert p in sets[j].deps.all <==> p in multiset(sets[j].deps.all);
  }

  // ---- Mutations, as values ------------------------------------------------------------------

  lemma BuiltCollapsed(w: World, derived: map<FactId, Status>, sets: Sets, children: Children, stamp: map<SetId, int>,
                       clock: int, collapsed: set<FactId>)
    requires WellBuilt(w, derived, sets, children, stamp, clock, collapsed)
    ensures collapsed == CollapsedOf(w.facts) && w.retracted.Keys <= w.facts.Keys
  {}

  lemma NewConfidence(w: World, f: FactId, confidence: Status)
    requires f in w.facts && w.retracted.Keys <= w.facts.Keys
    ensures var w' := w.(facts := w.facts[f := w.facts[f].(manual := confidence)]);
      SameExceptAt(w, w', f) && SameButManual(w.facts[f], w'.facts[f]) && w'.retracted.Keys <= w'.facts.Keys
  {}

  lemma CollapsedAfter(facts: map<FactId, Fact>, f: FactId, confidence: Status)
    requires f in facts && facts[f].isRoot
    ensures CollapsedOf(facts[f := facts[f].(manual := confidence)]) ==
            if confidence < THRESHOLD then CollapsedOf(facts) + {f} else CollapsedOf(facts) - {f}
  {}

  lemma SameKeysSameSize<V>(a: map<FactId, V>, b: map<FactId, V>)
    requires a.Keys == b.Keys
    ensures |a| == |b|
  {
    assert |a| == |a.Keys| && |b| == |b.Keys|;
  }

  lemma SameGraphStaysBuilt(w: World, w': World, derived: map<FactId, Status>, sets: Sets, children: Children,
                            stamp: map<SetId, int>, clock: int, clock': int,
                            collapsed: set<FactId>, collapsed': set<FactId>)
    requires WellBuilt(w, derived, sets, children, stamp, clock, collapsed) && clock <= clock'
    requires Ranked(w') && Shape(w', sets, children) && w'.rank == w.rank && w'.facts.Keys == w.facts.Keys
    requires w'.retracted.Keys <= w'.facts.Keys && collapsed' == CollapsedOf(w'.facts)
    ensures WellBuilt(w', derived, sets, children, stamp, clock', collapsed')
  {
    hide Ranked, Shape, CollapsedOf;
    SameKeysSameSize(w.facts, w'.facts);
  }

  /** Changing the manual status or the retraction of x leaves only x to be propagated. */
  lemma MutationOpens(w: World, w': World, derived: map<FactId, Status>, sets: Sets, children: Children,
                      stamp: map<SetId, int>, clock: int, clock': int,
                      collapsed: set<FactId>, collapsed': set<FactId>, open: set<FactId>, x: FactId)
    requires WellBuilt(w, derived, sets, children, stamp, clock, collapsed) && clock <= clock'
    requires Settled(w, derived, sets, stamp, open) && x !in open
    requires SameExceptAt(w, w', x) && SameButManual(w.facts[x], w'.facts[x])
    requires w'.retracted.Keys <= w'.facts.Keys && collapsed' == CollapsedOf(w'.facts)
    ensures WellBuilt(w', derived, sets, children, stamp, clock', collapsed')
    ensures Settled(w', derived, sets, stamp, open + {x})
  {
    hide Ranked, Shape, IndexRanked, Settled, CollapsedOf;
    SettledMutation(w, w', derived, sets, children, stamp, open, x);
    SameGraphStaysBuilt(w, w', derived, sets, children, stamp, clock, clock', collapsed, collapsed');
  }

  lemma ClockAdvances(w: World, derived: map<FactId, Status>, sets: Sets, children: Children, stamp: map<SetId, int>,
                      clock: int, clock': int, collapsed: set<FactId>)
    requires WellBuilt(w, derived, sets, children, stamp, clock, collapsed) && clock <= clock'
    ensures WellBuilt(w, derived, sets, children, stamp, clock', collapsed)
  {
    hide Ranked, Shape, IndexRanked, CollapsedOf;
  }

  lemma CollapsedSame(w: World, w': World, x: FactId)
    requires SameExceptAt(w, w', x) && SameButVerification(w.facts[x], w'.facts[x])
    ensures CollapsedOf(w'.facts) == CollapsedOf(w.facts)
  {}

  lemma VerificationKeepsBuilt(w: World, w': World, derived: map<FactId, Status>, sets: Sets, children: Children,
                               stamp: map<SetId, int>, clock: int, collapsed: set<FactId>, x: FactId)
    requires WellBuilt(w, derived, sets, children, stamp, clock, collapsed)
    requires SameExceptAt(w, w', x) && w.retracted == w'.retracted && SameButVerification(w.facts[x], w'.facts[x])
    ensures WellBuilt(w', derived, sets, children, stamp, clock, collapsed)
  {
    CollapsedSame(w, w', x);
    hide Ranked, Shape, IndexRanked, CollapsedOf;
    SameTokensKeepShape(w, w', sets, children);
    SameGraphStaysBuilt(w, w', derived, sets, children, stamp, clock, clock, collapsed, collapsed);
  }

  lemma SameLogicKeepsBuilt(w: World, w': World, derived: map<FactId, Status>, sets: Sets, children: Children,
                            stamp: map<SetId, int>, clock: int, collapsed: set<FactId>, x: FactId)
    requires WellBuilt(w, derived, sets, children, stamp, clock, collapsed) && Coherent(w, derived, sets, stamp)
    requires SameExceptAt(w, w', x) && w.retracted == w'.retracted && SameLogic(w.facts[x], w'.facts[x])
    ensures WellBuilt(w', derived, sets, children, stamp, clock, collapsed) && Coherent(w', derived, sets, stamp)
  {
    hide Ranked, Shape, Settled;
    VerificationKeepsBuilt(w, w', derived, sets, children, stamp, clock, collapsed, x);
    SettledSameLogic(w, w', derived, sets, children, stamp, x);
  }

  lemma ReviewKeepsBuilt(w: World, w': World, derived: map<FactId, Status>, sets: Sets, children: Children,
                         stamp: map<SetId, int>, clock: int, collapsed: set<FactId>, x: FactId, status: ReviewStatus,
                         reason: string, at: int)
    requires WellBuilt(w, derived, sets, children, stamp, clock, collapsed) && Coherent(w, derived, sets, stamp)
    requires x in w.facts && w' == World(w.facts[x := Reviewed(w.facts[x], status, reason, at)], w.retracted, w.rank)
    ensures WellBuilt(w', derived, sets, children, stamp, clock, collapsed) && Coherent(w', derived, sets, stamp)
    ensures w'.facts.Keys == w.facts.Keys && forall f | f in w.facts :: w'.facts[f].isRoot == w.facts[f].isRoot
  {
    hide WellBuilt, Settled;
    SameLogicKeepsBuilt(w, w', derived, sets, children, stamp, clock, collapsed, x);
  }

  lemma RepeatedReview(fact: Fact, status: ReviewStatus, reason: string, at: int)
    requires fact.review.status == status
    ensures Reviewed(fact, status, reason, at) == fact
  {}

  lemma SameSetsKept(sets: Sets, stamp: map<SetId, int>)
    ensures Kept(sets, stamp, sets, stamp)
  {}

  /** What the sweep looks for. Unlike a read, it also takes a negative expiry as passed. */
  ghost predicate SweepDue(fact: Fact, now: int) {
    fact.validUntil != 0 && now > fact.validUntil
  }

  /** The list names once each fact of `scanned` that is due and was not retracted before. */
  ghost predicate Swept(facts: map<FactId, Fact>, retracted: map<FactId, string>, scanned: set<FactId>, now: int,
                        expired: seq<FactId>) {
    Distinct(expired) &&
    forall f :: f in expired <==> f in scanned && f in facts && SweepDue(facts[f], now) && f !in retracted
  }

  ghost function MarkExpired(retracted: map<FactId, string>, expired: seq<FactId>): map<FactId, string> {
    retracted + map f | f in expired :: "expired"
  }

  lemma SweepStarts(facts: map<FactId, Fact>, retracted: map<FactId, string>, now: int)
    ensures Swept(facts, retracted, {}, now, []) && MarkExpired(retracted, []) == retracted
    ensures Elements<FactId>([]) == {}
  {}

  lemma SweepContinues(facts: map<FactId, Fact>, retracted: map<FactId, string>, scanned: set<FactId>, now: int,
                       expired: seq<FactId>, f: FactId)
    requires Swept(facts, retracted, scanned, now, expired) && f in facts && f !in scanned
    ensures f !in Elements(expired) && Elements(expired + [f]) == Elements(expired) + {f}
    ensures f in MarkExpired(retracted, expired) <==> f in retracted
    ensures MarkExpired(retracted, expired + [f]) == MarkExpired(retracted, expired)[f := "expired"]
    ensures Swept(facts, retracted, scanned + {f}, now,
                  if SweepDue(facts[f], now) && f !in retracted then expired + [f] else expired)
  {
    assert f !in expired;
    hide MarkExpired, Swept, Elements, SweepDue;
    MarkSnoc(retracted, expired, f);
    SweptSnoc(facts, retracted, scanned, now, expired, f);
  }

  lemma MarkSnoc(retracted: map<FactId, string>, expired: seq<FactId>, f: FactId)
    requires f !in expired
    ensures f in MarkExpired(retracted, expired) <==> f in retracted
    ensures MarkExpired(retracted, expired + [f]) == MarkExpired(retracted, expired)[f := "expired"]
    ensures f !in Elements(expired) && Elements(expired + [f]) == Elements(expired) + {f}
  {
    assert (map g | g in expired + [f] :: "expired") == (map g | g in expired :: "expired")[f := "expired"];
  }

  lemma SweptSnoc(facts: map<FactId, Fact>, retracted: map<FactId, string>, scanned: set<FactId>, now: int,
                  expired: seq<FactId>, f: FactId)
    requires Swept(facts, retracted, scanned, now, expired) && f in facts && f !in scanned
    ensures Swept(facts, retracted, scanned + {f}, now,
                  if SweepDue(facts[f], now) && f !in retracted then expired + [f] else expired)
  {
    forall g ensures g in expired + [f] <==> g in expired || g == f {}
  }

  lemma SweptAreFacts(facts: map<FactId, Fact>, retracted: map<FactId, string>, scanned: set<FactId>, now: int,
                      expired: seq<FactId>)
    requires Swept(facts, retracted, scanned, now, expired)
    ensures Elements(expired) <= facts.Keys
  {}

  /** Status queries on conjunctive graphs are never wrongly pruned. */
  lemma NoCollapsedDominator(w: World, derived: map<FactId, Status>, sets: Sets, children: Children,
                             stamp: map<SetId, int>, clock: int, collapsed: set<FactId>, idom: IDom,
                             setIDom: map<SetId, FactId>, root: FactId, f: FactId)
    requires WellBuilt(w, derived, sets, children, stamp, clock, collapsed) && Coherent(w, derived, sets, stamp)
    requires DominatorsRight(w.facts, w.rank, sets, idom, setIDom) && Conjunctive(w)
    requires f in w.facts && derived[f] >= THRESHOLD && root in collapsed
    ensures !OnPath(idom, w.rank, root, f)
  {
    hide Ranked, Shape, DominatorsRight, Conjunctive, OnPath, IndexRanked;
    assert root in w.facts && derived[root] == Resolved(w, sets, root);
    if OnPath(idom, w.rank, root, f) {
      DominatorsHold(w, derived, sets, children, stamp, idom, setIDom, root, f);
    }
  }

  /** What a status query answers: the effective status, unless it is below the threshold or a collapsed root
      lies on the fact's dominator path. */
  ghost function Pruned(idom: IDom, rank: map<FactId, nat>, collapsed: set<FactId>, f: FactId,
                        effective: Status): Status {
    if effective < THRESHOLD || exists root :: root in collapsed && OnPath(idom, rank, root, f) then INVALID
    else effective
  }

  lemma EffectiveIsDerived(w: World, derived: map<FactId, Status>, sets: Sets, stamp: map<SetId, int>, f: FactId,
                           now: int)
    requires Coherent(w, derived, sets, stamp) && f in w.facts
    requires Read(w, f, derived[f], now) >= THRESHOLD
    ensures derived[f] == Read(w, f, derived[f], now)
  {
    assert derived[f] == Resolved(w, sets, f);
  }

  // ---- Snapshots ------------------------------------------------------------------------------------

  /** A copy of the engine's state, and whether its checksum still matches. */
  datatype Snapshot = Snapshot(facts: map<FactId, Fact>, derived: map<FactId, Status>, sets: Sets, children: Children,
                               collapsed: set<FactId>, retracted: map<FactId, string>, intact: bool)

  datatype RestoreResult = Restored | Damaged | TooManyFacts | BadGraph(check: Cycles.GraphCheck)

  /** What restoring asks of a snapshot. */
  ghost predicate Acceptable(s: Snapshot) {
    s.intact && |s.facts| <= MAX_FACTS && Cycles.WellFormed(s.facts) && Acyclic(Cycles.DependencyEdges(s.facts))
  }

  /** The snapshot was taken from an engine whose cache was up to date. */
  ghost predicate SoundSnapshot(s: Snapshot, rank: map<FactId, nat>, stamp: map<SetId, int>, clock: int) {
    s.intact && WellBuilt(World(s.facts, s.retracted, rank), s.derived, s.sets, s.children, stamp, clock,
                          s.collapsed) &&
    Coherent(World(s.facts, s.retracted, rank), s.derived, s.sets, stamp)
  }

  /** Restoring never refuses what an engine saved. */
  lemma SoundSnapshotIsAccepted(s: Snapshot, rank: map<FactId, nat>, stamp: map<SetId, int>, clock: int)
    requires SoundSnapshot(s, rank, stamp, clock)
    ensures Acceptable(s)
  {
    hide Ranked, Shape, Settled, IndexRanked, CollapsedOf, Acyclic, Cycles.WellFormed;
    Cycles.RankedWorldIsAcyclic(World(s.facts, s.retracted, rank));
  }

  // ---- Assertion, as values ------------------------------------------------------------------------

  /** The answer validation gives, by the first check that fails. */
  ghost predicate Verdict(facts: map<FactId, Fact>, id: FactId, fact: Fact, r: AssertResult) {
    (r.CapExceeded? <==> |facts| >= 80000) &&
    (r.AlreadyPresent? <==> |facts| < MAX_FACTS && id in facts && SameContent(facts[id], fact)) &&
    (r.Conflict? <==> |facts| < MAX_FACTS && id in facts && !SameContent(facts[id], fact)) &&
    (r.Asserted? <==> |facts| < MAX_FACTS && id !in facts && Assertable(facts, fact)) &&
    (r.NoJustification? || r.EmptySet? || r.BadDependency? || r.UnknownParent? ==> Refuses(facts, fact, r)) &&
    !r.CycleRejected?
  }

  /** The sets before set i are fine, and so are the first n tokens of set i. */
  ghost predicate FineUpTo(facts: map<FactId, Fact>, fact: Fact, i: nat, n: nat) {
    i < |fact.tokens| && n <= |fact.tokens[i]| && GoodTokens(facts, fact.tokens[i][..n]) &&
    forall k | 0 <= k < i :: fact.tokens[k] != [] && GoodTokens(facts, fact.tokens[k])
  }

  ghost predicate NamesUnknown(facts: map<FactId, Fact>, token: string, p: FactId) {
    p != "" && p !in facts && (token == "!" + p || (token == p && p[0] != '!'))
  }

  /** What the answer says is the first thing wrong with the fact's sets. */
  ghost predicate Refuses(facts: map<FactId, Fact>, fact: Fact, r: AssertResult) {
    match r
    case NoJustification => !fact.isRoot && fact.tokens == []
    case EmptySet => exists i: nat :: FineUpTo(facts, fact, i, 0) && fact.tokens[i] == []
    case BadDependency => exists i: nat, n: nat :: FineUpTo(facts, fact, i, n) && n < |fact.tokens[i]| &&
                                                   fact.tokens[i][n] in {"", "!"}
    case UnknownParent(p) => exists i: nat, n: nat :: FineUpTo(facts, fact, i, n) && n < |fact.tokens[i]| &&
                                                      NamesUnknown(facts, fact.tokens[i][n], p)
    case _ => false
  }

  lemma IndexRankedFrom(w: World, sets: Sets, children: Children)
    requires Ranked(w) && Shape(w, sets, children) && forall f | f in w.rank :: w.rank[f] < |w.facts|
    ensures IndexRanked(children, w.rank, |w.facts|)
  {
    forall p, j | j in Kids(children, p) ensures p in w.rank && j.fact in w.rank && w.rank[p] < w.rank[j.fact] {
      KidRank(w, sets, children, p, j);
    }
    hide Ranked, Shape, Kids;
  }

  lemma KidRank(w: World, sets: Sets, children: Children, p: FactId, j: SetId)
    requires Ranked(w) && Shape(w, sets, children) && j in Kids(children, p)
    ensures p in w.rank && j.fact in w.rank && w.rank[p] < w.rank[j.fact]
  {
    assert j in sets && sets[j].Mentions(p);
    hide Shape;
    ParentRank(w, sets, children, p, j);
  }

  lemma RankedExtends(w: World, w': World, x: FactId)
    requires Ranked(w) && Extends(w, w', x) && (forall f | f in w.rank :: w.rank[f] < w'.rank[x])
    requires TokensParse(w'.facts[x]) && forall i, r | r in SetRefs(w'.facts[x], i) :: r.id in w.facts
    ensures Ranked(w')
  {}

  lemma AssertableRefs(facts: map<FactId, Fact>, fact: Fact)
    requires Assertable(facts, fact)
    ensures TokensParse(fact)
    ensures forall i, r | r in SetRefs(fact, i) :: r.id in facts
  {
    forall i | 0 <= i < |fact.tokens| ensures AllParse(fact.tokens[i]) {
      assert GoodTokens(facts, fact.tokens[i]);
    }
    forall i, r | r in SetRefs(fact, i) ensures r.id in facts {
      var n :| 0 <= n < |fact.tokens[i]| && Parsed(fact.tokens[i])[n] == r;
      assert GoodTokens(facts, fact.tokens[i]) && fact.tokens[i][n] in fact.tokens[i];
    }
  }

  /** Registering the new fact x, last in the ranking. */
  lemma RegisterKeepsRanked(w: World, x: FactId, fact: Fact, w': World)
    requires Ranked(w) && x !in w.facts && x !in w.retracted && Assertable(w.facts, fact)
    requires forall f | f in w.rank :: w.rank[f] < |w.facts|
    requires w' == World(w.facts[x := fact], w.retracted, w.rank[x := |w.facts|])
    ensures Ranked(w') && Extends(w, w', x) && |w'.facts| == |w.facts| + 1
    ensures forall f | f in w'.rank :: w'.rank[f] < |w'.facts|
  {
    AssertableRefs(w.facts, fact);
    RankedExtends(w, w', x);
    assert |w'.facts| == |w'.facts.Keys| && |w.facts| == |w.facts.Keys|;
    assert w'.facts.Keys == w.facts.Keys + {x};
  }

  /** The sets of the new fact x entered so far are current; the older ones are untouched. */
  ghost predicate Entered(w: World, derived: map<FactId, Status>, x: FactId, clock: int, sets: Sets,
                          stamp: map<SetId, int>, sets': Sets, stamp': map<SetId, int>)
  {
    stamp'.Keys == sets'.Keys && (forall j | j in stamp' :: stamp'[j] <= clock) &&
    (forall j | j in sets :: j in sets' && sets'[j] == sets[j] && ReadAt(stamp', j) == ReadAt(stamp, j)) &&
    (forall j | j in sets' && j !in sets :: j.fact == x && SetCurrent(w, derived, stamp', j, sets'[j]))
  }

  lemma EnteredStarts(w: World, derived: map<FactId, Status>, x: FactId, clock: int, sets: Sets, stamp: map<SetId, int>)
    requires stamp.Keys == sets.Keys && forall j | j in stamp :: stamp[j] <= clock
    ensures Entered(w, derived, x, clock, sets, stamp, sets, stamp)
  {}

  lemma EnteredGrows(w: World, derived: map<FactId, Status>, x: FactId, clock: int, sets: Sets, stamp: map<SetId, int>,
                     sets': Sets, stamp': map<SetId, int>, j: SetId, js: JSet)
    requires Entered(w, derived, x, clock, sets, stamp, sets', stamp') && j.fact == x && j !in sets'
    requires js == Refreshed(w, derived, clock, j, js)
    ensures Entered(w, derived, x, clock, sets, stamp, sets'[j := js], stamp'[j := clock])
  {
    hide Refreshed;
  }

  /** A registered fact with all its sets entered gives a well-built engine in which only it is open. */
  lemma AssertionOpens(w: World, w': World, derived: map<FactId, Status>, derived': map<FactId, Status>, sets: Sets,
                       children: Children, stamp: map<SetId, int>, clock: int,
                       collapsed: set<FactId>, collapsed': set<FactId>, x: FactId, sets': Sets, children': Children,
                       stamp': map<SetId, int>, n: nat)
    requires WellBuilt(w, derived, sets, children, stamp, clock, collapsed) && Coherent(w, derived, sets, stamp)
    requires Ranked(w') && Extends(w, w', x)
    requires (forall f | f in w'.rank :: w'.rank[f] < |w'.facts|) && |w'.facts| <= MAX_FACTS
    requires derived'.Keys == derived.Keys + {x} && (forall f | f in derived :: derived'[f] == derived[f])
    requires PartialShape(w, w', x, n, sets', children') && n == if w'.facts[x].isRoot then 0 else |w'.facts[x].tokens|
    requires Entered(w', derived', x, clock, sets, stamp, sets', stamp') && collapsed' == CollapsedOf(w'.facts)
    ensures WellBuilt(w', derived', sets', children', stamp', clock, collapsed')
    ensures Settled(w', derived', sets', stamp', {x})
  {
    hide Ranked, Shape, Settled, CollapsedOf, IndexRanked, PartialShape, SetCurrent;
    PartialShapeDone(w, w', x, n, sets', children');
    SettledExtension(w, w', derived, derived', sets, sets', children, stamp, stamp', x);
    IndexRankedFrom(w', sets', children');
  }

  lemma EmptyIsBuilt()
    ensures WellBuilt(World(map[], map[], map[]), map[], map[], map[], map[], 0, {})
    ensures Coherent(World(map[], map[], map[]), map[], map[], map[])
  {
    var w := World(map[], map[], map[]);
    EmptyGraph(w, map[], map[]);
    assert Settled(w, map[], map[], map[], {}) by {
      hide Ranked, Shape;
    }
    hide Ranked, Shape, Settled;
    assert |w.facts| == 0;
    assert CollapsedOf(w.facts) == {};
  }

  lemma EmptyForest()
    ensures ForestCurrent(map[], map[], map[], map[], map[], map[], map[])
  {}

  lemma EmptyGraph(w: World, sets: Sets, children: Children)
    requires w.facts == map[] && w.rank == map[] && sets == map[] && children == map[]
    ensures Ranked(w) && Shape(w, sets, children) && IndexRanked(children, w.rank, 0)
  {
    assert forall p :: Kids(children, p) == {};
    assert forall j :: !IsSetId(w, j);
  }

  lemma CollapsedRegistered(w: World, w': World, x: FactId)
    requires Extends(w, w', x)
    ensures CollapsedOf(w'.facts) ==
            if w'.facts[x].isRoot && w'.facts[x].manual < THRESHOLD then CollapsedOf(w.facts) + {x}
            else CollapsedOf(w.facts)
  {}

  /** The fact x is in the engine's facts but nothing else has been done for it. */
  ghost predicate Registered(w: World, w': World, derived: map<FactId, Status>, sets: Sets, children: Children,
                             stamp: map<SetId, int>, clock: int, collapsed: set<FactId>, x: FactId)
  {
    WellBuilt(w, derived, sets, children, stamp, clock, collapsed) && Coherent(w, derived, sets, stamp) &&
    Ranked(w') && Extends(w, w', x) && (forall f | f in w'.rank :: w'.rank[f] < |w'.facts|) &&
    |w'.facts| <= MAX_FACTS && PartialShape(w, w', x, 0, sets, children)
  }

  lemma RegisteredStarts(w: World, w': World, derived: map<FactId, Status>, sets: Sets, children: Children,
                         stamp: map<SetId, int>, clock: int, collapsed: set<FactId>, x: FactId, status: Status)
    requires Registered(w, w', derived, sets, children, stamp, clock, collapsed, x)
    ensures x in w'.facts && x !in w.facts && derived[x := status].Keys == w'.facts.Keys
    ensures Entered(w', derived[x := status], x, clock, sets, stamp, sets, stamp)
    ensures collapsed == CollapsedOf(w.facts)
    ensures CollapsedOf(w'.facts) ==
            if w'.facts[x].isRoot && w'.facts[x].manual < THRESHOLD then collapsed + {x} else collapsed
  {
    hide Ranked, Shape, Settled, CollapsedOf, IndexRanked, PartialShape;
    CollapsedRegistered(w, w', x);
    EnteredStarts(w', derived[x := status], x, clock, sets, stamp);
  }

  lemma RegisteredParts(w: World, w': World, derived: map<FactId, Status>, sets: Sets, children: Children,
                        stamp: map<SetId, int>, clock: int, collapsed: set<FactId>, x: FactId, status: Status)
    requires Registered(w, w', derived, sets, children, stamp, clock, collapsed, x)
    ensures WellBuilt(w, derived, sets, children, stamp, clock, collapsed) && Coherent(w, derived, sets, stamp)
    ensures Ranked(w') && Extends(w, w', x)
    ensures (forall f | f in w'.rank :: w'.rank[f] < |w'.facts|) && |w'.facts| <= MAX_FACTS
    ensures derived[x := status].Keys == derived.Keys + {x}
    ensures forall f | f in derived :: derived[x := status][f] == derived[f]
  {
    assert x !in w.facts;
    hide WellBuilt, Ranked, Extends, Coherent, CollapsedOf, Settled, PartialShape;
    BuiltKeys(w, derived, sets, children, stamp, clock, collapsed);
    NewStatusKeepsOthers(derived, x, status);
  }

  lemma NewStatusKeepsOthers(derived: map<FactId, Status>, x: FactId, status: Status)
    requires x !in derived
    ensures derived[x := status].Keys == derived.Keys + {x}
    ensures forall f | f in derived :: derived[x := status][f] == derived[f]
  {}

  lemma RegisteredOpens(w: World, w': World, derived: map<FactId, Status>, sets: Sets, children: Children,
                        stamp: map<SetId, int>, clock: int, collapsed: set<FactId>, x: FactId, status: Status,
                        sets': Sets, children': Children, stamp': map<SetId, int>, n: nat)
    requires Registered(w, w', derived, sets, children, stamp, clock, collapsed, x)
    requires x in w'.facts && n == if w'.facts[x].isRoot then 0 else |w'.facts[x].tokens|
    requires PartialShape(w, w', x, n, sets', children')
    requires Entered(w', derived[x := status], x, clock, sets, stamp, sets', stamp')
    ensures WellBuilt(w', derived[x := status], sets', children', stamp', clock, CollapsedOf(w'.facts))
    ensures Settled(w', derived[x := status], sets', stamp', {x})
  {
    hide *;
    RegisteredParts(w, w', derived, sets, children, stamp, clock, collapsed, x, status);
    AssertionOpens(w, w', derived, derived[x := status], sets, children, stamp, clock, collapsed, CollapsedOf(w'.facts),
                   x, sets', children', stamp', n);
  }

  /** The verification record after an update: blank details keep their old value. */
  ghost function Reverified(v: Verification, status: VerificationStatus, method_: string, sourceRef: string,
                            reason: string, verifiedAt: int): Verification {
    Verification(
      status,
      if method_ != "" then method_ else v.method_,
      if sourceRef != "" then sourceRef else v.sourceRef,
      if reason != "" then reason else v.reason,
      verifiedAt,
      if status == Verified then false else v.required)
  }

  /** Details that were left blank are as before, and a fact no longer requires verification once it is verified. */
  ghost predicate DetailsKept(v: Verification, v': Verification, method_: string, sourceRef: string, reason: string) {
    (method_ == "" ==> v'.method_ == v.method_) && (sourceRef == "" ==> v'.sourceRef == v.sourceRef) &&
    (reason == "" ==> v'.reason == v.reason) && (v'.required <==> v.required && v'.status != Verified)
  }

  lemma ReverifiedIs(v: Verification, status: VerificationStatus, method_: string, sourceRef: string, reason: string,
                     at: int, v': Verification)
    requires v' == Verification(status, if method_ == "" then v.method_ else method_,
                                if sourceRef == "" then v.sourceRef else sourceRef,
                                if reason == "" then v.reason else reason, at, v.required && status != Verified)
    ensures v' == Reverified(v, status, method_, sourceRef, reason, at)
    ensures DetailsKept(v, v', method_, sourceRef, reason)
  {}

  /** The review fields after an update: repeating the current status changes nothing. */
  ghost function Reviewed(fact: Fact, status: ReviewStatus, reason: string, reviewedAt: int): Fact {
    if fact.review.status == status then fact
    else fact.(review := Review(status, reason, reviewedAt),
               requiresHumanReview := if status == Approved || status == Waived then false
                 else fact.requiresHumanReview)
  }

  class Engine {
    var facts: map<FactId, Fact>
    var derived: map<FactId, Status>
    var sets: Sets
    var children: Children
    var collapsed: set<FactId>
    var retracted: map<FactId, string>
    /** Set when a fact is added; the dominator forest is rebuilt on the next status query. */
    var dirty: bool
    const dominators: DominatorTree
    /** The position of each fact in the order of assertion. */
    ghost var rank: map<FactId, nat>
    /** When each justification set was last recomputed. */
    ghost var stamp: map<SetId, int>
    /** The latest time an operation has read. */
    ghost var clock: int

    ghost function W(): World
      reads this`facts, this`retracted, this`rank
    {
      World(facts, retracted, rank)
    }

    ghost predicate Structured()
      reads this
    {
      WellBuilt(W(), derived, sets, children, stamp, clock, collapsed)
    }

    /** Every status and confidence is up to date with the facts. */
    ghost predicate Consistent()
      reads this
    {
      Structured() && Coherent(W(), derived, sets, stamp)
    }

    ghost predicate DominatorsCurrent()
      reads this, dominators
    {
      ForestCurrent(facts, rank, sets, dominators.idom, dominators.setIDom, dominators.pre, dominators.post)
    }

    ghost predicate Valid()
      reads this, dominators
    {
      Consistent() && (!dirty ==> DominatorsCurrent())
    }

    constructor ()
      ensures Valid() && facts == map[] && retracted == map[] && clock == 0 && !dirty
      ensures fresh(dominators)
    {
      dominators := new DominatorTree();
      facts, derived, sets, children, collapsed, retracted := map[], map[], map[], map[], {}, map[];
      dirty := false;
      rank, stamp, clock := map[], map[], 0;
      new;
      hide WellBuilt, Settled;
      EmptyIsBuilt();
      EmptyForest();
    }

    // ---- Reading -----------------------------------------------------------------------------

    method EffectiveStatus(f: FactId, now: int) returns (status: Status)
      requires derived.Keys == facts.Keys
      ensures status == if f in facts then Read(W(), f, derived[f], now) else INVALID
    {
      if f !in facts {
        return INVALID;
      }
      if f in retracted {
        return INVALID;
      }
      if facts[f].validUntil > 0 && now > facts[f].validUntil {
        return INVALID;
      }
      if facts[f].isRoot {
        return facts[f].manual;
      }
      status := derived[f];
    }

    /** Counts the dependencies that hold and finds the weakest contribution, positive parents first. */
    method ComputeJustificationSetParents(deps: DependencySet, child: FactId, now: int, ghost w: World,
                                          ghost st: map<FactId, Status>)
      returns (validCount: nat, minConfidence: Status)
      requires derived.Keys == facts.Keys && child in facts && w == W() && st == Readings(w, derived, now)
      ensures validCount == Count(w, st, now, child, deps.Refs(), |deps.Refs()|)
      ensures minConfidence == Floor(w, st, deps.Refs(), |deps.Refs()|)
    {
      hide *;
      ghost var refs := deps.Refs();
      RefsMembers(deps);
      NothingCounted(w, st, now, child, refs);
      validCount, minConfidence := AddDependencies(deps.positive, false, child, now, 0, VALID, w, st, refs, 0);
      validCount, minConfidence :=
        AddDependencies(deps.negative, true, child, now, validCount, minConfidence, w, st, refs, |deps.positive|);
    }

    /** One of the two loops over parents; it starts at position `from` of all the dependencies. */
    method AddDependencies(parents: seq<FactId>, negated: bool, child: FactId, now: int, validCount: nat,
                           minConfidence: Status, ghost w: World, ghost st: map<FactId, Status>,
                           ghost refs: seq<DepRef>, ghost from: nat)
      returns (validCount': nat, minConfidence': Status)
      requires derived.Keys == facts.Keys && child in facts && from + |parents| <= |refs|
      requires forall i | 0 <= i < |parents| :: refs[from + i] == DepRef(parents[i], negated)
      requires w == W() && st == Readings(w, derived, now)
      requires validCount == Count(w, st, now, child, refs, from) && minConfidence == Floor(w, st, refs, from)
      ensures validCount' == Count(w, st, now, child, refs, from + |parents|)
      ensures minConfidence' == Floor(w, st, refs, from + |parents|)
    {
      hide *;
      validCount', minConfidence' := validCount, minConfidence;
      for i := 0 to |parents|
        invariant validCount' == Count(w, st, now, child, refs, from + i)
        invariant minConfidence' == Floor(w, st, refs, from + i)
      {
        validCount', minConfidence' :=
          AddDependency(parents[i], negated, child, now, validCount', minConfidence', w, st, refs, from + i);
      }
    }

    /** One turn of the loop above: a parent the engine does not know is skipped. */
    method AddDependency(parent: FactId, negated: bool, child: FactId, now: int, validCount: nat, minConfidence: Status,
                         ghost w: World, ghost st: map<FactId, Status>, ghost refs: seq<DepRef>, ghost n: nat)
      returns (validCount': nat, minConfidence': Status)
      requires derived.Keys == facts.Keys && child in facts && n < |refs| && refs[n] == DepRef(parent, negated)
      requires w == W() && st == Readings(w, derived, now)
      requires validCount == Count(w, st, now, child, refs, n) && minConfidence == Floor(w, st, refs, n)
      ensures validCount' == Count(w, st, now, child, refs, n + 1)
      ensures minConfidence' == Floor(w, st, refs, n + 1)
    {
      validCount', minConfidence' := validCount, minConfidence;
      FloorIsLeast(w, st, refs, n);
      if parent in facts {
        var parentStatus := EffectiveStatus(parent, now);
        assert st[parent] == parentStatus;
        var depConf := DependencyConfidence(parentStatus, negated);
        if depConf < minConfidence {
          minConfidence' := depConf;
        }
        var satisfied := DependencySatisfied(facts[parent], parentStatus, negated, facts[child], now);
        if satisfied {
          validCount' := validCount + 1;
        }
      }
    }

    // ---- Propagation -----------------------------------------------------------------------------

    /** Recomputes one stored set; tells whether its count or confidence moved. */
    method RefreshSet(j: SetId, now: int) returns (changed: bool)
      requires derived.Keys == facts.Keys && j in sets && j.fact in facts
      modifies this`sets, this`stamp
      ensures sets == old(sets)[j := Refreshed(W(), derived, now, j, old(sets)[j])]
      ensures stamp == old(stamp)[j := now]
      ensures changed <==> sets[j] != old(sets)[j]
    {
      var js := sets[j];
      var validCount, minConf := ComputeJustificationSetParents(js.deps, j.fact, now, W(), Readings(W(), derived, now));
      var confidence := if validCount == js.target then minConf else INVALID;
      changed := js.current != validCount || js.confidence != confidence;
      sets := sets[j := js.(current := validCount, confidence := confidence)];
      stamp := stamp[j := now];
    }

    /** Recomputes the sets that depend on p, in any order; returns the facts they belong to if they moved. */
    method RecomputeChildrenForParent(p: FactId, now: int, ghost w: World) returns (queue: seq<FactId>)
      requires Structured() && clock == now && w == W()
      modifies this`sets, this`stamp
      ensures Structured()
      ensures Recomputed(w, derived, now, children, p, old(sets), old(stamp), sets, stamp, queue)
      ensures Kept(old(sets), old(stamp), sets, stamp) && FromKids(children, p, queue)
    {
      hide WellBuilt, Recomputed, Kept, Kids, IndexRanked, FromKids;
      ReadyToRecompute(w, derived, sets, children, stamp, clock, collapsed, p);
      queue := RefreshSets(p, now, w);
      RecomputedKeeps(w, derived, old(sets), children, old(stamp), clock, collapsed, p, sets, stamp, queue);
    }

    method RefreshSets(p: FactId, now: int, ghost w: World) returns (queue: seq<FactId>)
      requires w == W() && derived.Keys == facts.Keys
      requires forall j | j in Kids(children, p) :: j in sets && j.fact in facts
      requires IndexRanked(children, w.rank, |w.facts|)
      modifies this`sets, this`stamp
      ensures Recomputed(w, derived, now, children, p, old(sets), old(stamp), sets, stamp, queue)
      ensures stamp.Keys == old(stamp).Keys + Kids(children, p) && FromKids(children, p, queue)
    {
      ghost var top := |w.facts|;
      hide IndexRanked, Refreshed, SumOf, KidWeights, Engine.W, Weight, Kids, RefreshedChildren;
      queue := [];
      ghost var done := {};
      var todo := Kids(children, p);
      RefreshStarts(w, derived, now, sets, stamp);
      while todo != {}
        invariant done + todo == Kids(children, p) && done !! todo
        invariant sets.Keys == old(sets).Keys && stamp.Keys == old(stamp).Keys + done
        invariant RefreshedChildren(w, derived, now, done, old(sets), old(stamp), sets, stamp)
        invariant forall j | j in done && sets[j].confidence != old(sets)[j].confidence :: j.fact in queue
        invariant FromKids(children, p, queue)
        invariant QueueWeight(children, w.rank, top, queue) + SumOf(KidWeights(children, w.rank, top, p, todo)) <=
                  SumOf(KidWeights(children, w.rank, top, p, Kids(children, p)))
      {
        var j :| j in todo;
        KidVisited(children, w.rank, top, p, todo, j);
        RefreshContinues(w, derived, now, done, old(sets), old(stamp), sets, stamp, j);
        var added := RefreshQueueing(j, now, w);
        QueueWeightAppend(children, w.rank, top, queue, added);
        queue := queue + added;
        todo := todo - {j};
        done := done + {j};
      }
      assert done == Kids(children, p);
    }

    /** One turn of the loop: the set is recomputed and its fact queued if it moved. */
    method RefreshQueueing(j: SetId, now: int, ghost w: World) returns (added: seq<FactId>)
      requires w == W() && derived.Keys == facts.Keys && j in sets && j.fact in facts
      requires IndexRanked(children, w.rank, |w.facts|)
      modifies this`sets, this`stamp
      ensures sets == old(sets)[j := Refreshed(w, derived, now, j, old(sets)[j])]
      ensures stamp == old(stamp)[j := now]
      ensures sets[j].confidence != old(sets)[j].confidence ==> j.fact in added
      ensures forall f | f in added :: f == j.fact
      ensures QueueWeight(children, w.rank, |w.facts|, added) <= Weight(children, w.rank, |w.facts|, j.fact)
    {
      hide IndexRanked, Refreshed, Weight;
      var changed := RefreshSet(j, now);
      added := if changed then [j.fact] else [];
    }

    /** The status the queue loop computes for f. */
    method NewStatus(f: FactId) returns (status: Status)
      requires Structured() && f in facts
      ensures status == Resolved(W(), sets, f)
    {
      if f in retracted {
        return INVALID;
      }
      if facts[f].isRoot {
        return facts[f].manual;
      }
      ghost var confs := CachedConfidences(W(), sets, f);
      status := INVALID;
      for i := 0 to |facts[f].tokens|
        invariant status == Best(confs, i)
      {
        var j := SetId(f, i);
        assert IsSetId(W(), j);
        if sets[j].confidence >= THRESHOLD {
          if sets[j].confidence > status {
            status := sets[j].confidence;
          }
        }
      }
    }

    /** The work queue. Facts may come back many times; each visit makes the queue lighter. */
    method Propagate(start: seq<FactId>, now: int, ghost pending: set<FactId>, ghost zone: set<FactId>)
      requires Structured() && clock == now && Elements(start) <= zone && Zone(children, zone)
      requires Settled(W(), derived, sets, stamp, Elements(start) + pending)
      modifies this`derived, this`sets, this`stamp
      ensures Structured() && Settled(W(), derived, sets, stamp, pending) && Kept(old(sets), old(stamp), sets, stamp)
      ensures Outside(zone, old(derived), old(sets), derived, sets)
    {
      hide *;
      ghost var w := W();
      var queue := start;
      SameSetsKept(sets, stamp);
      NothingMoved(zone, derived, sets);
      while |queue| > 0
        invariant Structured() && w == W() && Kept(old(sets), old(stamp), sets, stamp)
        invariant Elements(queue) <= zone && Outside(zone, old(derived), old(sets), derived, sets)
        invariant Settled(w, derived, sets, stamp, Elements(queue) + pending)
        decreases Heft(w, children, queue)
      {
        queue := PropagateFirst(queue, now, pending, w, old(derived), old(sets), old(stamp), zone);
      }
      NoneOpen(queue, pending);
    }

    /** One dequeue and what it appends. */
    method PropagateFirst(queue: seq<FactId>, now: int, ghost pending: set<FactId>, ghost w: World,
                          ghost derived0: map<FactId, Status>, ghost sets0: Sets, ghost stamp0: map<SetId, int>,
                          ghost zone: set<FactId>)
      returns (queue': seq<FactId>)
      requires queue != [] && Structured() && clock == now && w == W() && Kept(sets0, stamp0, sets, stamp)
      requires Settled(w, derived, sets, stamp, Elements(queue) + pending)
      requires Elements(queue) <= zone && Zone(children, zone) && Outside(zone, derived0, sets0, derived, sets)
      modifies this`derived, this`sets, this`stamp
      ensures Structured() && Kept(sets0, stamp0, sets, stamp)
      ensures Settled(w, derived, sets, stamp, Elements(queue') + pending)
      ensures Heft(w, children, queue') < Heft(w, children, queue)
      ensures Elements(queue') <= zone && Outside(zone, derived0, sets0, derived, sets)
    {
      hide *;
      ghost var derived1, sets1, stamp1 := derived, sets, stamp;
      OpenAfterPop(queue, [], pending);
      FirstInZone(queue, zone);
      var more := VisitIfKnown(queue[0], now, w, Elements(queue) + pending, Elements(queue[1..]) + pending);
      KeptTwice(sets0, stamp0, sets1, stamp1, sets, stamp);
      VisitStaysInside(children, zone, queue[0], derived0, sets0, derived1, sets1, derived, sets, more);
      HeftFalls(w, children, queue, more);
      OpenAfterPop(queue, more, pending);
      QueueInZone(queue, more, zone);
      queue' := queue[1..] + more;
    }

    method VisitIfKnown(f: FactId, now: int, ghost w: World, ghost open: set<FactId>, ghost rest: set<FactId>)
      returns (more: seq<FactId>)
      requires Structured() && clock == now && w == W()
      requires Settled(w, derived, sets, stamp, open) && open <= rest + {f}
      modifies this`derived, this`sets, this`stamp
      ensures Structured() && Settled(w, derived, sets, stamp, rest + Elements(more))
      ensures Affordable(w, children, f, more)
      ensures Kept(old(sets), old(stamp), sets, stamp)
      ensures Visited(children, f, old(derived), old(sets), derived, sets, more)
    {
      hide Ranked, Shape, Settled, IndexRanked;
      more := [];
      if f in facts {
        more := Visit(f, now, w, open, rest);
      } else {
        PopUnchanged(w, derived, sets, stamp, f, open, rest + Elements(more));
      }
    }

    /** One turn of the queue loop on a known fact; returns what it appends to the queue. */
    method Visit(f: FactId, now: int, ghost w: World, ghost open: set<FactId>, ghost rest: set<FactId>)
      returns (more: seq<FactId>)
      requires Structured() && clock == now && f in facts && w == W()
      requires Settled(w, derived, sets, stamp, open) && open <= rest + {f}
      modifies this`derived, this`sets, this`stamp
      ensures Structured() && Settled(w, derived, sets, stamp, rest + Elements(more))
      ensures Affordable(w, children, f, more)
      ensures Kept(old(sets), old(stamp), sets, stamp)
      ensures Visited(children, f, old(derived), old(sets), derived, sets, more)
    {
      hide Ranked, Shape, Settled, Resolved, IndexRanked, RefreshedChildren, FromKids, Visited, Affordable, Kept;
      var newStatus := NewStatus(f);
      if newStatus != derived[f] {
        derived := derived[f := newStatus];
        more := RecomputeChildrenForParent(f, now, w);
        RefreshIsLocal(w, derived, now, children, f, old(sets), old(stamp), sets, stamp, more);
        StatusVisited(children, f, old(derived), newStatus, old(sets), sets, more);
        PopChanged(w, old(derived), old(sets), children, old(stamp), now, f, sets, stamp, open, rest + Elements(more));
      } else {
        more := [];
        NothingVisited(children, f, derived, sets);
        NothingAffordable(w, derived, sets, children, stamp, clock, collapsed, f);
        SameSetsKept(sets, stamp);
        PopUnchanged(w, derived, sets, stamp, f, open, rest + Elements(more));
      }
    }

    // ---- Mutations ----------------------------------------------------------------------------------

    /** Marks a root as Invalid. */
    method InvalidateRoot(f: FactId, now: int) returns (r: Outcome)
      requires Valid() && clock <= now
      modifies this`facts, this`collapsed, this`derived, this`sets, this`stamp, this`clock
      ensures Valid() && clock == now
      ensures Untouched(facts, f, old(derived), derived)
      ensures r == if f !in old(facts) then NotFound else if !old(facts)[f].isRoot then NotRoot else Done
      ensures facts == if r.Done? then old(facts)[f := old(facts)[f].(manual := INVALID)] else old(facts)
    {
      hide WellBuilt, Settled, ForestCurrent, Untouched;
      SameUntouched(facts, f, derived);
      ClockAdvances(W(), derived, sets, children, stamp, clock, now, collapsed);
      clock := now;
      if f !in facts {
        return NotFound;
      }
      if !facts[f].isRoot {
        return NotRoot;
      }
      if facts[f].manual == INVALID {
        return Done;
      }
      SetManual(f, INVALID, now);
      ForestSurvives();
      r := Done;
    }

    /** Changes the manual status of a root. */
    method SetRootConfidence(f: FactId, confidence: Status, now: int) returns (r: Outcome)
      requires Valid() && clock <= now
      modifies this`facts, this`collapsed, this`derived, this`sets, this`stamp, this`clock
      ensures Valid() && clock == now
      ensures Untouched(facts, f, old(derived), derived)
      ensures r == if f !in old(facts) then NotFound else if !old(facts)[f].isRoot then NotRoot else Done
      ensures facts == if r.Done? then old(facts)[f := old(facts)[f].(manual := confidence)] else old(facts)
    {
      hide WellBuilt, Settled, ForestCurrent, Untouched;
      SameUntouched(facts, f, derived);
      ClockAdvances(W(), derived, sets, children, stamp, clock, now, collapsed);
      clock := now;
      if f !in facts {
        return NotFound;
      }
      if !facts[f].isRoot {
        return NotRoot;
      }
      if facts[f].manual == confidence {
        return Done;
      }
      SetManual(f, confidence, now);
      ForestSurvives();
      r := Done;
    }

    /** The common tail of the two operations above. */
    method SetManual(f: FactId, confidence: Status, now: int)
      requires Consistent() && clock == now && f in facts && facts[f].isRoot
      modifies this`facts, this`collapsed, this`derived, this`sets, this`stamp
      ensures Consistent() && Kept(old(sets), old(stamp), sets, stamp)
      ensures facts == old(facts)[f := old(facts)[f].(manual := confidence)]
      ensures Untouched(facts, f, old(derived), derived)
    {
      hide *;
      ghost var w := W();
      ConsistentParts();
      WorldIs();
      BuiltCollapsed(w, derived, sets, children, stamp, clock, collapsed);
      CollapsedAfter(facts, f, confidence);
      NewConfidence(w, f, confidence);
      facts := facts[f := facts[f].(manual := confidence)];
      if confidence < THRESHOLD {
        collapsed := collapsed + {f};
      } else {
        collapsed := collapsed - {f};
      }
      WorldIs();
      MutationOpens(w, W(), derived, sets, children, stamp, clock, now, old(collapsed), collapsed, {}, f);
      JustOne(f);
      BuiltIsStructured();
      PropagateFrom(f, now);
    }

    /** Marks a fact as no longer usable. */
    method RetractFact(f: FactId, reason: string, now: int) returns (r: Outcome)
      requires Valid() && clock <= now
      modifies this`retracted, this`derived, this`sets, this`stamp, this`clock
      ensures Valid() && clock == now
      ensures Untouched(facts, f, old(derived), derived)
      ensures r == if f in facts then Done else NotFound
      ensures retracted == if r.Done? then old(retracted)[f := if reason == "" then "retracted" else reason]
        else old(retracted)
      ensures Kept(old(sets), old(stamp), sets, stamp)
    {
      hide WellBuilt, Settled, ForestCurrent, Untouched;
      SameUntouched(facts, f, derived);
      ClockAdvances(W(), derived, sets, children, stamp, clock, now, collapsed);
      clock := now;
      if f !in facts {
        return NotFound;
      }
      var why := if reason == "" then "retracted" else reason;
      if f in retracted && retracted[f] == why {
        return Done;
      }
      Retract(f, why, now);
      ForestSurvives();
      r := Done;
    }

    method Retract(f: FactId, reason: string, now: int)
      requires Consistent() && clock == now && f in facts
      modifies this`retracted, this`derived, this`sets, this`stamp
      ensures Consistent() && Kept(old(sets), old(stamp), sets, stamp) && retracted == old(retracted)[f := reason]
      ensures Untouched(facts, f, old(derived), derived)
    {
      hide Ranked, Shape, IndexRanked, Settled, CollapsedOf, Kept, Untouched;
      ghost var w := W();
      retracted := retracted[f := reason];
      MutationOpens(w, W(), derived, sets, children, stamp, clock, now, collapsed, collapsed, {}, f);
      JustOne(f);
      PropagateFrom(f, now);
    }

    /** Propagation from one fact moves nothing that does not depend on it. */
    method PropagateFrom(f: FactId, now: int)
      requires Structured() && clock == now && f in facts && Settled(W(), derived, sets, stamp, {f})
      modifies this`derived, this`sets, this`stamp
      ensures Consistent() && Kept(old(sets), old(stamp), sets, stamp) && Untouched(facts, f, old(derived), derived)
    {
      hide WellBuilt, Settled, Kept, Zone, Dependents, Outside, Untouched, Elements;
      JustOne(f);
      BuiltZone(W(), derived, sets, children, stamp, clock, collapsed, f);
      Propagate([f], now, {}, Dependents(facts, f));
      OutsideIsUntouched(facts, f, old(derived), old(sets), derived, sets);
    }

    /** Operations that keep the graph keep the dominator forest right. */
    twostate lemma ForestSurvives()
      requires old(!dirty ==> DominatorsCurrent()) && unchanged(this`dirty, this`rank, dominators)
      requires facts.Keys == old(facts).Keys && (forall f | f in facts :: facts[f].isRoot == old(facts)[f].isRoot)
      requires Kept(old(sets), old(stamp), sets, stamp)
      ensures !dirty ==> DominatorsCurrent()
    {
      hide ForestCurrent;
      if !dirty {
        ForestKept(old(facts), facts, rank, old(sets), sets, dominators.idom, dominators.setIDom, dominators.pre,
                   dominators.post);
      }
    }

    /** Turns expired facts into retractions, then propagates each. */
    method SweepExpiredFacts(now: int) returns (expired: seq<FactId>)
      requires Valid() && clock <= now
      modifies this`retracted, this`derived, this`sets, this`stamp, this`clock
      ensures Valid() && clock == now
      ensures Swept(facts, old(retracted), facts.Keys, now, expired)
      ensures retracted == MarkExpired(old(retracted), expired)
    {
      hide WellBuilt, Settled, MarkExpired, Swept, Elements, ForestCurrent;
      ClockAdvances(W(), derived, sets, children, stamp, clock, now, collapsed);
      clock := now;
      expired := [];
      SweepStarts(facts, retracted, now);
      var todo := facts.Keys;
      assert facts.Keys - todo == {};
      while todo != {}
        modifies this`retracted
        invariant todo <= facts.Keys && Structured()
        invariant Settled(W(), derived, sets, stamp, Elements(expired))
        invariant Swept(facts, old(retracted), facts.Keys - todo, now, expired)
        invariant retracted == MarkExpired(old(retracted), expired)
      {
        var f :| f in todo;
        assert facts.Keys - (todo - {f}) == facts.Keys - todo + {f};
        SweepContinues(facts, old(retracted), facts.Keys - todo, now, expired, f);
        todo := todo - {f};
        if facts[f].validUntil != 0 && now > facts[f].validUntil && f !in retracted {
          MarkOne(f, now, Elements(expired));
          expired := expired + [f];
        }
      }
      assert facts.Keys - todo == facts.Keys;
      AllIsZone(W(), derived, sets, children, stamp, clock, collapsed);
      SweptAreFacts(facts, old(retracted), facts.Keys, now, expired);
      PropagateEach(expired, now, facts.Keys);
      ForestSurvives();
    }

    method MarkOne(f: FactId, now: int, ghost open: set<FactId>)
      requires Structured() && Settled(W(), derived, sets, stamp, open) && f !in open && f in facts && clock == now
      modifies this`retracted
      ensures Structured() && Settled(W(), derived, sets, stamp, open + {f})
      ensures retracted == old(retracted)[f := "expired"]
    {
      hide Ranked, Shape, IndexRanked, Settled, CollapsedOf;
      ghost var w := W();
      retracted := retracted[f := "expired"];
      MutationOpens(w, W(), derived, sets, children, stamp, clock, now, collapsed, collapsed, open, f);
    }

    method PropagateEach(facts_: seq<FactId>, now: int, ghost zone: set<FactId>)
      requires Structured() && clock == now && Settled(W(), derived, sets, stamp, Elements(facts_))
      requires Elements(facts_) <= zone && Zone(children, zone)
      modifies this`derived, this`sets, this`stamp
      ensures Consistent() && Kept(old(sets), old(stamp), sets, stamp)
    {
      hide *;
      ghost var w := W();
      SameSetsKept(sets, stamp);
      WholeSlice(facts_);
      for i := 0 to |facts_|
        invariant Structured() && Settled(w, derived, sets, stamp, Elements(facts_[i..]))
        invariant Kept(old(sets), old(stamp), sets, stamp) && w == W()
      {
        OneInZone(facts_, i, zone);
        SliceElements(facts_, i);
        ghost var sets1, stamp1 := sets, stamp;
        Propagate([facts_[i]], now, Elements(facts_[i + 1..]), zone);
        KeptTwice(old(sets), old(stamp), sets1, stamp1, sets, stamp);
      }
      NoneOpen(facts_[|facts_|..], {});
      SettledIsConsistent();
    }

    lemma WorldIs()
      ensures W() == World(facts, retracted, rank)
    {}

    lemma ConsistentParts()
      requires Consistent()
      ensures WellBuilt(W(), derived, sets, children, stamp, clock, collapsed) && Settled(W(), derived, sets, stamp, {})
    {}

    lemma BuiltIsStructured()
      requires WellBuilt(W(), derived, sets, children, stamp, clock, collapsed)
      ensures Structured()
    {}

    lemma SettledIsConsistent()
      requires Structured() && Settled(W(), derived, sets, stamp, {})
      ensures Consistent()
    {
      hide WellBuilt, Settled;
    }

    /** Updates verification metadata; dependents are recomputed although no status of f itself moves. */
    method SetFactVerification(f: FactId, status: VerificationStatus, method_: string, sourceRef: string,
                               reason: string, verifiedAt: int, now: int)
      returns (r: Outcome)
      requires Valid() && clock <= now
      modifies this`facts, this`derived, this`sets, this`stamp, this`clock
      ensures Valid() && clock == now
      ensures Untouched(facts, f, old(derived), derived)
      ensures r == if f !in old(facts) then NotFound else if status == Unknown then BadStatus else Done
      ensures facts == if r.Done? then old(facts)[f := old(facts)[f].(verification :=
                Reverified(old(facts)[f].verification, status, method_, sourceRef, reason,
                           if verifiedAt == 0 then now else verifiedAt))]
              else old(facts)
      ensures r.Done? ==> DetailsKept(old(facts)[f].verification, facts[f].verification, method_, sourceRef, reason)
    {
      hide WellBuilt, Settled, ForestCurrent, Reverified, Untouched, DetailsKept;
      SameUntouched(facts, f, derived);
      ClockAdvances(W(), derived, sets, children, stamp, clock, now, collapsed);
      clock := now;
      if f !in facts {
        return NotFound;
      }
      if status == Unknown {
        return BadStatus;
      }
      var at := if verifiedAt == 0 then now else verifiedAt;
      RecordVerification(f, status, method_, sourceRef, reason, at, now);
      ForestSurvives();
      r := Done;
    }

    method RecordVerification(f: FactId, status: VerificationStatus, method_: string, sourceRef: string, reason: string,
                              at: int, now: int)
      requires Consistent() && clock == now && f in facts
      modifies this`facts, this`derived, this`sets, this`stamp
      ensures Consistent() && Kept(old(sets), old(stamp), sets, stamp)
      ensures facts == old(facts)[f := old(facts)[f].(verification :=
                Reverified(old(facts)[f].verification, status, method_, sourceRef, reason, at))]
      ensures DetailsKept(old(facts)[f].verification, facts[f].verification, method_, sourceRef, reason)
      ensures Untouched(facts, f, old(derived), derived)
    {
      hide WellBuilt, Settled, Kept, Untouched, Reverified, DetailsKept;
      ghost var w := W();
      var v := facts[f].verification.(status := status, verifiedAt := at);
      if method_ != "" {
        v := v.(method_ := method_);
      }
      if sourceRef != "" {
        v := v.(sourceRef := sourceRef);
      }
      if reason != "" {
        v := v.(reason := reason);
      }
      if status == Verified {
        v := v.(required := false);
      }
      ReverifiedIs(facts[f].verification, status, method_, sourceRef, reason, at, v);
      facts := facts[f := facts[f].(verification := v)];
      RefreshDependents(f, now, w);
    }

    method RefreshDependents(f: FactId, now: int, ghost w: World)
      requires WellBuilt(w, derived, sets, children, stamp, clock, collapsed) && Coherent(w, derived, sets, stamp)
      requires clock == now
      requires SameExceptAt(w, W(), f) && w.retracted == retracted && SameButVerification(w.facts[f], facts[f])
      modifies this`derived, this`sets, this`stamp
      ensures Consistent() && Kept(old(sets), old(stamp), sets, stamp) && Untouched(facts, f, old(derived), derived)
    {
      hide Ranked, Shape, IndexRanked, Settled, CollapsedOf;
      VerificationKeepsBuilt(w, W(), derived, sets, children, stamp, clock, collapsed, f);
      var queue := RecomputeChildrenForParent(f, now, W());
      SettledVerification(w, W(), derived, old(sets), children, old(stamp), f, now, sets, stamp, Elements(queue));
      RefreshIsLocal(W(), derived, now, children, f, old(sets), old(stamp), sets, stamp, queue);
      PropagateDependents(f, queue, now, old(sets), old(stamp));
    }

    /** Propagates what refreshing the dependents of f left open. */
    method PropagateDependents(f: FactId, queue: seq<FactId>, now: int, ghost sets0: Sets,
                               ghost stamp0: map<SetId, int>)
      requires Structured() && clock == now && f in facts && Settled(W(), derived, sets, stamp, Elements(queue))
      requires Kept(sets0, stamp0, sets, stamp) && Visited(children, f, derived, sets0, derived, sets, queue)
      modifies this`derived, this`sets, this`stamp
      ensures Consistent() && Kept(sets0, stamp0, sets, stamp) && Untouched(facts, f, old(derived), derived)
    {
      hide WellBuilt, Settled, Kept, Zone, Dependents, Outside, Untouched, Visited, Elements;
      ghost var zone, sets1, stamp1 := Dependents(facts, f), sets, stamp;
      BuiltZone(W(), derived, sets, children, stamp, clock, collapsed, f);
      OneInside(f, zone);
      NothingMoved(zone, derived, sets0);
      VisitStaysInside(children, zone, f, derived, sets0, derived, sets0, derived, sets, queue);
      assert Elements(queue) + {} == Elements(queue);
      if |queue| > 0 {
        Propagate(queue, now, {}, zone);
      } else {
        NoneOpen(queue, {});
        SameSetsKept(sets, stamp);
        NothingMoved(zone, derived, sets);
      }
      KeptTwice(sets0, stamp0, sets1, stamp1, sets, stamp);
      OutsideTwice(zone, old(derived), sets0, old(derived), sets1, derived, sets);
      OutsideIsUntouched(facts, f, old(derived), sets0, derived, sets);
    }

    /** Records a review. No status depends on it. */
    method SetFactReview(f: FactId, status: ReviewStatus, reason: string, reviewedAt: int, now: int)
      returns (r: Outcome)
      requires Valid() && clock <= now
      modifies this`facts, this`clock
      ensures Valid() && clock == now
      ensures r == if f !in old(facts) then NotFound else if status == NoReview then BadStatus else Done
      ensures facts == if r.Done?
        then old(facts)[f := Reviewed(old(facts)[f], status, reason, if reviewedAt == 0 then now else reviewedAt)]
              else old(facts)
    {
      hide WellBuilt, Settled, ForestCurrent, Reviewed, Kept;
      ClockAdvances(W(), derived, sets, children, stamp, clock, now, collapsed);
      clock := now;
      if f !in facts {
        return NotFound;
      }
      if status == NoReview {
        return BadStatus;
      }
      if facts[f].review.status == status {
        RepeatedReview(facts[f], status, reason, if reviewedAt == 0 then now else reviewedAt);
        return Done;
      }
      RecordReview(f, status, reason, if reviewedAt == 0 then now else reviewedAt);
      SameSetsKept(sets, stamp);
      ForestSurvives();
      r := Done;
    }

    method RecordReview(f: FactId, status: ReviewStatus, reason: string, at: int)
      requires Consistent() && f in facts && facts[f].review.status != status
      modifies this`facts
      ensures Consistent() && facts == old(facts)[f := Reviewed(old(facts)[f], status, reason, at)]
      ensures facts.Keys == old(facts).Keys && forall g | g in facts :: facts[g].isRoot == old(facts)[g].isRoot
    {
      hide WellBuilt, Settled;
      ghost var w := W();
      var fact := facts[f].(review := Review(status, reason, at));
      if status == Approved || status == Waived {
        fact := fact.(requiresHumanReview := false);
      }
      facts := facts[f := fact];
      ReviewKeepsBuilt(w, W(), derived, sets, children, stamp, clock, collapsed, f, status, reason, at);
    }

    // ---- Assertion -----------------------------------------------------------------------------------

    /** Inserts a new fact. Re-asserting the same content changes nothing; an error changes nothing. */
    method AssertFact(id: FactId, fact: Fact, now: int) returns (r: AssertResult)
      requires Valid() && clock <= now
      modifies this
      ensures Valid() && clock == now
      ensures Verdict(old(facts), id, fact, r)
      ensures facts == if r.Asserted? then old(facts)[id := Timed(fact, now)] else old(facts)
      ensures retracted == old(retracted)
      ensures r.Asserted? ==> dirty && OthersKept(id, old(derived), derived)
      ensures !r.Asserted? ==> unchanged(this`sets, this`children, this`derived, this`dirty)
    {
      hide WellBuilt, Settled, Verdict, Assertable, ForestCurrent, OthersKept, Timed;
      ClockAdvances(W(), derived, sets, children, stamp, clock, now, collapsed);
      clock := now;
      var timed := fact;
      if fact.assertedAt == 0 {
        timed := fact.(assertedAt := now);
      }
      TimedIs(fact, now, timed);
      r := ValidateAssert(id, timed);
      TimingIsNotContent(facts, id, fact, now, r);
      if !r.Asserted? {
        return;
      }
      Register(id, timed, now);
    }

    method ValidateAssert(id: FactId, fact: Fact) returns (r: AssertResult)
      requires Structured()
      ensures Verdict(facts, id, fact, r)
    {
      hide Ranked, CollapsedOf, IndexRanked, Assertable, Refuses;
      if |facts| >= MAX_FACTS {
        return CapExceeded;
      }
      if id in facts {
        if facts[id].isRoot == fact.isRoot && facts[id].manual == fact.manual && facts[id].payload == fact.payload &&
            facts[id].tokens == fact.tokens {
          return AlreadyPresent;
        }
        return Conflict;
      }
      r := CheckTokens(fact);
      if r.Asserted? {
        AssertableRefs(facts, fact);
        var check := Cycles.DetectCycle(facts, sets, children, id, fact);
        CheckIsClean(id, fact, check);
      }
    }

    method CheckTokens(fact: Fact) returns (r: AssertResult)
      ensures r.Asserted? <==> Assertable(facts, fact)
      ensures r.Asserted? || Refuses(facts, fact, r)
      ensures r.Asserted? || r.NoJustification? || r.EmptySet? || r.BadDependency? || r.UnknownParent?
    {
      if !fact.isRoot && |fact.tokens| == 0 {
        return NoJustification;
      }
      for i := 0 to |fact.tokens|
        invariant forall k | 0 <= k < i :: fact.tokens[k] != [] && GoodTokens(facts, fact.tokens[k])
      {
        var tokens := fact.tokens[i];
        if |tokens| == 0 {
          assert FineUpTo(facts, fact, i, 0);
          return EmptySet;
        }
        for n := 0 to |tokens|
          invariant forall k | 0 <= k < n ::
            ParseDependencyRef(tokens[k]).Success? && ParseDependencyRef(tokens[k]).value.id in facts
        {
          var parsed := ParseDependencyRef(tokens[n]);
          assert tokens[n] in tokens;
          assert GoodTokens(facts, tokens[..n]) && FineUpTo(facts, fact, i, n);
          if parsed.Failure? {
            assert !GoodTokens(facts, fact.tokens[i]);
            return BadDependency;
          }
          if parsed.value.id !in facts {
            assert !GoodTokens(facts, fact.tokens[i]);
            return UnknownParent(parsed.value.id);
          }
        }
      }
      r := Asserted;
    }

    method Register(id: FactId, fact: Fact, now: int)
      requires Consistent() && clock == now && id !in facts && Assertable(facts, fact) && |facts| < MAX_FACTS
      modifies this`facts, this`rank, this`dirty, this`derived, this`sets, this`children, this`stamp, this`collapsed
      ensures Consistent() && facts == old(facts)[id := fact] && dirty && OthersKept(id, old(derived), derived)
    {
      hide WellBuilt, Settled, Assertable, Registered, OthersKept;
      ghost var w := W();
      ghost var w' := World(facts[id := fact], retracted, rank[id := |facts|]);
      NewFactRegisters(w, derived, sets, children, stamp, clock, collapsed, id, fact, w');
      rank := rank[id := |facts|];
      facts := facts[id := fact];
      dirty := true;
      if fact.isRoot {
        InitializeRoot(id, now, w, w');
      } else {
        InitializeDerived(id, now, w, w');
      }
    }

    method InitializeRoot(id: FactId, now: int, ghost w: World, ghost w': World)
      requires w' == W() && Registered(w, w', derived, sets, children, stamp, clock, collapsed, id)
      requires id in facts && facts[id].isRoot && clock == now
      modifies this`derived, this`sets, this`stamp, this`collapsed
      ensures Consistent() && OthersKept(id, old(derived), derived)
    {
      hide *;
      WorldIs();
      RegisteredStarts(w, w', derived, sets, children, stamp, clock, collapsed, id, facts[id].manual);
      RegisteredIsPartial(w, w', derived, sets, children, stamp, clock, collapsed, id);
      RegisteredOpens(w, w', derived, sets, children, stamp, clock, collapsed, id, facts[id].manual, sets, children,
                      stamp, 0);
      derived := derived[id := facts[id].manual];
      if facts[id].manual < THRESHOLD {
        collapsed := collapsed + {id};
      }
      BuiltIsStructured();
      PropagateFrom(id, now);
      NewFactIsLocal(w, w', old(derived), old(sets), old(children), old(stamp), clock, old(collapsed), id,
                     facts[id].manual, derived);
    }

    method InitializeDerived(id: FactId, now: int, ghost w: World, ghost w': World)
      requires w' == W() && Registered(w, w', derived, sets, children, stamp, clock, collapsed, id)
      requires id in facts && !facts[id].isRoot && TokensParse(facts[id]) && clock == now
      modifies this`derived, this`sets, this`children, this`stamp
      ensures Consistent() && OthersKept(id, old(derived), derived)
    {
      hide WellBuilt, Registered, Untouched, OthersKept, Settled, CollapsedOf, PartialShape, Entered, Cache.Extends,
           TokensParse;
      ghost var derived0 := derived;
      RegisteredStarts(w, w', derived, sets, children, stamp, clock, collapsed, id, INVALID);
      RegisteredIsPartial(w, w', derived, sets, children, stamp, clock, collapsed, id);
      derived := derived[id := INVALID];
      EnterSets(id, now, w, w');
      RegisteredOpens(w, w', derived0, old(sets), old(children), old(stamp), clock, collapsed, id, INVALID, sets,
                      children, stamp, |facts[id].tokens|);
      PropagateFrom(id, now);
      NewFactIsLocal(w, w', old(derived), old(sets), old(children), old(stamp), clock, old(collapsed), id, INVALID,
                     derived);
    }

    /** Builds the justification sets of a registered derived fact, in order. */
    method EnterSets(id: FactId, now: int, ghost w: World, ghost w': World)
      requires w' == W() && id in facts && derived.Keys == facts.Keys && id !in w.facts && TokensParse(facts[id])
      requires PartialShape(w, w', id, 0, sets, children)
      requires Entered(w', derived, id, now, sets, stamp, sets, stamp)
      modifies this`sets, this`children, this`stamp
      ensures PartialShape(w, w', id, |facts[id].tokens|, sets, children)
      ensures Entered(w', derived, id, now, old(sets), old(stamp), sets, stamp)
    {
      hide PartialShape, Entered, Refreshed, SetShape, Indexed;
      var n := |facts[id].tokens|;
      for i := 0 to n
        invariant PartialShape(w, w', id, i, sets, children)
        invariant Entered(w', derived, id, now, old(sets), old(stamp), sets, stamp)
      {
        var j := SetId(id, i);
        NotYetEntered(w, w', id, i, sets, children);
        ghost var before := children;
        var js := NewJustificationSet(j, now, w');
        PartialShapeGrows(w, w', id, i, sets, before, js, children);
        EnteredGrows(w', derived, id, now, old(sets), old(stamp), sets, stamp, j, js);
        sets := sets[j := js];
        stamp := stamp[j := now];
      }
    }

    method NewJustificationSet(j: SetId, now: int, ghost w: World) returns (js: JSet)
      requires w == W() && j.fact in facts && derived.Keys == facts.Keys
      requires j.index < |facts[j.fact].tokens| && AllParse(facts[j.fact].tokens[j.index])
      modifies this`children
      ensures SetShape(facts[j.fact], j, js) && js == Refreshed(w, derived, now, j, js)
      ensures Indexed(old(children), children, j, js)
    {
      hide Readings, Holds, Contribution, DependencySet.Refs;
      var split := SplitDependencySet(facts[j.fact].tokens[j.index]);
      var deps := split.value;
      IndexUnder(deps.positive, j);
      IndexUnder(deps.negative, j);
      var validCount, minConf := ComputeJustificationSetParents(deps, j.fact, now, w, Readings(w, derived, now));
      var target := |deps.positive| + |deps.negative|;
      js := JSet(j.fact, deps, target, validCount, if validCount == target then minConf else INVALID);
    }

    method IndexUnder(parents: seq<FactId>, j: SetId)
      modifies this`children
      ensures forall p :: Kids(children, p) == if p in parents then Kids(old(children), p) + {j}
        else Kids(old(children), p)
    {
      for i := 0 to |parents|
        invariant forall p :: Kids(children, p) == if p in parents[..i] then Kids(old(children), p) + {j}
          else Kids(old(children), p)
      {
        ghost var before := children;
        var p := parents[i];
        assert parents[..i + 1] == parents[..i] + [p];
        children := children[p := Kids(children, p) + {j}];
        assert forall q :: Kids(children, q) == if q == p then Kids(before, q) + {j} else Kids(before, q);
      }
      assert parents[..|parents|] == parents;
    }

    /** The unknown-parent check has already excluded everything cycle detection could find. */
    lemma CheckIsClean(id: FactId, fact: Fact, check: Cycles.CycleCheck)
      requires Shape(W(), sets, children) && id !in facts && TokensParse(fact)
      requires forall i, r | r in SetRefs(fact, i) :: r.id in facts
      requires check.BadToken? ==> !TokensParse(fact)
      requires check.CycleError? ==> exists d, i, n ::
        Cycles.DeclaresAt(fact, d, i, n) &&
        Cycles.ReportedPath(Cycles.IndexEdges(sets, children), false, id, check.path, d)
      ensures check.NoCycle?
    {
      if check.CycleError? {
        var d, i, n :| Cycles.DeclaresAt(fact, d, i, n) &&
                       Cycles.ReportedPath(Cycles.IndexEdges(sets, children), false, id, check.path, d);
        Cycles.TokenIsRef(fact, d, i, n);
        Cycles.NewFactUnreachable(W(), sets, children, id, d.id);
      }
    }

    // ---- Status queries --------------------------------------------------------------------------------

    /** The resolved status of a fact, using the dominator intervals to skip facts under collapsed roots. */
    method GetStatus(f: FactId, now: int) returns (status: Status)
      requires Valid()
      modifies this`dirty, dominators
      ensures Valid() && !dirty && (!old(dirty) ==> unchanged(dominators))
      ensures f !in facts ==> status == INVALID
      ensures f in facts ==> status == Pruned(dominators.idom, rank, collapsed, f, Read(W(), f, derived[f], now))
      ensures f in facts && Conjunctive(W()) ==>
                status == if Read(W(), f, derived[f], now) < THRESHOLD then INVALID else Read(W(), f, derived[f], now)
    {
      hide WellBuilt, Settled, ForestCurrent, Conjunctive, Pruned;
      if dirty {
        BuiltIsIndexable(W(), derived, sets, children, stamp, clock, collapsed);
        dominators.Recompute(facts, sets, children, rank);
        CurrentForest();
        dirty := false;
      }
      if f !in facts {
        return INVALID;
      }
      BuiltKeys(W(), derived, sets, children, stamp, clock, collapsed);
      var current := EffectiveStatus(f, now);
      status := PruneIfDominated(f, current);
      NotWronglyPruned(f, now);
    }

    lemma CurrentForest()
      requires DominatorsRight(facts, rank, sets, dominators.idom, dominators.setIDom)
      requires IntervalsRight(facts, rank, dominators.idom, dominators.pre, dominators.post)
      ensures DominatorsCurrent()
    {}

    /** The final part of a status query. */
    method PruneIfDominated(f: FactId, current: Status) returns (status: Status)
      requires f in facts && DominatorsCurrent() && collapsed <= facts.Keys
      ensures status == Pruned(dominators.idom, rank, collapsed, f, current)
    {
      assert IntervalsRight(facts, rank, dominators.idom, dominators.pre, dominators.post);
      hide DominatorsRight, OnPath;
      if current < THRESHOLD {
        return INVALID;
      }
      var todo := collapsed;
      while todo != {}
        invariant todo <= collapsed
        invariant forall root | root in collapsed && root !in todo :: !OnPath(dominators.idom, rank, root, f)
      {
        var root :| root in todo;
        if dominators.IsDominatorAncestor(root, f, facts) {
          return INVALID;
        }
        todo := todo - {root};
      }
      status := current;
    }

    lemma NotWronglyPruned(f: FactId, now: int)
      requires Consistent() && DominatorsCurrent() && f in facts && f in derived
      ensures Conjunctive(W()) && Read(W(), f, derived[f], now) >= THRESHOLD ==>
                Pruned(dominators.idom, rank, collapsed, f, Read(W(), f, derived[f], now)) ==
                Read(W(), f, derived[f], now)
      ensures Read(W(), f, derived[f], now) < THRESHOLD ==>
                Pruned(dominators.idom, rank, collapsed, f, Read(W(), f, derived[f], now)) == INVALID
    {
      hide WellBuilt, Settled, DominatorsRight, IntervalsRight, Conjunctive, OnPath;
      if Conjunctive(W()) && Read(W(), f, derived[f], now) >= THRESHOLD {
        EffectiveIsDerived(W(), derived, sets, stamp, f, now);
        forall root | root in collapsed ensures !OnPath(dominators.idom, rank, root, f) {
          NoCollapsedDominator(W(), derived, sets, children, stamp, clock, collapsed, dominators.idom,
                               dominators.setIDom, root, f);
        }
      }
    }

    // ---- Snapshots ---------------------------------------------------------------------------------------

    method ToSnapshot() returns (s: Snapshot)
      requires Consistent()
      ensures s == Snapshot(facts, derived, sets, children, collapsed, retracted, true)
    {
      s := Snapshot(facts, derived, sets, children, collapsed, retracted, true);
    }

    /** Replaces the state by a snapshot whose graph passes the checks; refuses it otherwise. */
    method FromSnapshot(s: Snapshot, ghost rank': map<FactId, nat>, ghost stamp': map<SetId, int>, ghost clock': int)
      returns (r: RestoreResult)
      modifies this
      ensures r.Restored? <==> Acceptable(s)
      ensures r.BadGraph? && r.check.Cyclic? ==> IsCycle(Cycles.DependencyEdges(s.facts), r.check.path)
      ensures r.Restored? ==> facts == s.facts && retracted == s.retracted && clock == clock' && dirty
      ensures r.Restored? ==>
        derived == s.derived && sets == s.sets && children == s.children && collapsed == s.collapsed
      ensures r.Restored? && SoundSnapshot(s, rank', stamp', clock') ==> Valid()
      ensures SoundSnapshot(s, rank', stamp', clock') ==> r.Restored?
      ensures !r.Restored? ==> unchanged(this)
    {
      hide WellBuilt, Settled, Acyclic, IsCycle, Cycles.WellFormed, SoundSnapshot, Engine.Valid, Cycles.DependencyEdges;
      if SoundSnapshot(s, rank', stamp', clock') {
        SoundSnapshotIsAccepted(s, rank', stamp', clock');
      }
      if !s.intact {
        return Damaged;
      }
      if |s.facts| > MAX_FACTS {
        return TooManyFacts;
      }
      var check := Cycles.ValidateGraph(s.facts);
      if !check.Accepted? {
        return BadGraph(check);
      }
      LoadFacts(s);
      LoadIndex(s);
      rank, stamp, clock := rank', stamp', clock';
      if SoundSnapshot(s, rank', stamp', clock') {
        LoadedIsValid(s);
      }
      r := Restored;
    }

    method LoadFacts(s: Snapshot)
      modifies this`facts, this`derived, this`retracted, this`dirty
      ensures facts == s.facts && derived == s.derived && retracted == s.retracted && dirty
    {
      facts, derived, retracted, dirty := s.facts, s.derived, s.retracted, true;
    }

    method LoadIndex(s: Snapshot)
      modifies this`sets, this`children, this`collapsed
      ensures sets == s.sets && children == s.children && collapsed == s.collapsed
    {
      sets, children, collapsed := s.sets, s.children, s.collapsed;
    }

    lemma LoadedIsValid(s: Snapshot)
      requires s == Snapshot(facts, derived, sets, children, collapsed, retracted, s.intact) && dirty
      requires SoundSnapshot(s, rank, stamp, clock)
      ensures Valid()
    {
      hide WellBuilt, Settled;
    }
  }

  /** Saving an engine and restoring the copy elsewhere gives the same facts, retractions and statuses, and an engine
      that is as exact as the one saved. */
  method SaveAndRestore(e: Engine) returns (copy: Engine)
    requires e.Valid()
    ensures fresh(copy) && copy.Valid() && copy.clock == e.clock
    ensures copy.facts == e.facts && copy.retracted == e.retracted
    ensures copy.derived == e.derived && copy.sets == e.sets
  {
    assert SoundSnapshot(Snapshot(e.facts, e.derived, e.sets, e.children, e.collapsed, e.retracted, true), e.rank,
                         e.stamp, e.clock) by {
      hide WellBuilt, Settled;
    }
    hide Engine.Consistent, Engine.DominatorsCurrent, SoundSnapshot;
    var s := e.ToSnapshot();
    copy := new Engine();
    var r := copy.FromSnapshot(s, e.rank, e.stamp, e.clock);
  }

  /** The facts of an engine after it was offered one more. */
  ghost function Offered(facts: map<FactId, Fact>, id: FactId, fact: Fact): map<FactId, Fact> {
    if |facts| < MAX_FACTS && id !in facts && Assertable(facts, fact) then facts[id := fact] else facts
  }

  lemma TimedIsAssertable(facts: map<FactId, Fact>, fact: Fact, now: int)
    ensures Assertable(facts, Timed(fact, now)) <==> Assertable(facts, fact)
  {}

  /** Asserts a fact into an engine, whatever comes of it. */
  method Offer(e: Engine, id: FactId, fact: Fact, now: int)
    requires e.Valid() && e.clock <= now
    modifies e
    ensures e.Valid() && e.clock <= now && e.retracted == old(e.retracted)
    ensures e.facts == Offered(old(e.facts), id, Timed(fact, now))
  {
    hide Engine.Valid, Assertable, SameContent, OthersKept;
    var _ := e.AssertFact(id, fact, now);
    TimedIsAssertable(old(e.facts), fact, now);
  }

  lemma BuiltKeys(w: World, derived: map<FactId, Status>, sets: Sets, children: Children, stamp: map<SetId, int>,
                  clock: int, collapsed: set<FactId>)
    requires WellBuilt(w, derived, sets, children, stamp, clock, collapsed)
    ensures derived.Keys == w.facts.Keys && collapsed <= w.facts.Keys
  {}

  lemma TimingIsNotContent(facts: map<FactId, Fact>, id: FactId, fact: Fact, now: int, r: AssertResult)
    requires Verdict(facts, id, Timed(fact, now), r)
    ensures Verdict(facts, id, fact, r)
    ensures r.Asserted? ==> id !in facts && Assertable(facts, Timed(fact, now)) && |facts| < MAX_FACTS
  {}

  lemma BuiltIsBounded(w: World, derived: map<FactId, Status>, sets: Sets, children: Children, stamp: map<SetId, int>,
                       clock: int, collapsed: set<FactId>)
    requires WellBuilt(w, derived, sets, children, stamp, clock, collapsed)
    ensures forall f | f in w.rank :: w.rank[f] < |w.facts|
  {}

  lemma NewFactRegisters(w: World, derived: map<FactId, Status>, sets: Sets, children: Children, stamp: map<SetId, int>,
                         clock: int, collapsed: set<FactId>, x: FactId, fact: Fact, w': World)
    requires WellBuilt(w, derived, sets, children, stamp, clock, collapsed) && Coherent(w, derived, sets, stamp)
    requires x !in w.facts && Assertable(w.facts, fact) && |w.facts| < MAX_FACTS
    requires w' == World(w.facts[x := fact], w.retracted, w.rank[x := |w.facts|])
    ensures Registered(w, w', derived, sets, children, stamp, clock, collapsed, x)
    ensures TokensParse(fact)
  {
    hide Ranked, Shape, Settled, CollapsedOf, Assertable, PartialShape;
    BuiltIsBounded(w, derived, sets, children, stamp, clock, collapsed);
    RegisterKeepsRanked(w, x, fact, w');
    PartialShapeStarts(w, w', x, sets, children);
    AssertableRefs(w.facts, fact);
  }

  lemma RegisteredIsPartial(w: World, w': World, derived: map<FactId, Status>, sets: Sets, children: Children,
                            stamp: map<SetId, int>, clock: int, collapsed: set<FactId>, x: FactId)
    requires Registered(w, w', derived, sets, children, stamp, clock, collapsed, x)
    ensures PartialShape(w, w', x, 0, sets, children)
  {}

  lemma NotYetEntered(w: World, w': World, x: FactId, n: nat, sets: Sets, children: Children)
    requires PartialShape(w, w', x, n, sets, children) && x !in w.facts
    ensures SetId(x, n) !in sets
  {}
}
