/** What status queries answer next to what propagation computes, over every assignment of root confidences. */
module Queries {
  import opened Facts
  import opened Strings
  import opened Semantics
  import opened Cache
  import opened Dominators
  import opened Digraph
  import opened Engines
  import opened Exactness
  import opened Derivations
  import Cycles

  // ---- Assignments of root confidences -------------------------------------------------------------------

  ghost function AssignedFact(fact: Fact, f: FactId, m: map<FactId, Status>): Fact {
    if fact.isRoot && f in m then fact.(manual := m[f]) else fact
  }

  /** The world once the roots named by m have the confidences m gives them. */
  ghost function Assigned(w: World, m: map<FactId, Status>): World {
    w.(facts := map f | f in w.facts :: AssignedFact(w.facts[f], f, m))
  }

  /** r is Invalid and every other root Valid. */
  ghost function AllBut(w: World, r: FactId): map<FactId, Status> {
    map f | f in w.facts && w.facts[f].isRoot :: if f == r then INVALID else VALID
  }

  /** The worlds differ at most in the confidences of their roots. */
  ghost predicate SameButRoots(w1: World, w2: World) {
    w1.facts.Keys == w2.facts.Keys && w1.retracted == w2.retracted && w1.rank == w2.rank &&
    forall f | f in w1.facts :: w2.facts[f] == if w1.facts[f].isRoot then w1.facts[f].(manual := w2.facts[f].manual)
      else w1.facts[f]
  }

  lemma AssignedIsSame(w: World, m: map<FactId, Status>, now: int)
    requires Ranked(w) && Quiet(w, now)
    ensures SameButRoots(w, Assigned(w, m)) && Ranked(Assigned(w, m)) && Quiet(Assigned(w, m), now)
  {
    assert SameButRoots(w, Assigned(w, m)) by { hide Ranked, Quiet; }
    hide Assigned;
    SameIsRanked(w, Assigned(w, m));
    assert Quiet(Assigned(w, m), now) by { hide Ranked; }
  }

  lemma SameIsRanked(w1: World, w2: World)
    requires Ranked(w1) && SameButRoots(w1, w2)
    ensures Ranked(w2)
  {
    hide AllParse;
    forall f | f in w2.facts ensures TokensParse(w2.facts[f]) {
      assert TokensParse(w1.facts[f]);
    }
    hide TokensParse;
    forall f, i, r | f in w2.facts && r in SetRefs(w2.facts[f], i)
      ensures r.id in w2.facts && w2.rank[r.id] < w2.rank[f]
    {
      assert r in SetRefs(w1.facts[f], i);
    }
  }

  /** Neither f nor anything it rests on has a negated dependency. */
  ghost predicate PositiveAbove(w: World, f: FactId) {
    f in w.facts && forall g | g in w.facts && !w.facts[g].isRoot && f in Dependents(w.facts, g) :: Positive(w, g)
  }

  lemma PositiveParent(w: World, f: FactId, i: nat, r: DepRef)
    requires Ranked(w) && PositiveAbove(w, f) && r in SetRefs(w.facts[f], i)
    ensures r.id in w.facts && w.rank[r.id] < w.rank[f] && PositiveAbove(w, r.id)
  {
    var edges := Cycles.DependencyEdges(w.facts);
    assert Cycles.DependsOn(w.facts[f], r.id) && (r.id, f) in edges;
    EdgeReaches(edges, r.id, f);
    hide Reaches, Cycles.DependencyEdges, Positive;
    forall g | g in w.facts && !w.facts[g].isRoot && r.id in Dependents(w.facts, g) ensures Positive(w, g) {
      ReachesTransitive(edges, g, r.id, f);
    }
  }

  lemma PositiveSelf(w: World, f: FactId)
    requires PositiveAbove(w, f) && !w.facts[f].isRoot
    ensures Positive(w, f)
  {
    ReachesSelf(Cycles.DependencyEdges(w.facts), f);
    hide Reaches, Cycles.DependencyEdges, Positive;
  }

  /** Without negation, raising roots to the threshold and above never brings a fact below it. */
  lemma {:induction false} RootsDecide(w1: World, w2: World, now: int, f: FactId)
    requires Ranked(w1) && Ranked(w2) && Quiet(w1, now) && Quiet(w2, now) && SameButRoots(w1, w2)
    requires PositiveAbove(w1, f)
    requires forall g | g in w1.facts && w1.facts[g].isRoot && Truth(w1, now, g) >= THRESHOLD ::
      Truth(w2, now, g) >= THRESHOLD
    ensures Truth(w1, now, f) >= THRESHOLD ==> Truth(w2, now, f) >= THRESHOLD
    decreases w1.rank[f]
  {
    if !w1.facts[f].isRoot && Truth(w1, now, f) >= THRESHOLD {
      PositiveSelf(w1, f);
      if f in w1.retracted { RetractedIsDown(w1, now, f); }
      hide Ranked, Quiet, Truth, PositiveAbove, Supported;
      TruthByDerivation(w1, now, f);
      var i: nat :| i < |w1.facts[f].tokens| && Supported(w1, now, f, i);
      forall r | r in SetRefs(w1.facts[f], i)
        ensures r.id in w1.facts && (Truth(w1, now, r.id) >= THRESHOLD ==> Truth(w2, now, r.id) >= THRESHOLD)
      {
        PositiveParent(w1, f, i, r);
        RootsDecide(w1, w2, now, r.id);
      }
      StillSupported(w1, w2, now, f, i);
      hide Positive;
      TruthByDerivation(w2, now, f);
    }
  }

  lemma StillSupported(w1: World, w2: World, now: int, f: FactId, i: nat)
    requires Ranked(w1) && Ranked(w2) && SameButRoots(w1, w2) && f in w1.facts && !w1.facts[f].isRoot
    requires Positive(w1, f) && Supported(w1, now, f, i)
    requires forall r | r in SetRefs(w1.facts[f], i) ::
               r.id in w1.facts && (Truth(w1, now, r.id) >= THRESHOLD ==> Truth(w2, now, r.id) >= THRESHOLD)
    ensures Supported(w2, now, f, i)
  {
    assert w1.facts[f] == w2.facts[f];
    hide Truth, Ranked, SetRefs;
    forall r | r in SetRefs(w2.facts[f], i) ensures Meets(w2, now, f, r) {
      assert Meets(w1, now, f, r) && !r.negated;
      assert Grounded(w1.facts[r.id], w1.facts[f], now) <==> Grounded(w2.facts[r.id], w2.facts[f], now);
    }
  }

  // ---- When a query is right -----------------------------------------------------------------------------

  /** What a query answers about f in this world, the dominator forest being idom. */
  ghost function Answer(w: World, idom: IDom, now: int, f: FactId): Status
    requires Ranked(w) && f in w.facts
  {
    Pruned(idom, w.rank, CollapsedOf(w.facts), f, Truth(w, now, f))
  }

  /** The query answers the propagated status, or Invalid when that is below the threshold. */
  ghost predicate Right(w: World, idom: IDom, now: int, f: FactId) {
    Ranked(w) && f in w.facts && Answer(w, idom, now, f) == if Truth(w, now, f) < THRESHOLD then INVALID
      else Truth(w, now, f)
  }

  lemma WrongMeans(w: World, idom: IDom, now: int, f: FactId)
    requires Ranked(w) && f in w.facts
    ensures Right(w, idom, now, f) <==>
      (Truth(w, now, f) >= THRESHOLD ==> forall r :: r in CollapsedOf(w.facts) ==> !OnPath(idom, w.rank, r, f))
  {
    hide Truth, Ranked, OnPath, CollapsedOf;
  }

  ghost predicate RootAbove(w: World, idom: IDom, f: FactId, r: FactId) {
    r in w.facts && w.facts[r].isRoot && OnPath(idom, w.rank, r, f)
  }

  /** The fact is below the threshold. */
  ghost predicate Low(w: World, now: int, f: FactId) {
    Ranked(w) && f in w.facts && Truth(w, now, f) < THRESHOLD
  }

  /** Without root r, f does not stand even when every other root does. */
  ghost predicate Needs(w: World, now: int, f: FactId, r: FactId) {
    Low(Assigned(w, AllBut(w, r)), now, f)
  }

  lemma RootTruth(w: World, now: int, g: FactId)
    requires Ranked(w) && g in w.facts && w.facts[g].isRoot
    ensures Truth(w, now, g) == if g in w.retracted then INVALID else w.facts[g].manual
  {}

  /** r being below the threshold, every root that stands also stands when r alone is Invalid. */
  lemma RootsWithout(w: World, now: int, m: map<FactId, Status>, r: FactId, g: FactId)
    requires Ranked(Assigned(w, m)) && Ranked(Assigned(w, AllBut(w, r))) && r in CollapsedOf(Assigned(w, m).facts)
    requires g in w.facts && w.facts[g].isRoot && Truth(Assigned(w, m), now, g) >= THRESHOLD
    ensures Truth(Assigned(w, AllBut(w, r)), now, g) >= THRESHOLD
  {
    RootTruth(Assigned(w, m), now, g);
    RootTruth(Assigned(w, AllBut(w, r)), now, g);
    hide Truth, Ranked;
  }

  /** r being below the threshold, f stands at most where it stands with r alone Invalid. */
  lemma WorstWithout(w: World, now: int, f: FactId, m: map<FactId, Status>, r: FactId)
    requires Ranked(w) && Quiet(w, now) && PositiveAbove(w, f) && Needs(w, now, f, r)
    requires r in CollapsedOf(Assigned(w, m).facts)
    ensures Low(Assigned(w, m), now, f)
  {
    var w1, w2 := Assigned(w, m), Assigned(w, AllBut(w, r));
    AssignedIsSame(w, m, now);
    AssignedIsSame(w, AllBut(w, r), now);
    hide Ranked, Quiet, Truth, PositiveAbove, Assigned, CollapsedOf, AllBut;
    forall g | g in w1.facts && w1.facts[g].isRoot && Truth(w1, now, g) >= THRESHOLD
      ensures Truth(w2, now, g) >= THRESHOLD
    {
      RootsWithout(w, now, m, r, g);
    }
    SameAbove(w, w1, f);
    BothSame(w, w1, w2);
    RootsDecide(w1, w2, now, f);
  }

  lemma BothSame(w: World, w1: World, w2: World)
    requires SameButRoots(w, w1) && SameButRoots(w, w2)
    ensures SameButRoots(w1, w2)
  {}

  lemma SameAbove(w: World, w1: World, f: FactId)
    requires SameButRoots(w, w1) && PositiveAbove(w, f)
    ensures PositiveAbove(w1, f)
  {
    var before, after := Cycles.DependencyEdges(w.facts), Cycles.DependencyEdges(w1.facts);
    forall a, b ensures (a, b) in before <==> (a, b) in after {
      if a in w.facts && b in w.facts {
        SameTokensSameParents(w.facts[b], w1.facts[b], a);
      }
    }
    assert before == after;
    hide Reaches, Cycles.DependencyEdges;
  }

  lemma SameTokensSameParents(a: Fact, b: Fact, p: FactId)
    requires a.tokens == b.tokens
    ensures Cycles.DependsOn(a, p) <==> Cycles.DependsOn(b, p)
  {
    assert forall i :: SetRefs(a, i) == SetRefs(b, i);
  }

  /** Queries about f are right under every assignment of root confidences exactly when f needs every root on its
      dominator path. */
  lemma PruningIsRightExactly(w: World, idom: IDom, now: int, f: FactId)
    requires Ranked(w) && Quiet(w, now) && PositiveAbove(w, f)
    ensures (forall m: map<FactId, Status> :: Right(Assigned(w, m), idom, now, f)) <==>
            (forall r | RootAbove(w, idom, f, r) :: Needs(w, now, f, r))
  {
    assert f in w.facts;
    hide Quiet, Ranked, PositiveAbove, OnPath, Right, Needs, RootAbove;
    if forall r | RootAbove(w, idom, f, r) :: Needs(w, now, f, r) {
      forall m: map<FactId, Status> ensures Right(Assigned(w, m), idom, now, f) {
        RightUnder(w, idom, now, f, m);
      }
    }
    if forall m: map<FactId, Status> :: Right(Assigned(w, m), idom, now, f) {
      forall r | RootAbove(w, idom, f, r) ensures Needs(w, now, f, r) {
        assert Right(Assigned(w, AllBut(w, r)), idom, now, f);
        WrongWithout(w, idom, now, f, r);
      }
    }
  }

  lemma RightUnder(w: World, idom: IDom, now: int, f: FactId, m: map<FactId, Status>)
    requires Ranked(w) && Quiet(w, now) && PositiveAbove(w, f)
    requires forall r | RootAbove(w, idom, f, r) :: Needs(w, now, f, r)
    ensures Right(Assigned(w, m), idom, now, f)
  {
    AssignedIsSame(w, m, now);
    assert f in w.facts;
    hide Quiet, Ranked, PositiveAbove, OnPath, Truth, Right, Needs;
    WrongMeans(Assigned(w, m), idom, now, f);
    forall r | r in CollapsedOf(Assigned(w, m).facts) && OnPath(idom, w.rank, r, f)
      ensures Low(Assigned(w, m), now, f)
    {
      assert RootAbove(w, idom, f, r);
      WorstWithout(w, now, f, m, r);
    }
  }

  /** The other half: about a fact that does not need a root on its path, some query is answered wrongly. */
  lemma WrongWithout(w: World, idom: IDom, now: int, f: FactId, r: FactId)
    requires Ranked(w) && Quiet(w, now) && f in w.facts && RootAbove(w, idom, f, r)
    ensures Right(Assigned(w, AllBut(w, r)), idom, now, f) <==> Needs(w, now, f, r)
    ensures Ranked(Assigned(w, AllBut(w, r))) && f in Assigned(w, AllBut(w, r)).facts
    ensures !Needs(w, now, f, r) ==> Answer(Assigned(w, AllBut(w, r)), idom, now, f) == INVALID
  {
    AssignedIsSame(w, AllBut(w, r), now);
    hide Quiet, Ranked, OnPath, Truth, Right;
    WrongMeans(Assigned(w, AllBut(w, r)), idom, now, f);
    assert r in CollapsedOf(Assigned(w, AllBut(w, r)).facts);
  }

  // ---- With negation ---------------------------------------------------------------------------------------

  /** Neither at the threshold nor as far down as a negation needs. */
  const GREY: Status := 0.5

  /** All that a derivation sees of a status. */
  ghost predicate SameLevel(a: Status, b: Status) {
    (a >= THRESHOLD <==> b >= THRESHOLD) && (a <= VALID - THRESHOLD <==> b <= VALID - THRESHOLD)
  }

  ghost function Snap(a: Status): (s: Status)
    ensures SameLevel(a, s)
  {
    if a >= THRESHOLD then VALID else if a <= VALID - THRESHOLD then INVALID else GREY
  }

  /** The confidences of all roots under an assignment, each replaced by the one that stands for its level. */
  ghost function Snapped(w: World, m: map<FactId, Status>): map<FactId, Status> {
    map f | f in w.facts && w.facts[f].isRoot :: Snap(if f in m then m[f] else w.facts[f].manual)
  }

  /** Every root is Valid, Invalid or in between. */
  ghost predicate ThreeValued(w: World, m: map<FactId, Status>) {
    (forall f :: f in m <==> f in w.facts && w.facts[f].isRoot) &&
    forall f | f in m :: m[f] == VALID || m[f] == INVALID || m[f] == GREY
  }

  /** Roots of the same levels give every fact the same level, whatever is negated. */
  lemma {:induction false} LevelsDecide(w1: World, w2: World, now: int, f: FactId)
    requires Ranked(w1) && Ranked(w2) && Quiet(w1, now) && Quiet(w2, now) && SameButRoots(w1, w2) && f in w1.facts
    requires forall g | g in w1.facts && w1.facts[g].isRoot :: SameLevel(Truth(w1, now, g), Truth(w2, now, g))
    ensures SameLevel(Truth(w1, now, f), Truth(w2, now, f))
    decreases w1.rank[f]
  {
    if f in w1.retracted {
      RetractedIsDown(w1, now, f);
      RetractedIsDown(w2, now, f);
    } else if !w1.facts[f].isRoot {
      assert w1.facts[f] == w2.facts[f] && f !in w2.retracted;
      hide Truth, Supported, Meets;
      TruthByDerivation(w1, now, f);
      TruthByDerivation(w2, now, f);
      forall i: nat | i < |w1.facts[f].tokens| ensures Supported(w1, now, f, i) <==> Supported(w2, now, f, i) {
        forall r | r in SetRefs(w1.facts[f], i)
          ensures r.id in w1.facts && SameLevel(Truth(w1, now, r.id), Truth(w2, now, r.id))
        {
          LevelsDecide(w1, w2, now, r.id);
        }
        hide Ranked, Quiet;
        SameSupport(w1, w2, now, f, i);
      }
    }
  }

  lemma SameSupport(w1: World, w2: World, now: int, f: FactId, i: nat)
    requires Ranked(w1) && Ranked(w2) && SameButRoots(w1, w2) && f in w1.facts && !w1.facts[f].isRoot
    requires forall r | r in SetRefs(w1.facts[f], i) ::
      r.id in w1.facts && SameLevel(Truth(w1, now, r.id), Truth(w2, now, r.id))
    ensures Supported(w1, now, f, i) <==> Supported(w2, now, f, i)
  {
    assert w1.facts[f] == w2.facts[f];
    hide Truth, Ranked, SetRefs;
    forall r | r in SetRefs(w1.facts[f], i) ensures Meets(w1, now, f, r) <==> Meets(w2, now, f, r) {
      assert Grounded(w1.facts[r.id], w1.facts[f], now) <==> Grounded(w2.facts[r.id], w2.facts[f], now);
    }
  }

  lemma SameKeys(w1: World, w2: World)
    requires SameButRoots(w1, w2)
    ensures w1.facts.Keys == w2.facts.Keys
  {}

  lemma SnappedIsThreeValued(w: World, m: map<FactId, Status>)
    ensures ThreeValued(w, Snapped(w, m))
  {}

  lemma SnapKeeps(w: World, now: int, f: FactId, m: map<FactId, Status>)
    requires Ranked(w) && Quiet(w, now) && f in w.facts
    ensures Low(Assigned(w, m), now, f) <==> Low(Assigned(w, Snapped(w, m)), now, f)
  {
    hide *;
    var w1, w2 := Assigned(w, m), Assigned(w, Snapped(w, m));
    AssignedIsSame(w, m, now);
    AssignedIsSame(w, Snapped(w, m), now);
    SameKeys(w, w1);
    SameKeys(w, w2);
    forall g | g in w1.facts && w1.facts[g].isRoot ensures SameLevel(Truth(w1, now, g), Truth(w2, now, g)) {
      SnapRoot(w, now, m, g);
    }
    BothSame(w, w1, w2);
    LevelsDecide(w1, w2, now, f);
    LevelIsLow(w1, w2, now, f);
  }

  lemma SnapRoot(w: World, now: int, m: map<FactId, Status>, g: FactId)
    requires Ranked(Assigned(w, m)) && Ranked(Assigned(w, Snapped(w, m)))
    requires g in Assigned(w, m).facts && Assigned(w, m).facts[g].isRoot
    ensures g in Assigned(w, Snapped(w, m)).facts
    ensures SameLevel(Truth(Assigned(w, m), now, g), Truth(Assigned(w, Snapped(w, m)), now, g))
  {
    RootTruth(Assigned(w, m), now, g);
    RootTruth(Assigned(w, Snapped(w, m)), now, g);
    hide Ranked, Truth;
  }

  lemma LevelIsLow(w1: World, w2: World, now: int, f: FactId)
    requires Ranked(w1) && Ranked(w2) && f in w1.facts && f in w2.facts
    requires SameLevel(Truth(w1, now, f), Truth(w2, now, f))
    ensures Low(w1, now, f) <==> Low(w2, now, f)
  {
    hide Ranked, Truth;
  }

  /** A root above f below the threshold, every root at one of three values, and f standing all the same. */
  ghost predicate Misled(w: World, idom: IDom, now: int, f: FactId, r: FactId, m: map<FactId, Status>) {
    RootAbove(w, idom, f, r) && ThreeValued(w, m) && m[r] != VALID && !Low(Assigned(w, m), now, f)
  }

  /** With negation anywhere: queries about f are right under every assignment of root confidences exactly when no
      three-valued assignment misleads them, of which there are finitely many. */
  lemma RightExactly(w: World, idom: IDom, now: int, f: FactId)
    requires Ranked(w) && Quiet(w, now) && f in w.facts
    ensures (forall m: map<FactId, Status> :: Right(Assigned(w, m), idom, now, f)) <==>
            (forall r, m :: !Misled(w, idom, now, f, r, m))
  {
    hide Quiet, Ranked, OnPath, Right, Low, RootAbove, ThreeValued, Assigned;
    if forall r, m :: !Misled(w, idom, now, f, r, m) {
      forall m: map<FactId, Status> ensures Right(Assigned(w, m), idom, now, f) {
        NotMisled(w, idom, now, f, m);
      }
    }
    if forall m: map<FactId, Status> :: Right(Assigned(w, m), idom, now, f) {
      forall r, m ensures !Misled(w, idom, now, f, r, m) {
        if Misled(w, idom, now, f, r, m) {
          MisledIsWrong(w, idom, now, f, r, m);
        }
      }
    }
  }

  lemma NotMisled(w: World, idom: IDom, now: int, f: FactId, m: map<FactId, Status>)
    requires Ranked(w) && Quiet(w, now) && f in w.facts && forall r, n :: !Misled(w, idom, now, f, r, n)
    ensures Right(Assigned(w, m), idom, now, f)
  {
    AssignedIsSame(w, m, now);
    assert Assigned(w, m).rank == w.rank && f in Assigned(w, m).facts;
    hide *;
    WrongMeans(Assigned(w, m), idom, now, f);
    forall r | r in CollapsedOf(Assigned(w, m).facts) && OnPath(idom, w.rank, r, f)
      ensures Truth(Assigned(w, m), now, f) < THRESHOLD
    {
      if Truth(Assigned(w, m), now, f) >= THRESHOLD {
        SnappedMisleads(w, idom, now, f, r, m);
      }
      assert !Misled(w, idom, now, f, r, Snapped(w, m));
    }
  }

  /** What misleads a query does so at the levels of its roots. */
  lemma SnappedMisleads(w: World, idom: IDom, now: int, f: FactId, r: FactId, m: map<FactId, Status>)
    requires Ranked(w) && Quiet(w, now) && f in w.facts && Ranked(Assigned(w, m)) && f in Assigned(w, m).facts
    requires r in CollapsedOf(Assigned(w, m).facts) && OnPath(idom, w.rank, r, f)
    requires Truth(Assigned(w, m), now, f) >= THRESHOLD
    ensures Misled(w, idom, now, f, r, Snapped(w, m))
  {
    assert RootAbove(w, idom, f, r) && Snapped(w, m)[r] != VALID by {
      hide OnPath, Truth, Ranked, Quiet;
    }
    hide OnPath, Ranked, Quiet, Truth, ThreeValued, Snapped, RootAbove, Assigned, CollapsedOf;
    SnapKeeps(w, now, f, m);
    SnappedIsThreeValued(w, m);
  }

  lemma MisledIsWrong(w: World, idom: IDom, now: int, f: FactId, r: FactId, m: map<FactId, Status>)
    requires Ranked(w) && Quiet(w, now) && f in w.facts && Misled(w, idom, now, f, r, m)
    ensures !Right(Assigned(w, m), idom, now, f)
    ensures Ranked(Assigned(w, m)) && f in Assigned(w, m).facts && Answer(Assigned(w, m), idom, now, f) == INVALID
  {
    AssignedIsSame(w, m, now);
    hide Quiet, Ranked, OnPath, Truth, Right;
    WrongMeans(Assigned(w, m), idom, now, f);
    assert r in CollapsedOf(Assigned(w, m).facts);
  }

  // ---- On an engine --------------------------------------------------------------------------------------

  /** The part of an assignment about these facts. */
  ghost function Part(m: map<FactId, Status>, done: set<FactId>): map<FactId, Status> {
    map f | f in m && f in done :: m[f]
  }

  lemma PartGrows(w: World, m: map<FactId, Status>, done: set<FactId>, r: FactId, before: World, after: World)
    requires r in m && before == Assigned(w, Part(m, done))
    requires after == World(after.facts, before.retracted, before.rank)
    requires after.facts == if r in before.facts && before.facts[r].isRoot
      then before.facts[r := before.facts[r].(manual := m[r])] else before.facts
    ensures after == Assigned(w, Part(m, done + {r}))
  {
    var facts := Assigned(w, Part(m, done + {r})).facts;
    assert after.facts.Keys == facts.Keys;
    hide Part, AssignedFact;
    forall f | f in w.facts ensures facts[f] == after.facts[f] {
      PartGrowsAt(w.facts[f], f, m, done, r);
    }
    assert after.facts == facts;
  }

  lemma PartGrowsAt(fact: Fact, f: FactId, m: map<FactId, Status>, done: set<FactId>, r: FactId)
    requires r in m
    ensures var before := AssignedFact(fact, f, Part(m, done));
      before.isRoot == fact.isRoot &&
      AssignedFact(fact, f, Part(m, done + {r})) == if f == r && fact.isRoot then before.(manual := m[r]) else before
  {}

  lemma NothingAssigned(w: World, m: map<FactId, Status>)
    ensures Assigned(w, Part(m, {})) == w && Part(m, m.Keys) == m
  {
    assert Assigned(w, Part(m, {})).facts == w.facts;
  }

  method AssignRoot(e: Engine, m: map<FactId, Status>, r: FactId, now: int, ghost w: World, ghost done: set<FactId>)
    requires e.Valid() && e.clock <= now && r in m && e.W() == Assigned(w, Part(m, done))
    modifies e`facts, e`collapsed, e`derived, e`sets, e`stamp, e`clock
    ensures e.Valid() && e.clock <= now && e.W() == Assigned(w, Part(m, done + {r}))
  {
    hide Engine.Valid, Assigned, Part, Untouched;
    ghost var before := e.W();
    var _ := e.SetRootConfidence(r, m[r], now);
    PartGrows(w, m, done, r, before, e.W());
  }

  /** Gives every root named by m its confidence. */
  method AssignRoots(e: Engine, m: map<FactId, Status>, now: int)
    requires e.Valid() && e.clock <= now
    modifies e`facts, e`collapsed, e`derived, e`sets, e`stamp, e`clock
    ensures e.Valid() && e.clock <= now && e.W() == Assigned(old(e.W()), m)
  {
    hide *;
    ghost var w, done := e.W(), {};
    NothingAssigned(w, m);
    var todo := m.Keys;
    while todo != {}
      invariant e.Valid() && e.clock <= now && done + todo == m.Keys && e.W() == Assigned(w, Part(m, done))
    {
      var r :| r in todo;
      assert r in done + todo;
      AssignRoot(e, m, r, now, w, done);
      assert done + {r} + (todo - {r}) == done + todo;
      todo, done := todo - {r}, done + {r};
    }
    assert done == m.Keys;
  }

  /** f needs every root on its dominator path, and neither it nor what it rests on has a negated dependency. */
  ghost predicate NeedsAll(w: World, idom: IDom, now: int, f: FactId) {
    PositiveAbove(w, f) && forall r | RootAbove(w, idom, f, r) :: Needs(w, now, f, r)
  }

  /** The propagated status of f is the true one, and the query's answer is status. */
  ghost predicate Answered(w: World, idom: IDom, now: int, f: FactId, derived: map<FactId, Status>, status: Status) {
    Ranked(w) && f in w.facts && f in derived && derived[f] == Truth(w, now, f) && status == Answer(w, idom, now, f)
  }

  /** Assigns the roots' confidences and asks: the answer is right when f needs every root on its dominator path. */
  method AssignAndAsk(e: Engine, m: map<FactId, Status>, f: FactId, now: int) returns (status: Status)
    requires e.Valid() && !e.dirty && e.clock <= now && Quiet(e.W(), now) && f in e.facts
    modifies e, e.dominators
    ensures e.Valid() && e.W() == Assigned(old(e.W()), m) && e.dominators.idom == old(e.dominators.idom)
    ensures Answered(e.W(), e.dominators.idom, now, f, e.derived, status)
    ensures NeedsAll(old(e.W()), e.dominators.idom, now, f) ==> Right(e.W(), e.dominators.idom, now, f)
    ensures (forall r, n :: !Misled(old(e.W()), e.dominators.idom, now, f, r, n)) ==>
      Right(e.W(), e.dominators.idom, now, f)
  {
    hide *;
    ghost var w, idom := e.W(), e.dominators.idom;
    EngineParts(e);
    AssignRoots(e, m, now);
    AssignedIsSame(w, m, now);
    EngineParts(e);
    SameKeys(w, e.W());
    status := AskQuietly(e, f, now);
    if NeedsAll(w, idom, now, f) {
      NeedsAllSuffices(w, idom, now, f, m);
    }
    if forall r, n :: !Misled(w, idom, now, f, r, n) {
      NotMisled(w, idom, now, f, m);
    }
  }

  lemma NeedsAllSuffices(w: World, idom: IDom, now: int, f: FactId, m: map<FactId, Status>)
    requires Ranked(w) && Quiet(w, now) && NeedsAll(w, idom, now, f)
    ensures Right(Assigned(w, m), idom, now, f)
  {
    hide PositiveAbove, RootAbove, Needs, Right, Ranked, Quiet;
    RightUnder(w, idom, now, f, m);
  }

  method AskQuietly(e: Engine, f: FactId, now: int) returns (status: Status)
    requires e.Valid() && !e.dirty && e.clock <= now && Quiet(e.W(), now) && f in e.facts
    modifies e`dirty, e.dominators
    ensures e.Valid() && unchanged(e.dominators) && Answered(e.W(), e.dominators.idom, now, f, e.derived, status)
  {
    hide *;
    EngineParts(e);
    EngineIsExact(e, now, f);
    status := e.GetStatus(f, now);
    AnsweredMeans(e.W(), e.dominators.idom, now, f, e.derived, e.rank, e.facts, e.collapsed, status);
  }

  lemma AnsweredMeans(w: World, idom: IDom, now: int, f: FactId, derived: map<FactId, Status>, rank: map<FactId, nat>,
                      facts: map<FactId, Fact>, collapsed: set<FactId>, status: Status)
    requires Ranked(w) && w.facts == facts && w.rank == rank && f in facts && f in derived
    requires collapsed == CollapsedOf(facts)
    requires derived[f] == Truth(w, now, f) && Read(w, f, derived[f], now) == Truth(w, now, f)
    requires status == Pruned(idom, rank, collapsed, f, Read(w, f, derived[f], now))
    ensures Answered(w, idom, now, f, derived, status)
  {
    hide Pruned, Truth, Ranked, CollapsedOf;
  }

  lemma EngineParts(e: Engine)
    requires e.Valid()
    ensures e.Consistent() && Ranked(e.W()) && e.derived.Keys == e.facts.Keys && e.collapsed == CollapsedOf(e.facts)
    ensures e.W().facts == e.facts && e.W().rank == e.rank
  {}

  // ---- Negation and alternatives -------------------------------------------------------------------------

  /** Folding one fact any number of times gives that fact. */
  lemma {:induction false} FoldOfSame(idom: IDom, rank: Rank, ids: seq<Option<FactId>>, p: FactId)
    requires Forest(idom, rank) && ids != [] && forall i | 0 <= i < |ids| :: ids[i] == Some(p)
    ensures FoldLca(idom, rank, ids) == Some(p)
    decreases |ids|
  {
    if |ids| > 1 {
      FoldOfSame(idom, rank, ids[..|ids| - 1], p);
    }
  }

  /** A set whose dependencies all name p is dominated by p. */
  lemma SetOfOne(w: World, sets: Sets, children: Children, idom: IDom, setIDom: map<SetId, FactId>, j: SetId, p: FactId)
    requires Shape(w, sets, children) && DominatorsRight(w.facts, w.rank, sets, idom, setIDom) && IsSetId(w, j)
    requires SetRefs(w.facts[j.fact], j.index) != [] && forall r | r in SetRefs(w.facts[j.fact], j.index) :: r.id == p
    ensures Lookup(setIDom, j) == Some(p)
  {
    assert SetShape(w.facts[j.fact], j, sets[j]) && SetRight(idom, setIDom, w.rank, sets, j);
    hide Shape, DominatorsRight, FactRight, SetRight;
    var all := sets[j].deps.all;
    RefMembers(sets[j]);
    forall i | 0 <= i < |all| ensures all[i] == p {
      assert all[i] in multiset(all) && sets[j].Mentions(all[i]);
    }
    assert SetRefs(w.facts[j.fact], j.index)[0] in sets[j].deps.Refs();
    assert |all| == |multiset(all)| > 0;
    FoldOfSame(idom, w.rank, Somes(all), p);
  }

  /** Folding different roots: each pair forgets what came before it, so the last one stays when their number is odd. */
  lemma {:induction false} FoldOfRoots(idom: IDom, rank: Rank, ids: seq<Option<FactId>>)
    requires Forest(idom, rank) && forall i | 0 <= i < |ids| :: ids[i].Some? && ids[i].value !in idom
    requires forall i, k | 0 <= i < k < |ids| :: ids[i] != ids[k]
    ensures FoldLca(idom, rank, ids) == if |ids| % 2 == 1 then ids[|ids| - 1] else None
    decreases |ids|
  {
    if |ids| > 1 {
      var n := |ids| - 1;
      FoldOfRoots(idom, rank, ids[..n]);
      if n % 2 == 1 {
        assert Path(idom, rank, ids[n - 1].value) == [ids[n - 1].value] &&
               Path(idom, rank, ids[n].value) == [ids[n].value];
      }
    }
  }

  /** Every set of f is one dependency, on a root no other set of f names. */
  ghost predicate Alternatives(w: World, f: FactId, parents: seq<FactId>) {
    f in w.facts && !w.facts[f].isRoot && |parents| == |w.facts[f].tokens| && Distinct(parents) &&
    forall i | 0 <= i < |parents| ::
      SetRefs(w.facts[f], i) == [DepRef(parents[i], false)] && parents[i] in w.facts && w.facts[parents[i]].isRoot
  }

  lemma IncomingIsOwn(w: World, sets: Sets, children: Children, f: FactId, js: seq<SetId>, j: SetId)
    requires Shape(w, sets, children) && Incoming(sets, f, js) && f in w.facts && !w.facts[f].isRoot
    ensures j in js <==> j.fact == f && j.index < |w.facts[f].tokens|
  {
    assert j in sets <==> IsSetId(w, j);
    if j in sets {
      assert SetShape(w.facts[j.fact], j, sets[j]);
    }
  }

  lemma CountOfOwn(f: FactId, js: seq<SetId>, n: nat)
    requires Distinct(js) && forall j :: j in js <==> j.fact == f && j.index < n
    ensures |js| == n
  {
    var own := seq(n, i requires 0 <= i < n => SetId(f, i));
    forall j: SetId ensures j in own <==> j.fact == f && j.index < n {
      if j.fact == f && j.index < n {
        assert own[j.index] == j;
      }
    }
    assert Elements(js) == Elements(own);
    DistinctCardinality(js);
    DistinctCardinality(own);
  }

  /** The sets of f, in any order, are dominated by its alternatives. */
  lemma AlternativeSets(w: World, sets: Sets, children: Children, idom: IDom, setIDom: map<SetId, FactId>, f: FactId,
                        parents: seq<FactId>, js: seq<SetId>)
    requires Shape(w, sets, children) && DominatorsRight(w.facts, w.rank, sets, idom, setIDom)
    requires Alternatives(w, f, parents)
    requires Incoming(sets, f, js)
    ensures |js| == |parents|
    ensures forall k | 0 <= k < |js| ::
      js[k].fact == f && js[k].index < |parents| && Lookup(setIDom, js[k]) == Some(parents[js[k].index])
  {
    forall j: SetId ensures j in js <==> j.fact == f && j.index < |parents| {
      IncomingIsOwn(w, sets, children, f, js, j);
    }
    assert Distinct(js);
    forall k | 0 <= k < |js|
      ensures js[k].fact == f && js[k].index < |parents| && Lookup(setIDom, js[k]) == Some(parents[js[k].index])
    {
      assert js[k] in js && IsSetId(w, js[k]);
      hide Shape, DominatorsRight, Incoming;
      SetOfOne(w, sets, children, idom, setIDom, js[k], parents[js[k].index]);
    }
    CountOfOwn(f, js, |parents|);
  }

  lemma DifferentDoms(setIDom: map<SetId, FactId>, f: FactId, parents: seq<FactId>, js: seq<SetId>)
    requires Distinct(js) && Distinct(parents)
    requires forall k | 0 <= k < |js| ::
      js[k].fact == f && js[k].index < |parents| && Lookup(setIDom, js[k]) == Some(parents[js[k].index])
    ensures forall i, k | 0 <= i < k < |js| :: Doms(setIDom, js)[i] != Doms(setIDom, js)[k]
  {
    forall i, k | 0 <= i < k < |js| ensures Doms(setIDom, js)[i] != Doms(setIDom, js)[k] {
      assert js[i] != js[k];
    }
  }

  /** A fact resting on an odd number of alternatives is dominated by one of them; on an even number, by none. */
  lemma AlternativesDominator(w: World, sets: Sets, children: Children, idom: IDom, setIDom: map<SetId, FactId>,
                              f: FactId, parents: seq<FactId>)
    requires Shape(w, sets, children) && DominatorsRight(w.facts, w.rank, sets, idom, setIDom)
    requires Alternatives(w, f, parents)
    ensures Forest(idom, w.rank) && (f in idom <==> |parents| % 2 == 1)
    ensures f in idom ==> idom[f] in parents && idom[f] !in idom
  {
    assert FactRight(idom, setIDom, w.rank, w.facts, sets, f);
    var js: seq<SetId> :| Incoming(sets, f, js) && Lookup(idom, f) == FoldLca(idom, w.rank, Doms(setIDom, js));
    forall i | 0 <= i < |parents| ensures parents[i] !in idom {
      assert FactRight(idom, setIDom, w.rank, w.facts, sets, parents[i]);
    }
    assert Distinct(js);
    AlternativeSets(w, sets, children, idom, setIDom, f, parents, js);
    hide Shape, DominatorsRight, FactRight, Incoming;
    DifferentDoms(setIDom, f, parents, js);
    hide Distinct;
    FoldOfRoots(idom, w.rank, Doms(setIDom, js));
  }

  /** Each alternative would do: it is live, in scope, and accepted by f's policy. */
  ghost predicate Eligible(w: World, now: int, f: FactId, p: FactId) {
    f in w.facts && p in w.facts && p !in w.retracted && ScopeSatisfied(w.facts[p].kind, w.facts[f].kind) &&
    Grounded(w.facts[p], w.facts[f], now)
  }

  lemma AlternativeStands(w: World, now: int, f: FactId, parents: seq<FactId>, r: FactId, i: nat)
    requires Ranked(Assigned(w, AllBut(w, r))) && Alternatives(w, f, parents) && i < |parents|
    requires Eligible(w, now, f, parents[i])
    ensures Supported(Assigned(w, AllBut(w, r)), now, f, i) <==> parents[i] != r
  {
    var w', p := Assigned(w, AllBut(w, r)), parents[i];
    RootTruth(w', now, p);
    assert SetRefs(w'.facts[f], i) == [DepRef(p, false)];
    hide Ranked, Truth, SetRefs, Alternatives;
    assert DepRef(p, false) in SetRefs(w'.facts[f], i);
    assert Grounded(w'.facts[p], w'.facts[f], now) <==> Grounded(w.facts[p], w.facts[f], now);
  }

  lemma PositiveAssigned(w: World, f: FactId, m: map<FactId, Status>)
    requires PositiveAbove(w, f) && !w.facts[f].isRoot
    ensures Positive(Assigned(w, m), f) && Assigned(w, m).facts[f] == w.facts[f]
  {
    PositiveSelf(w, f);
  }

  /** A fact with several eligible alternatives does not need any of them. */
  lemma NeedsOnlyOne(w: World, now: int, f: FactId, parents: seq<FactId>, r: FactId)
    requires Ranked(w) && Quiet(w, now) && Alternatives(w, f, parents) && PositiveAbove(w, f) && f !in w.retracted
    requires r in parents && forall p | p in parents :: Eligible(w, now, f, p)
    ensures Needs(w, now, f, r) <==> |parents| == 1
  {
    var w' := Assigned(w, AllBut(w, r));
    AssignedIsSame(w, AllBut(w, r), now);
    PositiveAssigned(w, f, AllBut(w, r));
    assert w'.retracted == w.retracted && |w.facts[f].tokens| == |parents| && Distinct(parents);
    hide Ranked, Quiet, Truth, PositiveAbove, Supported, Positive, Eligible, Assigned, AllBut;
    TruthByDerivation(w', now, f);
    forall i: nat | i < |parents| ensures Supported(w', now, f, i) <==> parents[i] != r {
      AlternativeStands(w, now, f, parents, r, i);
    }
    hide Alternatives, SameButRoots, Distinct;
    OthersRemain(parents, r);
  }

  lemma OthersRemain(parents: seq<FactId>, r: FactId)
    requires Distinct(parents) && r in parents
    ensures (exists i: nat :: i < |parents| && parents[i] != r) <==> |parents| != 1
  {
    if |parents| > 1 {
      var i := if parents[0] == r then 1 else 0;
      assert parents[i] != r;
    }
  }

  lemma ShortPath(w: World, idom: IDom, f: FactId)
    requires Forest(idom, w.rank) && f in w.facts && !w.facts[f].isRoot && (f in idom ==> idom[f] !in idom)
    ensures forall r :: RootAbove(w, idom, f, r) ==> f in idom && r == idom[f]
    ensures f in idom && idom[f] in w.facts && w.facts[idom[f]].isRoot ==> RootAbove(w, idom, f, idom[f])
  {
    if f in idom {
      assert Path(idom, w.rank, idom[f]) == [idom[f]] && Path(idom, w.rank, f) == [f] + [idom[f]];
    } else {
      assert Path(idom, w.rank, f) == [f];
    }
  }

  /** Queries about a fact with eligible alternatives are right under every assignment exactly when there is one
      alternative or their number is even: from three on, an odd number goes wrong. */
  lemma AlternativesRightExactly(w: World, sets: Sets, children: Children, idom: IDom, setIDom: map<SetId, FactId>,
                                 now: int, f: FactId, parents: seq<FactId>)
    requires Ranked(w) && Quiet(w, now) && Shape(w, sets, children)
    requires DominatorsRight(w.facts, w.rank, sets, idom, setIDom)
    requires Alternatives(w, f, parents) && PositiveAbove(w, f) && f !in w.retracted
    requires forall p | p in parents :: Eligible(w, now, f, p)
    ensures (forall m: map<FactId, Status> :: Right(Assigned(w, m), idom, now, f)) <==>
      |parents| % 2 == 0 || |parents| == 1
  {
    AlternativesDominator(w, sets, children, idom, setIDom, f, parents);
    assert !w.facts[f].isRoot && forall p | p in parents :: p in w.facts && w.facts[p].isRoot;
    hide Ranked, Quiet, Shape, DominatorsRight, PositiveAbove, Eligible, Right, Needs, RootAbove, Alternatives,
         Assigned, Forest;
    PruningIsRightExactly(w, idom, now, f);
    ShortPath(w, idom, f);
    if f in idom {
      NeedsOnlyOne(w, now, f, parents, idom[f]);
    }
  }

  /** A fact whose only dependency is on p is dominated by p. */
  lemma LoneParentDominates(w: World, sets: Sets, children: Children, idom: IDom, setIDom: map<SetId, FactId>,
                            f: FactId, r: DepRef)
    requires Shape(w, sets, children) && DominatorsRight(w.facts, w.rank, sets, idom, setIDom)
    requires f in w.facts && !w.facts[f].isRoot && |w.facts[f].tokens| == 1 && SetRefs(w.facts[f], 0) == [r]
    ensures OnPath(idom, w.rank, r.id, f)
  {
    assert FactRight(idom, setIDom, w.rank, w.facts, sets, f) && Forest(idom, w.rank);
    var js: seq<SetId> :| Incoming(sets, f, js) && Lookup(idom, f) == FoldLca(idom, w.rank, Doms(setIDom, js));
    forall j: SetId ensures j in js <==> j.fact == f && j.index < 1 {
      IncomingIsOwn(w, sets, children, f, js, j);
    }
    assert Distinct(js) && IsSetId(w, SetId(f, 0));
    SetOfOne(w, sets, children, idom, setIDom, SetId(f, 0), r.id);
    hide Shape, DominatorsRight, FactRight, Incoming;
    CountOfOwn(f, js, 1);
    assert js[0] in js && js[0] == SetId(f, 0);
    assert Path(idom, w.rank, f)[1] == r.id;
  }

  /** Status of a live fact that rests on the absence of a live root alone. */
  lemma LoneNegationTruth(w: World, now: int, f: FactId, p: FactId)
    requires Ranked(w) && Quiet(w, now) && f in w.facts && !w.facts[f].isRoot && f !in w.retracted
    requires |w.facts[f].tokens| == 1 && SetRefs(w.facts[f], 0) == [DepRef(p, true)]
    requires p in w.facts && w.facts[p].isRoot && p !in w.retracted
    ensures Truth(w, now, f) >= THRESHOLD <==> w.facts[p].manual <= VALID - THRESHOLD
  {
    SingleTruth(w, now, f, 0, DepRef(p, true));
    RootTruth(w, now, p);
    var confs := Confidences(w, Uniform(w, now), f);
    BestIsLargest(confs, |confs|);
  }

  /** A query about such a fact never answers anything but Invalid, so it is right exactly when the fact does not
      hold. */
  lemma LoneNegationExactly(w: World, sets: Sets, children: Children, idom: IDom, setIDom: map<SetId, FactId>, now: int,
                            f: FactId, p: FactId)
    requires Ranked(w) && Quiet(w, now) && Shape(w, sets, children)
    requires DominatorsRight(w.facts, w.rank, sets, idom, setIDom)
    requires f in w.facts && !w.facts[f].isRoot && f !in w.retracted
    requires |w.facts[f].tokens| == 1 && SetRefs(w.facts[f], 0) == [DepRef(p, true)]
    requires p in w.facts && w.facts[p].isRoot && p !in w.retracted
    ensures Answer(w, idom, now, f) == INVALID
    ensures Right(w, idom, now, f) <==> w.facts[p].manual > VALID - THRESHOLD
  {
    LoneParentDominates(w, sets, children, idom, setIDom, f, DepRef(p, true));
    LoneNegationTruth(w, now, f, p);
    hide Shape, DominatorsRight, OnPath, Quiet, Truth, Ranked;
  }

  // ---- Engines that answer wrongly -----------------------------------------------------------------------

  const DOWN: Fact := Bare(true, INVALID, Empirical, [])
  const ABSENCE: Fact := Bare(false, INVALID, Empirical, [["!a"]])
  const ABSENT: map<FactId, Fact> := map["a" := DOWN, "n" := ABSENCE]

  method BuildAbsent() returns (e: Engine)
    ensures fresh(e) && fresh(e.dominators) && e.Valid() && e.clock <= 1 && e.facts == ABSENT && e.retracted == map[]
  {
    e := new Engine();
    hide Engine.Valid, Offered, Timed;
    AbsentIsBuilt();
    Offer(e, "a", DOWN, 1);
    Offer(e, "n", ABSENCE, 1);
  }

  lemma AbsentIsBuilt()
    ensures Offered(map[], "a", Timed(DOWN, 1)) == map["a" := DOWN]
    ensures Offered(map["a" := DOWN], "n", Timed(ABSENCE, 1)) == ABSENT
  {
    assert |map["a" := DOWN]| == 1;
    assert "!a"[1..] == "a";
    assert GoodTokens(map["a" := DOWN], ["!a"]);
  }

  lemma AbsentIsQuiet(w: World)
    requires w.facts == ABSENT && w.retracted == map[]
    ensures Quiet(w, 1) && w.facts["n"] == ABSENCE && w.facts["a"] == DOWN && SetRefs(ABSENCE, 0) == [DepRef("a", true)]
  {
    assert "!a"[1..] == "a";
    assert ParseDependencyRef("!a") == Success(DepRef("a", true));
  }

  lemma AbsentAnswer(w: World, sets: Sets, children: Children, idom: IDom, setIDom: map<SetId, FactId>)
    requires Ranked(w) && Shape(w, sets, children) && DominatorsRight(w.facts, w.rank, sets, idom, setIDom)
    requires w.facts == ABSENT && w.retracted == map[]
    ensures Quiet(w, 1) && Answer(w, idom, 1, "n") == INVALID && Truth(w, 1, "n") == VALID
  {
    AbsentIsQuiet(w);
    hide Ranked, Shape, DominatorsRight, Truth, SetRefs, Quiet, Answer;
    RootTruth(w, 1, "a");
    LoneNegationExactly(w, sets, children, idom, setIDom, 1, "n", "a");
    NegatedTruth(w, 1, "n", "a");
  }

  /** The derived status of n is Valid, since a is down, and the query answers Invalid, since a dominates n. */
  method AbsenceIsMispruned() returns (e: Engine, status: Status)
    ensures e.Valid() && e.facts == ABSENT && e.retracted == map[]
    ensures "n" in e.derived && e.derived["n"] == VALID && status == INVALID
  {
    e := BuildAbsent();
    hide *;
    var _ := e.GetStatus("n", 1);
    ForestParts(e);
    AbsentHere(e);
    AbsentAnswer(e.W(), e.sets, e.children, e.dominators.idom, e.dominators.setIDom);
    status := AskQuietly(e, "n", 1);
    AnsweredIs(e.W(), e.dominators.idom, 1, "n", e.derived, status);
  }

  lemma AbsentHere(e: Engine)
    requires e.facts == ABSENT && e.retracted == map[] && e.W() == World(e.facts, e.retracted, e.rank)
    ensures e.W().facts == ABSENT && e.W().retracted == map[] && "n" in e.facts
  {}

  lemma AnsweredIs(w: World, idom: IDom, now: int, f: FactId, derived: map<FactId, Status>, status: Status)
    requires Answered(w, idom, now, f, derived, status)
    ensures Ranked(w) && f in w.facts && f in derived && derived[f] == Truth(w, now, f)
    ensures status == Answer(w, idom, now, f)
  {}

  lemma ForestParts(e: Engine)
    requires e.Valid() && !e.dirty
    ensures Ranked(e.W()) && Shape(e.W(), e.sets, e.children) && e.W() == World(e.facts, e.retracted, e.rank)
    ensures DominatorsRight(e.W().facts, e.W().rank, e.sets, e.dominators.idom, e.dominators.setIDom)
  {}

  const THREE: Fact := Bare(false, INVALID, Empirical, [["a"], ["b"], ["c"]])
  const CHOICE: map<FactId, Fact> := map["a" := ROOT, "b" := ROOT, "c" := ROOT, "f" := THREE]
  const ABC: seq<FactId> := ["a", "b", "c"]

  method BuildChoice() returns (e: Engine)
    ensures fresh(e) && fresh(e.dominators) && e.Valid() && e.clock <= 1 && e.facts == CHOICE && e.retracted == map[]
  {
    e := new Engine();
    hide Engine.Valid, Offered, Timed;
    RootsAreBuilt();
    ChoiceIsBuilt();
    Offer(e, "a", ROOT, 1);
    Offer(e, "b", ROOT, 1);
    Offer(e, "c", ROOT, 1);
    Offer(e, "f", THREE, 1);
  }

  lemma RootsAreBuilt()
    ensures Offered(map[], "a", Timed(ROOT, 1)) == map["a" := ROOT]
    ensures Offered(map["a" := ROOT], "b", Timed(ROOT, 1)) == map["a" := ROOT, "b" := ROOT]
    ensures Offered(map["a" := ROOT, "b" := ROOT], "c", Timed(ROOT, 1)) == map["a" := ROOT, "b" := ROOT, "c" := ROOT]
  {
    assert |map["a" := ROOT]| == 1 && |map["a" := ROOT, "b" := ROOT]| == 2;
  }

  lemma ChoiceIsBuilt()
    ensures Offered(map["a" := ROOT, "b" := ROOT, "c" := ROOT], "f", Timed(THREE, 1)) == CHOICE
  {
    var roots := map["a" := ROOT, "b" := ROOT, "c" := ROOT];
    assert |roots| == 3;
    assert GoodTokens(roots, ["a"]) && GoodTokens(roots, ["b"]) && GoodTokens(roots, ["c"]);
  }

  ghost predicate Choice(w: World) {
    Ranked(w) && w.facts == CHOICE && w.retracted == map[]
  }

  lemma ChoiceRefs(i: nat)
    requires i < 3
    ensures SetRefs(THREE, i) == [DepRef(ABC[i], false)]
  {
    assert ParseDependencyRef(ABC[i]) == Success(DepRef(ABC[i], false));
  }

  lemma ChoiceAlternatives(w: World)
    requires Choice(w)
    ensures Quiet(w, 1) && Alternatives(w, "f", ABC)
    ensures forall p | p in ABC :: Eligible(w, 1, "f", p)
  {
    forall i: nat | i < 3 ensures SetRefs(THREE, i) == [DepRef(ABC[i], false)] {
      ChoiceRefs(i);
    }
    assert w.facts["f"] == THREE && w.facts["a"] == ROOT && w.facts["b"] == ROOT && w.facts["c"] == ROOT;
    hide SetRefs, Ranked;
  }

  lemma ChoiceIsPositive(w: World)
    requires Choice(w)
    ensures PositiveAbove(w, "f")
  {
    forall i ensures forall r | r in SetRefs(THREE, i) :: !r.negated {
      if 0 <= i < 3 { ChoiceRefs(i); }
    }
    hide SetRefs, Ranked, Dependents;
  }

  /** f is dominated by one of its three alternatives, and does not need it. */
  lemma ChoiceDominator(w: World, sets: Sets, children: Children, idom: IDom, setIDom: map<SetId, FactId>)
    requires Choice(w) && Shape(w, sets, children) && DominatorsRight(w.facts, w.rank, sets, idom, setIDom)
    ensures Quiet(w, 1) && "f" in idom && idom["f"] in ABC && RootAbove(w, idom, "f", idom["f"])
    ensures !Needs(w, 1, "f", idom["f"])
  {
    ChoiceAlternatives(w);
    ChoiceIsPositive(w);
    assert "f" in w.facts && !w.facts["f"].isRoot && forall p | p in ABC :: p in w.facts && w.facts[p].isRoot;
    assert Ranked(w) && w.retracted == map[];
    hide Ranked, Shape, DominatorsRight, Quiet, Alternatives, PositiveAbove, Eligible, RootAbove, Needs, Choice, Forest;
    AlternativesDominator(w, sets, children, idom, setIDom, "f", ABC);
    ShortPath(w, idom, "f");
    NeedsOnlyOne(w, 1, "f", ABC, idom["f"]);
  }

  /** Among alternatives that are Valid or Invalid, a fact that stands is Valid. */
  lemma StandsIsValid(w: World, now: int, f: FactId, parents: seq<FactId>)
    requires Ranked(w) && Quiet(w, now) && Alternatives(w, f, parents) && Truth(w, now, f) >= THRESHOLD
    requires forall p | p in parents :: w.facts[p].manual == VALID || w.facts[p].manual == INVALID
    ensures Truth(w, now, f) == VALID
  {
    var confs := Confidences(w, Uniform(w, now), f);
    if f in w.retracted { RetractedIsDown(w, now, f); }
    assert Truth(w, now, f) == Best(confs, |confs|);
    BestIsLargest(confs, |confs|);
    var i :| 0 <= i < |confs| && confs[i] >= THRESHOLD && Best(confs, |confs|) == confs[i];
    hide Truth, Ranked, Quiet, Uniform;
    assert parents[i] in parents;
    SingleTruth(w, now, f, i, DepRef(parents[i], false));
    RootTruth(w, now, parents[i]);
  }

  lemma ChoiceStays(w: World, r: FactId)
    requires Choice(w) && Quiet(w, 1)
    ensures var w' := Assigned(w, AllBut(w, r));
      Ranked(w') && Quiet(w', 1) && Alternatives(w', "f", ABC) && forall p | p in ABC ::
        w'.facts[p].manual == VALID || w'.facts[p].manual == INVALID
  {
    AssignedIsSame(w, AllBut(w, r), 1);
    ChoiceAlternatives(w);
    AlternativesStay(w, "f", ABC, r);
    hide Ranked, Quiet, Alternatives, Choice, Assigned, AllBut;
  }

  lemma AlternativesStay(w: World, f: FactId, parents: seq<FactId>, r: FactId)
    requires Alternatives(w, f, parents)
    ensures var w' := Assigned(w, AllBut(w, r));
      Alternatives(w', f, parents) && forall p | p in parents ::
        w'.facts[p].manual == VALID || w'.facts[p].manual == INVALID
  {
    hide SetRefs;
  }

  /** Gives every root but r the highest confidence and r the lowest, and asks about f, which r dominates: the answer is
      Invalid, and wrong whenever f does not need r. */
  method AskWithout(e: Engine, f: FactId, r: FactId, now: int) returns (status: Status)
    requires e.Valid() && !e.dirty && e.clock <= now && Quiet(e.W(), now) && f in e.facts
    requires RootAbove(e.W(), e.dominators.idom, f, r)
    modifies e, e.dominators
    ensures e.Valid() && e.W() == Assigned(old(e.W()), AllBut(old(e.W()), r)) && status == INVALID
    ensures Answered(e.W(), e.dominators.idom, now, f, e.derived, status)
    ensures f in e.derived && (e.derived[f] >= THRESHOLD <==> !Needs(old(e.W()), now, f, r))
  {
    hide *;
    ghost var w, idom := e.W(), e.dominators.idom;
    EngineParts(e);
    var m := map g | g in e.facts && e.facts[g].isRoot :: if g == r then INVALID else VALID;
    AllButIs(w, r, m);
    WrongWithout(w, idom, now, f, r);
    status := AssignAndAsk(e, m, f, now);
    AnsweredIs(e.W(), idom, now, f, e.derived, status);
    PrunedAnswer(w, idom, now, f, r, status);
  }

  lemma AllButIs(w: World, r: FactId, m: map<FactId, Status>)
    requires m == map g | g in w.facts && w.facts[g].isRoot :: if g == r then INVALID else VALID
    ensures m == AllBut(w, r)
  {}

  /** With r Invalid the answer is Invalid either way. */
  lemma PrunedAnswer(w: World, idom: IDom, now: int, f: FactId, r: FactId, status: Status)
    requires var w' := Assigned(w, AllBut(w, r)); Ranked(w') && f in w'.facts && status == Answer(w', idom, now, f)
    requires !Needs(w, now, f, r) ==> status == INVALID
    ensures status == INVALID
    ensures Truth(Assigned(w, AllBut(w, r)), now, f) >= THRESHOLD <==> !Needs(w, now, f, r)
  {
    hide Truth, Ranked, OnPath;
  }

  /** f rests on any of three roots, d dominates it: with d down and the others up, f is Valid and the query answers
      Invalid. */
  method ChoiceIsMispruned() returns (e: Engine, d: FactId, status: Status)
    ensures e.Valid() && d in ABC && e.facts == CHOICE[d := DOWN] && e.retracted == map[]
    ensures "f" in e.derived && e.derived["f"] == VALID && status == INVALID
  {
    e := BuildChoice();
    hide *;
    var _ := e.GetStatus("f", 1);
    ForestParts(e);
    ghost var w := e.W();
    assert Choice(w) by { ChoiceHere(e); }
    ChoiceDominator(w, e.sets, e.children, e.dominators.idom, e.dominators.setIDom);
    d := e.dominators.idom["f"];
    ChoiceStays(w, d);
    ChoiceHere(e);
    status := AskWithout(e, "f", d, 1);
    AnsweredIs(e.W(), e.dominators.idom, 1, "f", e.derived, status);
    StandsIsValid(e.W(), 1, "f", ABC);
    ChoiceLeft(e, w, d);
  }

  lemma ChoiceHere(e: Engine)
    requires Ranked(e.W()) && e.facts == CHOICE && e.retracted == map[] && e.W() == World(e.facts, e.retracted, e.rank)
    ensures Choice(e.W()) && "f" in e.facts
  {
    hide Ranked;
  }

  lemma ChoiceLeft(e: Engine, w: World, d: FactId)
    requires Choice(w) && d in ABC && e.W() == Assigned(w, AllBut(w, d))
    ensures e.facts == CHOICE[d := DOWN] && e.retracted == map[]
  {
    hide Ranked;
    assert e.facts == CHOICE[d := DOWN];
  }
}
