/** Transitive dependencies of a fact, and the locality they give to mutations. */
module Closure {
  import opened Facts
  import opened Strings
  import opened Semantics
  import opened Cache
  import opened Digraph
  import opened Cycles
  import opened Engines

  ghost predicate Marks(includeSelf: bool, root: FactId, n: FactId) {
    includeSelf || n != root
  }

  /** Everything seen since `before` has all its parents seen, but for an unmarked root. */
  ghost predicate ParentsSeen(edges: Edges, includeSelf: bool, root: FactId, before: set<FactId>, after: set<FactId>) {
    forall p, n :: (p, n) in edges && n in after && n !in before && Marks(includeSelf, root, p) ==> p in after
  }

  ghost predicate AllReach(edges: Edges, before: set<FactId>, after: set<FactId>, id: FactId) {
    forall n | n in after && n !in before :: Reaches(edges, n, id)
  }

  /** The recursive walk over dependency tokens; `seen` is shared by all calls. */
  method Walk(facts: map<FactId, Fact>, id: FactId, root: FactId, includeSelf: bool,
              seen: set<FactId>, ghost rank: map<FactId, nat>)
    returns (seen': set<FactId>)
    requires Ranked(World(facts, map[], rank)) && id in facts
    ensures seen <= seen' && (Marks(includeSelf, root, id) ==> id in seen')
    ensures ParentsSeen(DependencyEdges(facts), includeSelf, root, seen, seen')
    ensures AllReach(DependencyEdges(facts), seen, seen', id)
    ensures forall n | n in seen' && n !in seen :: n in facts && Marks(includeSelf, root, n)
    ensures !Marks(includeSelf, root, id) ==>
              forall p :: (p, id) in DependencyEdges(facts) && Marks(includeSelf, root, p) ==> p in seen'
    decreases rank[id], 1
  {
    seen' := seen;
    if includeSelf || id != root {
      if id in seen {
        return;
      }
      seen' := seen + {id};
    }
    ReachesSelf(DependencyEdges(facts), id);
    ghost var seen1 := seen';
    seen' := WalkSets(facts, id, root, includeSelf, seen', rank);
  }

  /** The two nested loops of the walk. */
  method WalkSets(facts: map<FactId, Fact>, id: FactId, root: FactId, includeSelf: bool,
                  seen: set<FactId>, ghost rank: map<FactId, nat>)
    returns (seen': set<FactId>)
    requires Ranked(World(facts, map[], rank)) && id in facts
    ensures seen <= seen'
    ensures ParentsSeen(DependencyEdges(facts), includeSelf, root, seen, seen')
    ensures AllReach(DependencyEdges(facts), seen, seen', id)
    ensures forall n | n in seen' && n !in seen :: n in facts && Marks(includeSelf, root, n)
    ensures forall p :: (p, id) in DependencyEdges(facts) && Marks(includeSelf, root, p) ==> p in seen'
    decreases rank[id], 0
  {
    ghost var edges := DependencyEdges(facts);
    var sets_ := facts[id].tokens;
    seen' := seen;
    for i := 0 to |sets_|
      invariant seen <= seen' && ParentsSeen(edges, includeSelf, root, seen, seen') && AllReach(edges, seen, seen', id)
      invariant forall n | n in seen' && n !in seen :: n in facts && Marks(includeSelf, root, n)
      invariant forall k: nat, r | k < i && r in SetRefs(facts[id], k) && Marks(includeSelf, root, r.id) ::
        r.id in seen'
    {
      assert TokensParse(facts[id]);
      for n := 0 to |sets_[i]|
        invariant seen <= seen' && ParentsSeen(edges, includeSelf, root, seen, seen')
        invariant AllReach(edges, seen, seen', id)
        invariant forall n | n in seen' && n !in seen :: n in facts && Marks(includeSelf, root, n)
        invariant forall k: nat, r | k < i && r in SetRefs(facts[id], k) && Marks(includeSelf, root, r.id) ::
          r.id in seen'
        invariant forall k | 0 <= k < n ::
          Marks(includeSelf, root, SetRefs(facts[id], i)[k].id) ==> SetRefs(facts[id], i)[k].id in seen'
      {
        var parsed := ParseDependencyRef(sets_[i][n]);
        var p := parsed.value.id;
        ghost var r := SetRefs(facts[id], i)[n];
        assert r in SetRefs(facts[id], i) && r.id == p;
        assert (p, id) in edges;
        ghost var before := seen';
        seen' := Walk(facts, p, root, includeSelf, seen', rank);
        EdgeReaches(edges, p, id);
        ReachOnward(edges, before, seen', p, id);
      }
    }
  }

  lemma ReachOnward(edges: Edges, before: set<FactId>, after: set<FactId>, p: FactId, id: FactId)
    requires AllReach(edges, before, after, p) && Reaches(edges, p, id)
    ensures AllReach(edges, before, after, id)
  {
    forall n | n in after && n !in before ensures Reaches(edges, n, id) {
      ReachesTransitive(edges, n, p, id);
    }
  }

  lemma {:induction false} AncestorsInside(edges: Edges, inside: set<FactId>, p: seq<FactId>)
    requires IsPath(edges, p) && p[|p| - 1] in inside
    requires forall a, b :: (a, b) in edges && b in inside ==> a in inside
    ensures p[0] in inside
    decreases |p|
  {
    if |p| > 1 {
      var q := p[..|p| - 1];
      assert (p[|p| - 2], p[|p| - 1]) in edges;
      forall i | 0 <= i < |q| - 1 ensures (q[i], q[i + 1]) in edges { assert (p[i], p[i + 1]) in edges; }
      AncestorsInside(edges, inside, q);
    }
  }

  /** The closure is exact: the fact (if asked for) and all its transitive parents, sorted, each once. */
  method DependencyIDs(e: Engine, id: FactId, includeSelf: bool) returns (r: Result<seq<FactId>, string>)
    requires e.Consistent()
    ensures r.Failure? <==> id !in e.facts
    ensures r.Success? ==> Sorted(r.value) && Distinct(r.value)
    ensures r.Success? ==> forall p :: p in r.value <==>
              p in e.facts && Reaches(DependencyEdges(e.facts), p, id) && (includeSelf || p != id)
  {
    if id !in e.facts {
      return Failure("fact not found");
    }
    BuiltIsRanked(e);
    hide Engine.Consistent, Reaches, DependencyEdges, ParentsSeen, AllReach, Ranked, Sorted, Distinct, Marks;
    var seen := Walk(e.facts, id, id, includeSelf, {}, e.rank);
    ClosureIsExact(e.facts, e.rank, id, includeSelf, seen);
    var out := [];
    var todo := seen;
    OutStarts();
    while todo != {}
      invariant todo <= seen && Distinct(out)
      invariant forall p :: p in out <==> p in seen && p !in todo && (includeSelf || p != id)
    {
      var p :| p in todo;
      todo := todo - {p};
      if includeSelf || p != id {
        OutGrows(out, p);
        out := out + [p];
      }
    }
    SortKeepsDistinct(out);
    r := Success(SortStrings(out));
  }

  lemma OutStarts()
    ensures Distinct<FactId>([])
  {}

  lemma OutGrows(out: seq<FactId>, p: FactId)
    requires Distinct(out) && p !in out
    ensures Distinct(out + [p])
  {}

  lemma BuiltIsRanked(e: Engine)
    requires e.Consistent()
    ensures Ranked(World(e.facts, map[], e.rank))
  {}

  lemma ClosureIsExact(facts: map<FactId, Fact>, rank: map<FactId, nat>, id: FactId, includeSelf: bool,
                       seen: set<FactId>)
    requires Ranked(World(facts, map[], rank)) && id in facts
    requires ParentsSeen(DependencyEdges(facts), includeSelf, id, {}, seen)
    requires AllReach(DependencyEdges(facts), {}, seen, id)
    requires forall n | n in seen :: n in facts
    requires Marks(includeSelf, id, id) ==> id in seen
    requires !Marks(includeSelf, id, id) ==> forall p ::
      (p, id) in DependencyEdges(facts) && Marks(includeSelf, id, p) ==> p in seen
    ensures forall p | includeSelf || p != id :: p in seen <==> p in facts && Reaches(DependencyEdges(facts), p, id)
  {
    var edges, inside := DependencyEdges(facts), seen + {id};
    forall a, b | (a, b) in edges && b in inside ensures a in inside {
      if b != id { assert ParentsSeen(edges, includeSelf, id, {}, seen); }
    }
    forall p | p in facts && Reaches(edges, p, id) ensures p in inside {
      var q :| PathFromTo(edges, q, p, id);
      AncestorsInside(edges, inside, q);
    }
  }

  // ---- Locality ------------------------------------------------------------------------------------------

  /** A change at x changes the truth of no fact that does not transitively depend on x. */
  lemma MutationIsLocal(w: World, w': World, x: FactId, now: int, f: FactId)
    requires Ranked(w) && Ranked(w') && SameExceptAt(w, w', x)
    requires f in w.facts && !Reaches(DependencyEdges(w.facts), x, f)
    ensures Truth(w', now, f) == Truth(w, now, f)
  {
    var edges := DependencyEdges(w.facts);
    var same := set g | g in w.facts && Reaches(edges, g, f);
    ReachesSelf(edges, f);
    forall g, i: nat, r | g in same && g in w.facts && !w.facts[g].isRoot && r in SetRefs(w.facts[g], i)
      ensures SameDependency(w, Uniform(w, now), w', Uniform(w', now), same, SetId(g, i), r)
    {
      assert (r.id, g) in edges;
      EdgeReaches(edges, r.id, g);
      ReachesTransitive(edges, r.id, g, f);
      UniformReads(w, now, g, i);
      UniformReads(w', now, g, i);
    }
    AgreeingWorlds(w, Uniform(w, now), w', Uniform(w', now), same, f);
  }

  /** Retracting x moves the stored status of no fact whose closure omits x, expired facts and age limits or not. */
  method RetractElsewhere(e: Engine, x: FactId, f: FactId, reason: string, now: int) returns (closure: seq<FactId>)
    requires e.Valid() && e.clock <= now && f in e.facts
    modifies e
    ensures e.Valid()
    ensures forall p :: p in closure <==> p in e.facts && Reaches(DependencyEdges(e.facts), p, f)
    ensures x !in closure ==> f in e.derived && f in old(e.derived) && e.derived[f] == old(e.derived)[f]
  {
    hide Engine.Consistent, Engine.DominatorsCurrent, Reaches, DependencyEdges, Kept;
    ValidKeys(e);
    var ids := DependencyIDs(e, f, true);
    closure := ids.value;
    var _ := e.RetractFact(x, reason, now);
    OmittedIsUnreached(e.facts, x, f, closure);
  }

  lemma ValidKeys(e: Engine)
    requires e.Valid()
    ensures e.derived.Keys == e.facts.Keys
  {}

  lemma OmittedIsUnreached(facts: map<FactId, Fact>, x: FactId, f: FactId, closure: seq<FactId>)
    requires f in facts && forall p :: p in closure <==> p in facts && Reaches(DependencyEdges(facts), p, f)
    ensures x !in closure ==> f !in Dependents(facts, x)
  {
    hide Reaches;
    if x !in facts && Reaches(DependencyEdges(facts), x, f) {
      var next := ReachesFirstStep(DependencyEdges(facts), x, f);
    }
  }
}
