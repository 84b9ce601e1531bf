/** Cycle detection over the children index, and the graph check a snapshot must pass. */
module Cycles {
  import opened Facts
  import opened Semantics
  import opened Cache
  import opened Digraph

  /** Parent-to-child edges as the engine stores them. */
  ghost function IndexEdges(sets: Sets, children: Children): Edges {
    set p, j | p in children && j in children[p] && j in sets :: (p, sets[j].child)
  }

  ghost predicate DependsOn(fact: Fact, p: FactId) {
    exists i: nat, r :: r in SetRefs(fact, i) && r.id == p
  }

  /** Parent-to-child edges as the facts declare them. */
  ghost function DependencyEdges(facts: map<FactId, Fact>): Edges {
    set p, f | p in facts && f in facts && DependsOn(facts[f], p) :: (p, f)
  }

  /** Everything newly visited has all its children visited. */
  ghost predicate ExploredSince(edges: Edges, before: set<FactId>, after: set<FactId>) {
    forall a, b :: (a, b) in edges && a in after && a !in before ==> b in after
  }

  /** Depth-first search that shares `visited` between calls: a path from `from` to `target`, or [] when
      everything newly visited has been explored without meeting `target`. */
  method Reachable(sets: Sets, children: Children, from: FactId, target: FactId,
                   visited: set<FactId>, ghost nodes: set<FactId>)
    returns (path: seq<FactId>, visited': set<FactId>)
    requires from in nodes
    requires forall a, b :: (a, b) in IndexEdges(sets, children) ==> b in nodes
    ensures path != [] ==> PathFromTo(IndexEdges(sets, children), path, from, target)
    ensures path == [] ==> from in visited' && visited <= visited' && (target in visited' ==> target in visited)
    ensures path == [] ==> ExploredSince(IndexEdges(sets, children), visited, visited')
    decreases nodes - visited
  {
    ghost var edges := IndexEdges(sets, children);
    visited' := visited;
    if from == target {
      path := [target];
      return;
    }
    if from in visited {
      path := [];
      return;
    }
    visited' := visited' + {from};
    var todo := Kids(children, from);
    while todo != {}
      invariant todo <= Kids(children, from)
      invariant visited + {from} <= visited'
      invariant target in visited' ==> target in visited
      invariant ExploredSince(edges, visited + {from}, visited')
      invariant forall j | j in Kids(children, from) && j !in todo && j in sets :: sets[j].child in visited'
    {
      var j :| j in todo;
      todo := todo - {j};
      if j !in sets {
        continue;
      }
      assert (from, sets[j].child) in edges;
      var subPath, seen := Reachable(sets, children, sets[j].child, target, visited', nodes);
      if subPath != [] {
        path := [from] + subPath;
        PathConcat(edges, [from, sets[j].child], from, sets[j].child, subPath, target);
        assert path == [from, sets[j].child] + subPath[1..];
        return;
      }
      visited' := seen;
    }
    path := [];
  }

  lemma UnexploredIsUnreachable(edges: Edges, from: FactId, target: FactId, visited: set<FactId>)
    requires from in visited && target !in visited && ExploredSince(edges, {}, visited)
    ensures !Reaches(edges, from, target)
  {
    forall p ensures !PathFromTo(edges, p, from, target) {
      if PathFromTo(edges, p, from, target) {
        ClosedHoldsPath(edges, visited, p);
      }
    }
  }

  /** The search is exact: a path comes back precisely when there is one. */
  method FindPath(sets: Sets, children: Children, from: FactId, target: FactId) returns (path: seq<FactId>)
    ensures path != [] <==> Reaches(IndexEdges(sets, children), from, target)
    ensures path != [] ==> PathFromTo(IndexEdges(sets, children), path, from, target)
  {
    ghost var edges := IndexEdges(sets, children);
    ghost var nodes := (set e | e in edges :: e.1) + {from};
    forall a, b | (a, b) in edges ensures b in nodes {
      assert (a, b).1 in nodes;
    }
    var visited;
    path, visited := Reachable(sets, children, from, target, {}, nodes);
    if path == [] {
      UnexploredIsUnreachable(edges, from, target, visited);
    }
  }

  datatype CycleCheck = NoCycle | BadToken | CycleError(path: seq<FactId>)

  /** Some dependency of the fact closes a cycle, as far as the index can tell. */
  ghost predicate Closes(edges: Edges, known: bool, id: FactId, r: DepRef) {
    if known then Reaches(edges, id, r.id) else Reaches(edges, r.id, id)
  }

  ghost predicate ReportedPath(edges: Edges, known: bool, id: FactId, path: seq<FactId>, r: DepRef) {
    if known then path != [] && path[|path| - 1] == id && PathFromTo(edges, path[..|path| - 1], id, r.id)
    else path != [] && path[0] == id && PathFromTo(edges, path[1..], r.id, id)
  }

  /** Checks each dependency token of fact `id` in turn. */
  method DetectCycle(facts: map<FactId, Fact>, sets: Sets, children: Children, id: FactId, fact: Fact)
    returns (r: CycleCheck)
    ensures r.BadToken? ==> !TokensParse(fact)
    ensures r.NoCycle? ==> TokensParse(fact)
    ensures r.NoCycle? ==> forall i: nat, d | d in SetRefs(fact, i) ::
      !Closes(IndexEdges(sets, children), id in facts, id, d)
    ensures r.CycleError? ==> exists d, i, n ::
      DeclaresAt(fact, d, i, n) && ReportedPath(IndexEdges(sets, children), id in facts, id, r.path, d)
  {
    ghost var edges := IndexEdges(sets, children);
    var existing := id in facts;
    for i := 0 to |fact.tokens|
      invariant forall k | 0 <= k < i :: AllParse(fact.tokens[k])
      invariant forall k: nat, d | k < i && d in SetRefs(fact, k) :: !Closes(edges, existing, id, d)
    {
      var tokens := fact.tokens[i];
      for n := 0 to |tokens|
        invariant AllParse(tokens[..n])
        invariant forall d | d in Parsed(tokens[..n]) :: !Closes(edges, existing, id, d)
      {
        var parsed := ParseDependencyRef(tokens[n]);
        if parsed.Failure? {
          return BadToken;
        }
        var d := parsed.value;
        ParsedSnoc(tokens, n);
        if existing {
          var path := FindPath(sets, children, id, d.id);
          if path != [] {
            r := CycleError(path + [id]);
            assert r.path[..|r.path| - 1] == path;
            assert DeclaresAt(fact, d, i, n);
            return;
          }
        } else {
          var path := FindPath(sets, children, d.id, id);
          if path != [] {
            r := CycleError([id] + path);
            assert r.path[1..] == path;
            assert DeclaresAt(fact, d, i, n);
            return;
          }
        }
      }
      assert tokens[..|tokens|] == tokens;
    }
    r := NoCycle;
  }

  ghost predicate DeclaresAt(fact: Fact, d: DepRef, i: nat, n: nat) {
    i < |fact.tokens| && n < |fact.tokens[i]| && ParseDependencyRef(fact.tokens[i][n]) == Success(d)
  }

  lemma TokenIsRef(fact: Fact, d: DepRef, i: nat, n: nat)
    requires DeclaresAt(fact, d, i, n) && TokensParse(fact)
    ensures d in SetRefs(fact, i) && DependsOn(fact, d.id)
  {
    assert Parsed(fact.tokens[i])[n] == d;
  }

  // ---- The check made when a snapshot is restored -------------------------------------------

  datatype GraphCheck = Accepted | UnparsableToken | UnknownParent(id: FactId) | Cyclic(path: seq<FactId>)

  ghost predicate ParentsKnown(facts: map<FactId, Fact>, f: FactId)
    requires f in facts
  {
    forall i: nat, r | r in SetRefs(facts[f], i) :: r.id in facts
  }

  /** The index records exactly the dependencies of the facts entered so far. */
  ghost predicate IndexOf(facts: map<FactId, Fact>, entered: set<FactId>, sets: Sets, children: Children) {
    (forall p, j | j in Kids(children, p) ::
       j in sets && sets[j].child == j.fact && j.fact in facts && p in facts && DependsOn(facts[j.fact], p)) &&
    (forall f, i: nat, r | f in entered && f in facts && r in SetRefs(facts[f], i) ::
     SetId(f, i) in Kids(children, r.id))
  }

  lemma IndexIsDependencies(facts: map<FactId, Fact>, sets: Sets, children: Children)
    requires IndexOf(facts, facts.Keys, sets, children)
    ensures IndexEdges(sets, children) == DependencyEdges(facts)
  {
    forall a, b | (a, b) in IndexEdges(sets, children) ensures (a, b) in DependencyEdges(facts) {
      var j :| j in children[a] && j in sets && b == sets[j].child;
      assert j in Kids(children, a);
    }
    forall a, b | (a, b) in DependencyEdges(facts) ensures (a, b) in IndexEdges(sets, children) {
      var i: nat, r :| r in SetRefs(facts[b], i) && r.id == a;
      assert SetId(b, i) in Kids(children, a);
    }
  }

  /** Enters one justification set of f under each of its parents. */
  method IndexSet(facts: map<FactId, Fact>, f: FactId, i: nat, deps: DependencySet, sets: Sets, children: Children)
    returns (unknown: Option<FactId>, sets': Sets, children': Children)
    requires f in facts && i < |facts[f].tokens|
    requires forall p :: p in deps.all <==> exists r :: r in SetRefs(facts[f], i) && r.id == p
    requires IndexOf(facts, {}, sets, children)
    ensures unknown.Some? ==> unknown.value !in facts && DependsOn(facts[f], unknown.value)
    ensures unknown.None? ==> forall p | p in deps.all :: p in facts
    ensures unknown.None? ==> IndexOf(facts, {}, sets', children')
    ensures unknown.None? ==> forall p :: Kids(children, p) <= Kids(children', p)
    ensures unknown.None? ==> forall p | p in deps.all :: SetId(f, i) in Kids(children', p)
  {
    hide IndexOf, DependsOn;
    sets', children' := sets, children;
    var id := SetId(f, i);
    for k := 0 to |deps.all|
      invariant forall n | 0 <= n < k :: deps.all[n] in facts && id in Kids(children', deps.all[n])
      invariant IndexOf(facts, {}, sets', children')
      invariant forall p :: Kids(children, p) <= Kids(children', p)
    {
      var p := deps.all[k];
      assert p in deps.all;
      IsDependency(facts[f], i, p);
      if p !in facts {
        return Some(p), sets', children';
      }
      IndexGrows(facts, sets', children', f, i, p, deps);
      children' := children'[p := Kids(children', p) + {id}];
      sets' := sets'[id := JSet(f, deps, 0, 0, INVALID)];
    }
    unknown := None;
  }

  lemma IsDependency(fact: Fact, i: nat, p: FactId)
    requires exists r :: r in SetRefs(fact, i) && r.id == p
    ensures DependsOn(fact, p)
  {}

  lemma IndexGrows(facts: map<FactId, Fact>, sets: Sets, children: Children, f: FactId, i: nat, p: FactId,
                   deps: DependencySet)
    requires IndexOf(facts, {}, sets, children) && f in facts && p in facts && DependsOn(facts[f], p)
    ensures IndexOf(facts, {}, sets[SetId(f, i) := JSet(f, deps, 0, 0, INVALID)],
                    children[p := Kids(children, p) + {SetId(f, i)}])
    ensures forall q :: Kids(children, q) <= Kids(children[p := Kids(children, p) + {SetId(f, i)}], q)
    ensures SetId(f, i) in Kids(children[p := Kids(children, p) + {SetId(f, i)}], p)
  {
    hide DependsOn;
    var id := SetId(f, i);
    var children' := children[p := Kids(children, p) + {id}];
    assert forall q :: Kids(children', q) == if q == p then Kids(children, q) + {id} else Kids(children, q);
  }

  method BuildValidationIndex(facts: map<FactId, Fact>) returns (r: GraphCheck, sets: Sets, children: Children)
    ensures r.Accepted? || r.UnparsableToken? || r.UnknownParent?
    ensures r.Accepted? ==> forall f | f in facts :: TokensParse(facts[f]) && ParentsKnown(facts, f)
    ensures r.Accepted? ==> IndexOf(facts, facts.Keys, sets, children)
    ensures r.UnparsableToken? ==> exists f :: f in facts && !TokensParse(facts[f])
    ensures r.UnknownParent? ==> r.id !in facts && exists f :: f in facts && DependsOn(facts[f], r.id)
  {
    sets, children := map[], map[];
    var todo := facts.Keys;
    while todo != {}
      invariant todo <= facts.Keys
      invariant IndexOf(facts, facts.Keys - todo, sets, children)
      invariant forall f | f in facts && f !in todo :: TokensParse(facts[f]) && ParentsKnown(facts, f)
    {
      var f :| f in todo;
      var check;
      check, sets, children := IndexFact(facts, f, facts.Keys - todo, sets, children);
      if !check.Accepted? {
        return check, sets, children;
      }
      assert facts.Keys - (todo - {f}) == facts.Keys - todo + {f};
      todo := todo - {f};
    }
    assert facts.Keys - todo == facts.Keys;
    r := Accepted;
  }

  method IndexFact(facts: map<FactId, Fact>, f: FactId, ghost entered: set<FactId>, sets: Sets, children: Children)
    returns (r: GraphCheck, sets': Sets, children': Children)
    requires f in facts && IndexOf(facts, entered, sets, children)
    ensures r.Accepted? || r.UnparsableToken? || r.UnknownParent?
    ensures r.Accepted? ==>
      TokensParse(facts[f]) && ParentsKnown(facts, f) && IndexOf(facts, entered + {f}, sets', children')
    ensures r.UnparsableToken? ==> !TokensParse(facts[f])
    ensures r.UnknownParent? ==> r.id !in facts && DependsOn(facts[f], r.id)
  {
    sets', children' := sets, children;
    var tokens := facts[f].tokens;
    for i := 0 to |tokens|
      invariant IndexOf(facts, {}, sets', children')
      invariant forall p :: Kids(children, p) <= Kids(children', p)
      invariant forall k | 0 <= k < i :: AllParse(tokens[k])
      invariant forall k: nat, d | k < i && d in SetRefs(facts[f], k) ::
        d.id in facts && SetId(f, k) in Kids(children', d.id)
    {
      var split := SplitDependencySet(tokens[i]);
      if split.Failure? {
        return UnparsableToken, sets', children';
      }
      AllAreRefs(split.value, tokens[i]);
      assert SetRefs(facts[f], i) == Parsed(tokens[i]);
      ghost var before := children';
      var unknown;
      unknown, sets', children' := IndexSet(facts, f, i, split.value, sets', children');
      if unknown.Some? {
        return UnknownParent(unknown.value), sets', children';
      }
      forall k: nat, d | k < i + 1 && d in SetRefs(facts[f], k)
        ensures d.id in facts && SetId(f, k) in Kids(children', d.id)
      {
        if k == i { assert d.id in split.value.all; } else { assert SetId(f, k) in Kids(before, d.id); }
      }
    }
    r := Accepted;
  }

  lemma AllAreRefs(deps: DependencySet, tokens: seq<string>)
    requires AllParse(tokens) && (forall r :: r in deps.Refs() <==> r in Parsed(tokens))
    requires multiset(deps.all) == multiset(deps.positive) + multiset(deps.negative)
    ensures forall p :: p in deps.all <==> exists r :: r in Parsed(tokens) && r.id == p
  {
    RefsMembers(deps);
    forall p ensures p in deps.all <==> exists r :: r in Parsed(tokens) && r.id == p {
      assert p in deps.all <==> p in multiset(deps.all);
      assert p in multiset(deps.all) <==> p in multiset(deps.positive) || p in multiset(deps.negative);
      if p in deps.positive { assert DepRef(p, false) in deps.Refs(); }
      if p in deps.negative { assert DepRef(p, true) in deps.Refs(); }
    }
  }

  /** The facts form a well-formed dependency graph apart from cycles. */
  ghost predicate WellFormed(facts: map<FactId, Fact>) {
    forall f | f in facts :: TokensParse(facts[f]) && ParentsKnown(facts, f)
  }

  /** Restoring rejects exactly the cyclic graphs, and shows a cycle. */
  method ValidateGraph(facts: map<FactId, Fact>) returns (r: GraphCheck)
    ensures r.Accepted? <==> WellFormed(facts) && Acyclic(DependencyEdges(facts))
    ensures r.Cyclic? <==> WellFormed(facts) && !Acyclic(DependencyEdges(facts))
    ensures r.Cyclic? ==> IsCycle(DependencyEdges(facts), r.path)
    ensures r.UnknownParent? ==> r.id !in facts && exists f :: f in facts && DependsOn(facts[f], r.id)
  {
    var sets, children;
    r, sets, children := BuildValidationIndex(facts);
    if !r.Accepted? {
      if r.UnknownParent? { UnknownIsIllFormed(facts, r.id); }
      return;
    }
    IndexIsDependencies(facts, sets, children);
    ghost var edges := DependencyEdges(facts);
    var todo := facts.Keys;
    while todo != {}
      invariant todo <= facts.Keys
      invariant forall f | f in facts && f !in todo :: NotOnCycle(facts, f)
    {
      var f :| f in todo;
      var check := DetectCycle(facts, sets, children, f, facts[f]);
      assert !check.BadToken?;
      if check.CycleError? {
        ReportIsCycle(facts, f, check.path);
        return Cyclic(check.path);
      }
      forall i: nat, d | d in SetRefs(facts[f], i) ensures !Reaches(edges, f, d.id) {
        assert !Closes(edges, true, f, d);
      }
      todo := todo - {f};
    }
    NoFactOnCycle(facts);
  }

  lemma UnknownIsIllFormed(facts: map<FactId, Fact>, p: FactId)
    requires p !in facts && exists f :: f in facts && DependsOn(facts[f], p)
    ensures !WellFormed(facts)
  {
    var f :| f in facts && DependsOn(facts[f], p);
    var i: nat, r :| r in SetRefs(facts[f], i) && r.id == p;
    assert !ParentsKnown(facts, f);
  }

  ghost predicate NotOnCycle(facts: map<FactId, Fact>, f: FactId)
    requires f in facts
  {
    forall i: nat, d | d in SetRefs(facts[f], i) :: !Reaches(DependencyEdges(facts), f, d.id)
  }

  lemma ReportIsCycle(facts: map<FactId, Fact>, f: FactId, path: seq<FactId>)
    requires f in facts && WellFormed(facts)
    requires exists d, i, n :: DeclaresAt(facts[f], d, i, n) && ReportedPath(DependencyEdges(facts), true, f, path, d)
    ensures IsCycle(DependencyEdges(facts), path)
  {
    var d, i, n :| DeclaresAt(facts[f], d, i, n) && ReportedPath(DependencyEdges(facts), true, f, path, d);
    TokenIsRef(facts[f], d, i, n);
    var init := path[..|path| - 1];
    assert (d.id, f) in DependencyEdges(facts);
    forall k | 0 <= k < |path| - 1 ensures (path[k], path[k + 1]) in DependencyEdges(facts) {
      if k < |init| - 1 { assert (init[k], init[k + 1]) in DependencyEdges(facts); }
    }
  }

  lemma NoFactOnCycle(facts: map<FactId, Fact>)
    requires forall f | f in facts :: NotOnCycle(facts, f)
    ensures Acyclic(DependencyEdges(facts))
  {
    hide *;
    forall p ensures !IsCycle(DependencyEdges(facts), p) {
      if IsCycle(DependencyEdges(facts), p) {
        CycleTurns(facts, p);
        TurnIsOnCycle(facts, p[0], p[|p| - 2]);
      }
    }
    NoCycleIsAcyclic(DependencyEdges(facts));
  }

  /** A cycle leads from a fact to something it depends on. */
  lemma CycleTurns(facts: map<FactId, Fact>, p: seq<FactId>)
    requires IsCycle(DependencyEdges(facts), p)
    ensures |p| >= 2 && p[0] in facts && DependsOn(facts[p[0]], p[|p| - 2])
    ensures Reaches(DependencyEdges(facts), p[0], p[|p| - 2])
  {
    var edges, q := DependencyEdges(facts), p[..|p| - 1];
    assert (p[|p| - 2], p[|p| - 1]) in edges;
    hide DependencyEdges, DependsOn;
    forall k | 0 <= k < |q| - 1 ensures (q[k], q[k + 1]) in edges {
      assert (p[k], p[k + 1]) in edges;
    }
    assert PathFromTo(edges, q, p[0], p[|p| - 2]);
  }

  lemma TurnIsOnCycle(facts: map<FactId, Fact>, f: FactId, last: FactId)
    requires f in facts && DependsOn(facts[f], last) && Reaches(DependencyEdges(facts), f, last)
    ensures !NotOnCycle(facts, f)
  {
    var i: nat, r :| r in SetRefs(facts[f], i) && r.id == last;
    hide DependencyEdges, Reaches, SetRefs;
  }

  lemma NoCycleIsAcyclic(edges: Edges)
    requires forall p :: !IsCycle(edges, p)
    ensures Acyclic(edges)
  {}

  // ---- Graphs built by assertion --------------------------------------------------------------

  /** A ranked world's dependencies have no cycle. */
  lemma RankedWorldIsAcyclic(w: World)
    requires Ranked(w)
    ensures WellFormed(w.facts) && Acyclic(DependencyEdges(w.facts))
  {
    forall a, b | (a, b) in DependencyEdges(w.facts) ensures a in w.rank && b in w.rank && w.rank[a] < w.rank[b] {
      var i: nat, r :| r in SetRefs(w.facts[b], i) && r.id == a;
    }
    RankedIsAcyclic(DependencyEdges(w.facts), w.rank);
  }

  /** A new fact whose parents are all known cannot be reached from any of them, so the check never fires. */
  lemma NewFactUnreachable(w: World, sets: Sets, children: Children, id: FactId, p: FactId)
    requires Shape(w, sets, children) && id !in w.facts && p in w.facts
    ensures !Reaches(IndexEdges(sets, children), p, id)
  {
    var edges := IndexEdges(sets, children);
    forall a, b | (a, b) in edges ensures b in w.facts.Keys {
      var j :| j in children[a] && j in sets && b == sets[j].child;
      assert IsSetId(w, j) && SetShape(w.facts[j.fact], j, sets[j]);
    }
    forall q ensures !PathFromTo(edges, q, p, id) {
      if PathFromTo(edges, q, p, id) {
        ClosedHoldsPath(edges, w.facts.Keys, q);
      }
    }
  }
}
