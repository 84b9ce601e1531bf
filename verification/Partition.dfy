/** Connected components of the global facts, by union-find with path compression. */
module Partitions {
  import opened Facts
  import opened Strings
  import opened Digraph
  import opened Semantics
  import Cycles

  type Parents = map<FactId, FactId>
  type Depths = map<FactId, nat>

  // ---- The forest that union-find keeps ---------------------------------------------------------------

  ghost predicate StepsUp(parent: Parents, depth: Depths, x: FactId) {
    x in parent && parent[x] in parent && x in depth && parent[x] in depth &&
    (parent[x] != x ==> depth[parent[x]] < depth[x])
  }

  /** Following parents ends: the depths fall on the way to a root. */
  ghost predicate Rooted(parent: Parents, depth: Depths) {
    depth.Keys == parent.Keys && forall x {:trigger StepsUp(parent, depth, x)} | x in parent ::
      StepsUp(parent, depth, x)
  }

  ghost function Root(parent: Parents, depth: Depths, x: FactId): (r: FactId)
    requires Rooted(parent, depth) && x in parent
    ensures r in parent && parent[r] == r && x in depth && r in depth && (r != x ==> depth[r] < depth[x])
    decreases if x in depth then depth[x] else 0
  {
    assert StepsUp(parent, depth, x);
    if parent[x] == x then x else Root(parent, depth, parent[x])
  }

  ghost predicate SameRoots(a: Parents, ad: Depths, b: Parents, bd: Depths) {
    Rooted(a, ad) && Rooted(b, bd) && a.Keys == b.Keys &&
    forall x {:trigger Root(a, ad, x)} {:trigger Root(b, bd, x)} | x in a :: Root(a, ad, x) == Root(b, bd, x)
  }

  /** Pointing a node straight at its root moves no root. */
  lemma CompressionKeepsRoots(parent: Parents, depth: Depths, x: FactId)
    requires Rooted(parent, depth) && x in parent
    ensures Rooted(parent[x := Root(parent, depth, x)], depth)
    ensures SameRoots(parent, depth, parent[x := Root(parent, depth, x)], depth)
  {
    var parent' := parent[x := Root(parent, depth, x)];
    forall y | y in parent ensures StepsUp(parent', depth, y) {
      assert StepsUp(parent, depth, y);
    }
    assert Rooted(parent', depth);
    forall y | y in parent ensures Root(parent, depth, y) == Root(parent', depth, y) {
      CompressedRoot(parent, depth, x, y);
    }
  }

  lemma {:induction false} CompressedRoot(parent: Parents, depth: Depths, x: FactId, y: FactId)
    requires Rooted(parent, depth) && x in parent && y in parent
    requires Rooted(parent[x := Root(parent, depth, x)], depth)
    ensures Root(parent, depth, y) == Root(parent[x := Root(parent, depth, x)], depth, y)
    decreases depth[y]
  {
    if y == x {
      var r := Root(parent, depth, x);
      assert parent[r] == r;
    } else if parent[y] != y {
      assert StepsUp(parent, depth, y);
      CompressedRoot(parent, depth, x, parent[y]);
    }
  }

  /** Finds the root of x, and points every node on the way straight at it. */
  method Find(parent: Parents, x: FactId, ghost depth: Depths) returns (root: FactId, parent': Parents)
    requires Rooted(parent, depth) && x in parent
    ensures root == Root(parent, depth, x) && SameRoots(parent, depth, parent', depth)
    ensures parent'[root] == root
    decreases depth[x]
  {
    parent' := parent;
    assert StepsUp(parent, depth, x);
    if parent[x] != x {
      var above;
      above, parent' := Find(parent, parent[x], depth);
      CompressionKeepsRoots(parent', depth, x);
      parent' := parent'[x := above];
    }
    root := parent'[x];
  }

  /** Depths after the tree of px has been hung below py. */
  ghost function Lowered(parent: Parents, depth: Depths, px: FactId, py: FactId): Depths
    requires Rooted(parent, depth) && py in parent
  {
    map x | x in parent :: if Root(parent, depth, x) == px then depth[x] + depth[py] + 1 else depth[x]
  }

  ghost function Merged(r: FactId, px: FactId, py: FactId): FactId {
    if r == px then py else r
  }

  /** Hanging one root below another merges exactly their two trees. */
  lemma HangingMerges(parent: Parents, depth: Depths, px: FactId, py: FactId)
    requires Rooted(parent, depth) && px in parent && py in parent && px != py && parent[px] == px && parent[py] == py
    ensures Rooted(parent[px := py], Lowered(parent, depth, px, py))
    ensures forall x | x in parent ::
      Root(parent[px := py], Lowered(parent, depth, px, py), x) == Merged(Root(parent, depth, x), px, py)
  {
    var parent', depth' := parent[px := py], Lowered(parent, depth, px, py);
    assert Root(parent, depth, px) == px && Root(parent, depth, py) == py;
    forall x | x in parent' ensures StepsUp(parent', depth', x) {
      assert StepsUp(parent, depth, x) && Root(parent, depth, parent[x]) == Root(parent, depth, x);
    }
    forall x | x in parent ensures Root(parent', depth', x) == Merged(Root(parent, depth, x), px, py) {
      HungRoot(parent, depth, px, py, x);
    }
  }

  lemma {:induction false} HungRoot(parent: Parents, depth: Depths, px: FactId, py: FactId, x: FactId)
    requires Rooted(parent, depth) && px in parent && py in parent && px != py && parent[px] == px && parent[py] == py
    requires Rooted(parent[px := py], Lowered(parent, depth, px, py)) && x in parent
    ensures Root(parent[px := py], Lowered(parent, depth, px, py), x) == Merged(Root(parent, depth, x), px, py)
    decreases depth[x]
  {
    assert StepsUp(parent, depth, x);
    if parent[x] != x {
      HungRoot(parent, depth, px, py, parent[x]);
    } else if x == px {
      assert Root(parent[px := py], Lowered(parent, depth, px, py), py) == py;
    }
  }

  // ---- Roots and connection -----------------------------------------------------------------------------

  ghost predicate Symmetric(edges: Edges) {
    forall a, b :: (a, b) in edges ==> (b, a) in edges
  }

  ghost predicate Within(edges: Edges, nodes: set<FactId>) {
    forall a, b :: (a, b) in edges ==> a in nodes && b in nodes
  }

  /** Two nodes have the same root exactly when the edges seen so far connect them. */
  ghost predicate Represents(parent: Parents, depth: Depths, edges: Edges) {
    Rooted(parent, depth) && Symmetric(edges) && Within(edges, parent.Keys) &&
    forall x, y {:trigger SameTree(parent, depth, x, y)} {:trigger Reaches(edges, x, y)} | x in parent && y in parent ::
      SameTree(parent, depth, x, y) <==> Reaches(edges, x, y)
  }

  ghost predicate SameTree(parent: Parents, depth: Depths, x: FactId, y: FactId) {
    Rooted(parent, depth) && x in parent && y in parent && Root(parent, depth, x) == Root(parent, depth, y)
  }

  ghost function BothWays(x: FactId, y: FactId): Edges {
    {(x, y), (y, x)}
  }

  lemma {:induction false} PathBack(edges: Edges, p: seq<FactId>)
    requires Symmetric(edges) && IsPath(edges, p)
    ensures Reaches(edges, p[|p| - 1], p[0])
    decreases |p|
  {
    if |p| == 1 {
      ReachesSelf(edges, p[0]);
    } else {
      assert (p[0], p[1]) in edges;
      forall i | 0 <= i < |p[1..]| - 1 ensures (p[1..][i], p[1..][i + 1]) in edges {
        assert (p[i + 1], p[i + 2]) in edges;
      }
      PathBack(edges, p[1..]);
      EdgeReaches(edges, p[1], p[0]);
      ReachesTransitive(edges, p[|p| - 1], p[1], p[0]);
    }
  }

  lemma ReachesBack(edges: Edges, a: FactId, b: FactId)
    requires Symmetric(edges) && Reaches(edges, a, b)
    ensures Reaches(edges, b, a)
  {
    var p :| PathFromTo(edges, p, a, b);
    PathBack(edges, p);
  }

  lemma MoreEdgesReach(small: Edges, large: Edges, a: FactId, b: FactId)
    requires small <= large && Reaches(small, a, b)
    ensures Reaches(large, a, b)
  {
    var p :| PathFromTo(small, p, a, b);
    forall i | 0 <= i < |p| - 1 ensures (p[i], p[i + 1]) in large {
      assert (p[i], p[i + 1]) in small;
    }
    assert PathFromTo(large, p, a, b);
  }

  /** The trees of x and y have become one, rooted where y's was. */
  ghost predicate TreesMerged(parent: Parents, depth: Depths, x: FactId, y: FactId, parent': Parents, depth': Depths) {
    Rooted(parent, depth) && x in parent && y in parent && Rooted(parent', depth') && parent'.Keys == parent.Keys &&
    forall z {:trigger Root(parent', depth', z)} {:trigger Root(parent, depth, z)} | z in parent ::
      Root(parent', depth', z) == Merged(Root(parent, depth, z), Root(parent, depth, x), Root(parent, depth, y))
  }

  /** What a tree holds after the merge is what the larger edge set connects. */
  lemma MergeRepresents(parent: Parents, depth: Depths, edges: Edges, x: FactId, y: FactId, parent': Parents,
                        depth': Depths)
    requires Represents(parent, depth, edges) && x in parent && y in parent
    requires TreesMerged(parent, depth, x, y, parent', depth')
    ensures Represents(parent', depth', edges + BothWays(x, y))
  {
    hide Rooted, Root, Reaches;
    var more := edges + BothWays(x, y);
    forall u, v | u in parent' && v in parent' ensures SameTree(parent', depth', u, v) <==> Reaches(more, u, v) {
      hide TreesMerged, Represents, BothWays;
      if SameTree(parent', depth', u, v) {
        MergedReaches(parent, depth, edges, x, y, parent', depth', u, v);
      }
      if Reaches(more, u, v) {
        ReachedIsMerged(parent, depth, edges, x, y, parent', depth', u, v);
      }
    }
  }

  lemma MergedReaches(parent: Parents, depth: Depths, edges: Edges, x: FactId, y: FactId, parent': Parents,
                      depth': Depths, u: FactId, v: FactId)
    requires Represents(parent, depth, edges) && x in parent && y in parent
    requires TreesMerged(parent, depth, x, y, parent', depth')
    requires SameTree(parent', depth', u, v)
    ensures Reaches(edges + BothWays(x, y), u, v)
  {
    var more := edges + BothWays(x, y);
    EdgeReaches(more, x, y);
    EdgeReaches(more, y, x);
    if SameTree(parent, depth, u, v) {
      MoreEdgesReach(edges, more, u, v);
    } else if SameTree(parent, depth, u, x) {
      assert SameTree(parent, depth, y, v);
      MoreEdgesReach(edges, more, u, x);
      MoreEdgesReach(edges, more, y, v);
      ReachesTransitive(more, u, x, y);
      ReachesTransitive(more, u, y, v);
    } else {
      assert SameTree(parent, depth, u, y) && SameTree(parent, depth, x, v);
      MoreEdgesReach(edges, more, u, y);
      MoreEdgesReach(edges, more, x, v);
      ReachesTransitive(more, u, y, x);
      ReachesTransitive(more, u, x, v);
    }
  }

  lemma ReachedIsMerged(parent: Parents, depth: Depths, edges: Edges, x: FactId, y: FactId, parent': Parents,
                        depth': Depths, u: FactId, v: FactId)
    requires Represents(parent, depth, edges) && x in parent && y in parent && u in parent && v in parent
    requires TreesMerged(parent, depth, x, y, parent', depth')
    requires Reaches(edges + BothWays(x, y), u, v)
    ensures SameTree(parent', depth', u, v)
  {
    var more := edges + BothWays(x, y);
    hide Rooted, Root, BothWays;
    var p :| PathFromTo(more, p, u, v);
    var closed := set z | z in parent' && SameTree(parent', depth', u, z);
    forall a, b | (a, b) in more && a in closed ensures b in closed {
      hide IsPath, Represents;
      EdgeIsMerged(parent, depth, edges, x, y, parent', depth', a, b);
    }
    assert u in closed;
    hide TreesMerged, Represents;
    ClosedHoldsPath(more, closed, p);
  }

  lemma EdgeIsMerged(parent: Parents, depth: Depths, edges: Edges, x: FactId, y: FactId, parent': Parents,
                     depth': Depths, a: FactId, b: FactId)
    requires Represents(parent, depth, edges) && TreesMerged(parent, depth, x, y, parent', depth')
    requires (a, b) in edges + BothWays(x, y)
    ensures SameTree(parent', depth', a, b)
  {
    hide Rooted, Root, Reaches;
    if (a, b) in edges {
      EdgeReaches(edges, a, b);
      assert SameTree(parent, depth, a, b);
    } else {
      assert (a == x && b == y) || (a == y && b == x);
    }
  }

  method Union(parent: Parents, x: FactId, y: FactId, ghost depth: Depths, ghost edges: Edges)
    returns (parent': Parents, ghost depth': Depths)
    requires Represents(parent, depth, edges) && x in parent && y in parent
    ensures Represents(parent', depth', edges + BothWays(x, y)) && parent'.Keys == parent.Keys
  {
    hide *;
    RepresentsIsRooted(parent, depth, edges);
    var px, py;
    ghost var start := parent;
    px, parent' := Find(parent, x, depth);
    ghost var mid := parent';
    SameRootsRoot(start, mid, depth, x);
    py, parent' := Find(parent', y, depth);
    ghost var last := parent';
    SameRootsRoot(mid, last, depth, y);
    SameRootsTwice(start, mid, last, depth);
    SameRootsRoot(start, last, depth, x);
    SameRootsRoot(start, last, depth, y);
    SameRootsRoot(start, mid, depth, y);
    depth' := depth;
    if px != py {
      depth' := Lowered(last, depth, px, py);
      parent' := parent'[px := py];
    }
    HangingIsMerging(start, last, depth, x, y, parent', depth');
    MergeRepresents(start, depth, edges, x, y, parent', depth');
  }

  lemma SameRootsRoot(a: Parents, b: Parents, depth: Depths, x: FactId)
    requires SameRoots(a, depth, b, depth) && x in a
    ensures Rooted(a, depth) && Rooted(b, depth) && a.Keys == b.Keys && Root(b, depth, x) == Root(a, depth, x)
    ensures Root(a, depth, x) in b && b[Root(a, depth, x)] == Root(a, depth, x)
  {
    hide Rooted;
    var r := Root(b, depth, x);
  }

  lemma HangingIsMerging(start: Parents, last: Parents, depth: Depths, x: FactId, y: FactId, parent': Parents,
                         depth': Depths)
    requires SameRoots(start, depth, last, depth) && x in start && y in start
    requires var px, py := Root(start, depth, x), Root(start, depth, y);
      if px == py then parent' == last && depth' == depth
      else px in last && parent' == last[px := py] && depth' == Lowered(last, depth, px, py)
    ensures TreesMerged(start, depth, x, y, parent', depth')
  {
    var px, py := Root(start, depth, x), Root(start, depth, y);
    SameRootsRoot(start, last, depth, x);
    SameRootsRoot(start, last, depth, y);
    hide Rooted, Root, Lowered;
    if px != py {
      HangingMerges(last, depth, px, py);
    }
  }

  lemma RepresentsIsRooted(parent: Parents, depth: Depths, edges: Edges)
    requires Represents(parent, depth, edges)
    ensures Rooted(parent, depth)
  {}

  lemma SameRootsTwice(a: Parents, b: Parents, c: Parents, depth: Depths)
    requires SameRoots(a, depth, b, depth) && SameRoots(b, depth, c, depth)
    ensures SameRoots(a, depth, c, depth)
  {}

  // ---- The dependency graph among the facts --------------------------------------------------------------

  /** The token is the id p, or denies it. */
  ghost predicate NamedBy(token: string, p: FactId) {
    token == "!" + p || (token == p && (p == "" || p[0] != '!'))
  }

  ghost predicate NamedAt(fact: Fact, p: FactId, i: int, n: int) {
    0 <= i < |fact.tokens| && 0 <= n < |fact.tokens[i]| && NamedBy(fact.tokens[i][n], p)
  }

  /** Some token of the fact names p. */
  ghost predicate Names(fact: Fact, p: FactId) {
    exists i, n :: NamedAt(fact, p, i, n)
  }

  ghost predicate Linked(facts: map<FactId, Fact>, a: FactId, b: FactId) {
    a in facts && b in facts && (Names(facts[a], b) || Names(facts[b], a))
  }

  /** The dependencies among the facts, in both directions. */
  ghost function Links(facts: map<FactId, Fact>): Edges {
    set a, b | a in facts && b in facts && Linked(facts, a, b) :: (a, b)
  }

  /** The part of the links found from a fact's first tokens. */
  ghost predicate NamedBefore(fact: Fact, p: FactId, i: nat, n: nat) {
    exists k, l :: NamedAt(fact, p, k, l) && (k < i || (k == i && l < n))
  }

  ghost predicate UnionStep(facts: map<FactId, Fact>, id: FactId, i: nat, n: nat, before: Edges, edges: Edges) {
    id in facts && forall a, b :: (a, b) in edges <==>
      (a, b) in before || (a == id && b in facts && NamedBefore(facts[id], b, i, n)) ||
      (b == id && a in facts && NamedBefore(facts[id], a, i, n))
  }

  /** A token names what is left of it without its mark, and nothing else. */
  lemma NamesOne(token: string, p: FactId)
    requires p == if |token| > 0 && token[0] == '!' then token[1..] else token
    ensures forall q :: NamedBy(token, q) <==> q == p
  {
    if |token| > 0 && token[0] == '!' {
      assert token == "!" + token[1..];
    }
    forall q | NamedBy(token, q) ensures q == p {
      if token == "!" + q {
        assert token[1..] == q;
      }
    }
  }

  /** One more token has been read, which names p. */
  lemma NamedOneMore(fact: Fact, i: nat, n: nat, p: FactId)
    requires i < |fact.tokens| && n < |fact.tokens[i]| && forall q :: NamedBy(fact.tokens[i][n], q) <==> q == p
    ensures forall q :: NamedBefore(fact, q, i, n + 1) <==> NamedBefore(fact, q, i, n) || q == p
  {
    hide NamedBy;
    forall q ensures NamedBefore(fact, q, i, n + 1) <==> NamedBefore(fact, q, i, n) || q == p {
      assert NamedAt(fact, p, i, n);
      if q != p && NamedBefore(fact, q, i, n + 1) {
        var k, l :| NamedAt(fact, q, k, l) && (k < i || (k == i && l < n + 1));
        assert !(k == i && l == n);
      }
    }
  }

  /** One more set has been read. */
  lemma NamedOneRow(fact: Fact, i: nat)
    requires i < |fact.tokens|
    ensures forall q :: NamedBefore(fact, q, i + 1, 0) <==> NamedBefore(fact, q, i, |fact.tokens[i]|)
  {
    hide NamedBy;
    forall q ensures NamedBefore(fact, q, i + 1, 0) <==> NamedBefore(fact, q, i, |fact.tokens[i]|) {
      if NamedBefore(fact, q, i + 1, 0) {
        var k, l :| NamedAt(fact, q, k, l) && (k < i + 1 || (k == i + 1 && l < 0));
        assert k < i || l < |fact.tokens[i]|;
      }
    }
  }

  /** All tokens have been read. */
  lemma NamedThroughout(fact: Fact)
    ensures forall q :: NamedBefore(fact, q, |fact.tokens|, 0) <==> Names(fact, q)
  {
    hide NamedBy;
    forall q ensures NamedBefore(fact, q, |fact.tokens|, 0) <==> Names(fact, q) {
      if Names(fact, q) {
        var k, l :| NamedAt(fact, q, k, l);
        assert k < |fact.tokens|;
      }
    }
  }

  lemma NamedNext(facts: map<FactId, Fact>, id: FactId, i: nat, n: nat, p: FactId, before: Edges, edges: Edges)
    requires UnionStep(facts, id, i, n, before, edges) && i < |facts[id].tokens| && n < |facts[id].tokens[i]|
    requires forall q :: NamedBy(facts[id].tokens[i][n], q) <==> q == p
    ensures UnionStep(facts, id, i, n + 1, before, if p in facts then edges + BothWays(id, p) else edges)
  {
    NamedOneMore(facts[id], i, n, p);
    hide NamedBefore;
  }

  lemma NamedRow(facts: map<FactId, Fact>, id: FactId, i: nat, before: Edges, edges: Edges)
    requires id in facts && i < |facts[id].tokens| && UnionStep(facts, id, i, |facts[id].tokens[i]|, before, edges)
    ensures UnionStep(facts, id, i + 1, 0, before, edges)
  {
    NamedOneRow(facts[id], i);
    hide NamedBefore;
  }

  lemma NamedAtFirst(fact: Fact)
    ensures forall q :: !NamedBefore(fact, q, 0, 0)
  {}

  lemma NothingNamed(facts: map<FactId, Fact>, id: FactId, edges: Edges)
    requires id in facts
    ensures UnionStep(facts, id, 0, 0, edges, edges)
  {}

  /** Unites a fact with every known fact its tokens name. */
  method UnionFact(facts: map<FactId, Fact>, id: FactId, parent: Parents, ghost depth: Depths, ghost edges: Edges)
    returns (parent': Parents, ghost depth': Depths, ghost edges': Edges)
    requires id in facts && parent.Keys == facts.Keys && Represents(parent, depth, edges)
    ensures parent'.Keys == facts.Keys && Represents(parent', depth', edges')
    ensures UnionStep(facts, id, |facts[id].tokens|, 0, edges, edges')
  {
    hide Represents, UnionStep, NamedBy;
    parent', depth', edges' := parent, depth, edges;
    NothingNamed(facts, id, edges);
    var sets_ := facts[id].tokens;
    for i := 0 to |sets_|
      invariant parent'.Keys == facts.Keys && Represents(parent', depth', edges')
      invariant UnionStep(facts, id, i, 0, edges, edges')
    {
      for n := 0 to |sets_[i]|
        invariant parent'.Keys == facts.Keys && Represents(parent', depth', edges')
        invariant UnionStep(facts, id, i, n, edges, edges')
      {
        var p := sets_[i][n];
        if |p| > 0 && p[0] == '!' {
          p := p[1..];
        }
        NamesOne(sets_[i][n], p);
        NamedNext(facts, id, i, n, p, edges, edges');
        if p in facts {
          parent', depth' := Union(parent', id, p, depth', edges');
          edges' := edges' + BothWays(id, p);
        }
      }
      NamedRow(facts, id, i, edges, edges');
    }
  }

  /** The links seen once the facts outside `todo` have been processed. */
  ghost predicate SeenFrom(facts: map<FactId, Fact>, done: set<FactId>, edges: Edges) {
    forall a, b :: (a, b) in edges <==>
      a in facts && b in facts && ((a in done && Names(facts[a], b)) || (b in done && Names(facts[b], a)))
  }

  lemma FactSeen(facts: map<FactId, Fact>, done: set<FactId>, id: FactId, before: Edges, edges: Edges)
    requires SeenFrom(facts, done, before) && id in facts && UnionStep(facts, id, |facts[id].tokens|, 0, before, edges)
    ensures SeenFrom(facts, done + {id}, edges)
  {
    NamedThroughout(facts[id]);
    hide NamedBefore, Names;
  }

  lemma AllSeen(facts: map<FactId, Fact>, edges: Edges)
    requires SeenFrom(facts, facts.Keys, edges)
    ensures edges == Links(facts)
  {
    hide Names;
    forall e ensures e in edges <==> e in Links(facts) {
      var (a, b) := e;
      assert (a, b) in edges <==> a in facts && b in facts && Linked(facts, a, b);
    }
  }

  lemma Singletons(facts: map<FactId, Fact>, parent: Parents, depth: Depths)
    requires parent.Keys == facts.Keys && depth.Keys == facts.Keys && forall x | x in parent :: parent[x] == x
    ensures Represents(parent, depth, {}) && SeenFrom(facts, {}, {})
  {
    forall x | x in parent ensures StepsUp(parent, depth, x) {}
    assert Rooted(parent, depth);
    forall x, y | x in parent && y in parent ensures SameTree(parent, depth, x, y) <==> Reaches({}, x, y) {
      ReachesSelf({}, x);
      if Reaches({}, x, y) && x != y {
        var next := ReachesFirstStep({}, x, y);
      }
    }
  }

  method UnionAll(facts: map<FactId, Fact>) returns (parent: Parents, ghost depth: Depths)
    ensures parent.Keys == facts.Keys && Represents(parent, depth, Links(facts))
    ensures AllTokensParse(facts) ==> Represents(parent, depth, Connections(facts))
  {
    hide Connections, AllTokensParse;
    hide Represents, SeenFrom, UnionStep;
    parent := map id | id in facts :: id;
    depth := map id | id in facts :: 0;
    Singletons(facts, parent, depth);
    ghost var edges: Edges := {};
    var todo := facts.Keys;
    assert facts.Keys - todo == {};
    while todo != {}
      invariant todo <= facts.Keys && parent.Keys == facts.Keys
      invariant Represents(parent, depth, edges) && SeenFrom(facts, facts.Keys - todo, edges)
    {
      var id :| id in todo;
      ghost var before := edges;
      parent, depth, edges := UnionFact(facts, id, parent, depth, edges);
      FactSeen(facts, facts.Keys - todo, id, before, edges);
      assert facts.Keys - (todo - {id}) == facts.Keys - todo + {id};
      todo := todo - {id};
    }
    assert facts.Keys - todo == facts.Keys;
    AllSeen(facts, edges);
    if AllTokensParse(facts) { LinksAreConnections(facts); }
  }

  // ---- The groups ----------------------------------------------------------------------------------------

  /** The facts of `done`, collected by root. */
  ghost predicate Collected(parent: Parents, depth: Depths, done: set<FactId>, groups: map<FactId, seq<FactId>>) {
    Rooted(parent, depth) && done <= parent.Keys &&
    (forall r | r in groups :: groups[r] != [] && Distinct(groups[r])) &&
    (forall r, x | r in groups :: x in groups[r] <==> x in done && Root(parent, depth, x) == r) &&
    (forall x | x in done :: Root(parent, depth, x) in groups)
  }

  function WithMember(groups: map<FactId, seq<FactId>>, root: FactId, id: FactId): map<FactId, seq<FactId>> {
    groups[root := (if root in groups then groups[root] else []) + [id]]
  }

  lemma CollectOne(parent: Parents, depth: Depths, done: set<FactId>, groups: map<FactId, seq<FactId>>, id: FactId)
    requires Collected(parent, depth, done, groups) && id in parent && id !in done
    ensures Collected(parent, depth, done + {id}, WithMember(groups, Root(parent, depth, id), id))
  {
    hide Rooted, Root;
  }

  lemma CollectedAfterFind(parent: Parents, depth: Depths, parent': Parents,
                           done: set<FactId>, groups: map<FactId, seq<FactId>>)
    requires Collected(parent, depth, done, groups) && SameRoots(parent, depth, parent', depth)
    ensures Collected(parent', depth, done, groups)
  {
    hide Rooted, Root;
  }

  lemma RepresentsAfterFind(parent: Parents, depth: Depths, parent': Parents, edges: Edges)
    requires Represents(parent, depth, edges) && SameRoots(parent, depth, parent', depth)
    ensures Represents(parent', depth, edges)
  {
    hide Rooted, Root, Reaches;
    forall x, y | x in parent' && y in parent' ensures SameTree(parent', depth, x, y) <==> Reaches(edges, x, y) {
      assert SameTree(parent, depth, x, y) <==> Reaches(edges, x, y);
    }
  }

  method GroupByRoot(facts: map<FactId, Fact>, parent0: Parents, ghost depth: Depths, ghost edges: Edges)
    returns (groups: map<FactId, seq<FactId>>, ghost parent: Parents)
    requires parent0.Keys == facts.Keys && Represents(parent0, depth, edges)
    ensures Collected(parent, depth, facts.Keys, groups) && parent.Keys == facts.Keys
    ensures Represents(parent, depth, edges)
  {
    RepresentsIsRooted(parent0, depth, edges);
    hide Represents, Collected, Rooted, Root, SameRoots;
    var parents := parent0;
    groups := map[];
    var todo := facts.Keys;
    NothingCollected(parents, depth);
    assert facts.Keys - todo == {};
    while todo != {}
      invariant todo <= facts.Keys && parents.Keys == facts.Keys && Rooted(parents, depth)
      invariant Represents(parents, depth, edges)
      invariant Collected(parents, depth, facts.Keys - todo, groups)
    {
      var id :| id in todo;
      ghost var before := parents;
      var root;
      root, parents := Find(parents, id, depth);
      SameRootsParts(before, parents, depth, id);
      CollectedAfterFind(before, depth, parents, facts.Keys - todo, groups);
      RepresentsAfterFind(before, depth, parents, edges);
      CollectOne(parents, depth, facts.Keys - todo, groups, id);
      groups := WithMember(groups, root, id);
      assert facts.Keys - (todo - {id}) == facts.Keys - todo + {id};
      todo := todo - {id};
    }
    assert facts.Keys - todo == facts.Keys;
    parent := parents;
  }

  lemma SameRootsParts(a: Parents, b: Parents, depth: Depths, x: FactId)
    requires SameRoots(a, depth, b, depth) && x in a
    ensures Rooted(b, depth) && b.Keys == a.Keys && Root(b, depth, x) == Root(a, depth, x)
  {
    hide Rooted, Root;
  }

  lemma NothingCollected(parent: Parents, depth: Depths)
    requires Rooted(parent, depth)
    ensures Collected(parent, depth, {}, map[])
  {}

  /** A sorted list of exactly the facts connected to its first one. */
  ghost predicate IsComponent(facts: map<FactId, Fact>, edges: Edges, g: seq<FactId>) {
    g != [] && Sorted(g) && Distinct(g) && g[0] in facts &&
    forall y :: y in g <==> y in facts && Reaches(edges, g[0], y)
  }

  ghost predicate StartsBefore(a: seq<FactId>, b: seq<FactId>) {
    a != [] && b != [] && StringLe(a[0], b[0]) && a[0] != b[0]
  }

  ghost predicate InOrder(groups: seq<seq<FactId>>) {
    forall i, k | 0 <= i < k < |groups| :: StartsBefore(groups[i], groups[k])
  }

  /** Components, in order of their first facts, that cover all facts. */
  ghost predicate Partitioned(facts: map<FactId, Fact>, edges: Edges, groups: seq<seq<FactId>>) {
    (forall g | g in groups :: IsComponent(facts, edges, g)) && InOrder(groups) &&
    forall x | x in facts :: InSome(groups, x)
  }

  ghost predicate InSome(groups: seq<seq<FactId>>, x: FactId) {
    exists g :: g in groups && x in g
  }

  predicate FirstLe(a: seq<FactId>, b: seq<FactId>) {
    a == [] || (b != [] && StringLe(a[0], b[0]))
  }

  function InsertGroup(g: seq<FactId>, groups: seq<seq<FactId>>): seq<seq<FactId>> {
    if groups == [] then [g] else if FirstLe(g, groups[0]) then [g] + groups
    else [groups[0]] + InsertGroup(g, groups[1..])
  }

  lemma {:induction false} InsertGroupMembers(g: seq<FactId>, groups: seq<seq<FactId>>)
    ensures forall h :: h in InsertGroup(g, groups) <==> h == g || h in groups
  {
    if groups != [] && !FirstLe(g, groups[0]) {
      InsertGroupMembers(g, groups[1..]);
      assert groups == [groups[0]] + groups[1..];
    }
  }

  lemma {:induction false} InsertGroupOrders(g: seq<FactId>, groups: seq<seq<FactId>>)
    requires InOrder(groups) && g != [] && forall h | h in groups :: h != [] && h[0] != g[0]
    ensures InOrder(InsertGroup(g, groups))
  {
    hide StringLe;
    if groups == [] {
    } else if FirstLe(g, groups[0]) {
      forall k | 0 <= k < |groups| ensures StartsBefore(g, groups[k]) {
        assert groups[k] in groups;
        if k > 0 {
          assert StartsBefore(groups[0], groups[k]);
          StringLeTransitive(g[0], groups[0][0], groups[k][0]);
        }
      }
    } else {
      assert groups[0] in groups;
      StringLeTotal(g[0], groups[0][0]);
      InsertGroupOrders(g, groups[1..]);
      InsertGroupMembers(g, groups[1..]);
      var rest := InsertGroup(g, groups[1..]);
      forall k | 0 <= k < |rest| ensures StartsBefore(groups[0], rest[k]) {
        assert rest[k] in rest;
        if rest[k] != g {
          var l :| 0 <= l < |groups[1..]| && groups[1..][l] == rest[k];
          assert StartsBefore(groups[0], groups[l + 1]);
        } else {
          assert groups[0] in groups;
        }
      }
    }
  }

  /** The groups listed so far are those of the given roots. */
  ghost predicate Listed(facts: map<FactId, Fact>, parent: Parents, depth: Depths, roots: set<FactId>, edges: Edges,
                         result: seq<seq<FactId>>) {
    Rooted(parent, depth) && parent.Keys == facts.Keys && InOrder(result) &&
    (forall g | g in result :: IsComponent(facts, edges, g) && Root(parent, depth, g[0]) in roots) &&
    (forall x | x in facts && Root(parent, depth, x) in roots :: InSome(result, x))
  }

  lemma ListOne(facts: map<FactId, Fact>, parent: Parents, depth: Depths,
                groups: map<FactId, seq<FactId>>, roots: set<FactId>, edges: Edges, result: seq<seq<FactId>>, r: FactId)
    requires Represents(parent, depth, edges) && Collected(parent, depth, facts.Keys, groups)
    requires Listed(facts, parent, depth, roots, edges, result) && r in groups && r !in roots
    ensures Listed(facts, parent, depth, roots + {r}, edges, InsertGroup(SortStrings(groups[r]), result))
  {
    var g, more := SortStrings(groups[r]), InsertGroup(SortStrings(groups[r]), result);
    GroupIsComponent(facts, parent, depth, groups, edges, r);
    hide Rooted, Root, Represents, Collected, Reaches, SortStrings, InOrder, InsertGroup;
    InsertGroupMembers(g, result);
    forall h | h in result ensures h != [] && h[0] != g[0] {}
    hide IsComponent;
    InsertGroupOrders(g, result);
    forall x | x in facts && Root(parent, depth, x) in roots + {r} ensures InSome(more, x) {
      if Root(parent, depth, x) == r {
        assert g in more && x in g;
      } else {
        assert InSome(result, x);
        var h :| h in result && x in h;
        assert h in more;
      }
    }
  }

  lemma CollectedGroup(parent: Parents, depth: Depths, done: set<FactId>, groups: map<FactId, seq<FactId>>, r: FactId)
    requires Collected(parent, depth, done, groups) && r in groups
    ensures Rooted(parent, depth) && done <= parent.Keys && groups[r] != [] && Distinct(groups[r])
    ensures forall x :: x in groups[r] <==> x in done && Root(parent, depth, x) == r
  {
    hide Rooted, Root;
  }

  lemma GroupIsComponent(facts: map<FactId, Fact>, parent: Parents, depth: Depths,
                         groups: map<FactId, seq<FactId>>, edges: Edges, r: FactId)
    requires Represents(parent, depth, edges) && Collected(parent, depth, facts.Keys, groups)
    requires parent.Keys == facts.Keys && r in groups
    ensures Rooted(parent, depth)
    ensures var g := SortStrings(groups[r]);
      IsComponent(facts, edges, g) && Root(parent, depth, g[0]) == r && forall x ::
        x in g <==> x in facts && Root(parent, depth, x) == r
  {
    var g := SortStrings(groups[r]);
    hide Collected, Rooted, Root, Represents, Reaches, SortStrings, Sorted, Distinct;
    CollectedGroup(parent, depth, facts.Keys, groups, r);
    SortKeepsDistinct(groups[r]);
    assert |g| > 0;
    assert g[0] in g && g[0] in facts && Root(parent, depth, g[0]) == r;
    forall y ensures y in g <==> y in facts && Reaches(edges, g[0], y) {
      TreeIsComponent(facts, parent, depth, edges, g[0], y);
    }
  }

  lemma TreeIsComponent(facts: map<FactId, Fact>, parent: Parents, depth: Depths, edges: Edges, x: FactId, y: FactId)
    requires Represents(parent, depth, edges) && parent.Keys == facts.Keys && x in facts
    ensures Rooted(parent, depth)
    ensures y in facts ==> (Root(parent, depth, x) == Root(parent, depth, y) <==> Reaches(edges, x, y))
  {
    hide Rooted, Root, Reaches;
    assert y in facts ==> (SameTree(parent, depth, x, y) <==> Reaches(edges, x, y));
  }

  /** The connected components of the facts. */
  method Partition(facts: map<FactId, Fact>) returns (result: seq<seq<FactId>>)
    ensures Partitioned(facts, Links(facts), result)
    ensures AllTokensParse(facts) ==> Partitioned(facts, Connections(facts), result)
  {
    hide Connections, AllTokensParse;
    hide Represents, Collected, Rooted, Root, Links, Listed, Partitioned, SortStrings, InsertGroup;
    ghost var edges := Links(facts);
    var parent0;
    ghost var parent, depth;
    parent0, depth := UnionAll(facts);
    var groups;
    groups, parent := GroupByRoot(facts, parent0, depth, edges);
    result := [];
    NothingListed(facts, parent, depth, edges, groups);
    var todo := groups.Keys;
    assert groups.Keys - todo == {};
    while todo != {}
      invariant todo <= groups.Keys && Listed(facts, parent, depth, groups.Keys - todo, edges, result)
    {
      var r :| r in todo;
      ListOne(facts, parent, depth, groups, groups.Keys - todo, edges, result, r);
      result := InsertGroup(SortStrings(groups[r]), result);
      assert groups.Keys - (todo - {r}) == groups.Keys - todo + {r};
      todo := todo - {r};
    }
    assert groups.Keys - todo == groups.Keys;
    ListedAll(facts, parent, depth, edges, groups, result);
    if AllTokensParse(facts) { LinksAreConnections(facts); }
  }

  lemma NothingListed(facts: map<FactId, Fact>, parent: Parents, depth: Depths, edges: Edges,
                      groups: map<FactId, seq<FactId>>)
    requires Collected(parent, depth, facts.Keys, groups) && parent.Keys == facts.Keys
    ensures Listed(facts, parent, depth, {}, edges, [])
  {}

  lemma ListedAll(facts: map<FactId, Fact>, parent: Parents, depth: Depths, edges: Edges,
                  groups: map<FactId, seq<FactId>>, result: seq<seq<FactId>>)
    requires Collected(parent, depth, facts.Keys, groups) && Listed(facts, parent, depth, groups.Keys, edges, result)
    ensures Partitioned(facts, edges, result)
  {
    hide Rooted, Root, IsComponent, InOrder;
  }

  // ---- What the partition says ---------------------------------------------------------------------------

  lemma LinksAreSymmetric(facts: map<FactId, Fact>)
    ensures Symmetric(Links(facts))
  {
    hide Names;
  }

  /** The dependencies among the facts, as engines parse them, taken in both directions. */
  ghost function Connections(facts: map<FactId, Fact>): Edges {
    Cycles.DependencyEdges(facts) + set e | e in Cycles.DependencyEdges(facts) :: (e.1, e.0)
  }

  /** What a fact names is what it depends on, by either polarity, when its tokens parse. */
  lemma NamesIsDependsOn(fact: Fact, p: FactId)
    requires TokensParse(fact)
    ensures Names(fact, p) <==> Cycles.DependsOn(fact, p)
  {
    if Names(fact, p) {
      var i, n :| NamedAt(fact, p, i, n);
      TokenDependsOn(fact, p, i, n);
    }
    if Cycles.DependsOn(fact, p) {
      var i: nat, r :| r in SetRefs(fact, i) && r.id == p;
      var n :| 0 <= n < |fact.tokens[i]| && Parsed(fact.tokens[i])[n] == r;
      assert Token(r) == fact.tokens[i][n];
      assert NamedAt(fact, p, i, n);
    }
  }

  lemma TokenDependsOn(fact: Fact, p: FactId, i: nat, n: nat)
    requires TokensParse(fact) && NamedAt(fact, p, i, n)
    ensures Cycles.DependsOn(fact, p)
  {
    var token := fact.tokens[i][n];
    var r := ParseDependencyRef(token).value;
    assert token in fact.tokens[i];
    assert r.id == p by {
      if token == "!" + p {
        assert token[1..] == p;
        assert Token(r) == token;
      }
    }
    assert Parsed(fact.tokens[i])[n] == r;
    assert r in SetRefs(fact, i);
  }

  ghost predicate AllTokensParse(facts: map<FactId, Fact>) {
    forall f | f in facts :: TokensParse(facts[f])
  }

  lemma LinksAreConnections(facts: map<FactId, Fact>)
    requires AllTokensParse(facts)
    ensures Links(facts) == Connections(facts)
  {
    forall f, p | f in facts ensures Names(facts[f], p) <==> Cycles.DependsOn(facts[f], p) {
      NamesIsDependsOn(facts[f], p);
    }
    hide Names, Cycles.DependsOn, TokensParse;
    forall e ensures e in Links(facts) <==> e in Connections(facts) {
      assert (e.1, e.0) in Cycles.DependencyEdges(facts) ==> e in Connections(facts);
    }
  }

  /** Two facts share a group exactly when dependencies, of either polarity, connect them. */
  lemma SameGroupIsConnected(facts: map<FactId, Fact>, groups: seq<seq<FactId>>, x: FactId, y: FactId)
    requires Partitioned(facts, Links(facts), groups) && x in facts && y in facts
    ensures (exists g :: g in groups && x in g && y in g) <==> Reaches(Links(facts), x, y)
    ensures AllTokensParse(facts) ==>
              ((exists g :: g in groups && x in g && y in g) <==> Reaches(Connections(facts), x, y))
  {
    var edges := Links(facts);
    if AllTokensParse(facts) { LinksAreConnections(facts); }
    LinksAreSymmetric(facts);
    assert InSome(groups, x);
    var g :| g in groups && x in g;
    hide Links, Connections, AllTokensParse, Reaches, Sorted, Distinct;
    ReachesBack(edges, g[0], x);
    if Reaches(edges, x, y) {
      ReachesTransitive(edges, g[0], x, y);
    }
    if h :| h in groups && x in h && y in h {
      assert IsComponent(facts, edges, h);
      ReachesBack(edges, h[0], x);
      ReachesTransitive(edges, x, h[0], y);
    }
  }

  /** No fact is in two groups. */
  lemma GroupsAreDisjoint(facts: map<FactId, Fact>, groups: seq<seq<FactId>>, i: nat, k: nat, x: FactId)
    requires Partitioned(facts, Links(facts), groups) && i < k < |groups|
    ensures !(x in groups[i] && x in groups[k])
  {
    var edges, a, b := Links(facts), groups[i], groups[k];
    LinksAreSymmetric(facts);
    assert StartsBefore(a, b) && a in groups && b in groups;
    if x in a && x in b {
      hide Links, Reaches, Distinct, StringLe;
      assert IsComponent(facts, edges, a) && IsComponent(facts, edges, b);
      ReachesBack(edges, b[0], x);
      ReachesTransitive(edges, a[0], x, b[0]);
      ReachesBack(edges, a[0], b[0]);
      assert b[0] in a && a[0] in b;
      StringLeAntisymmetric(a[0], b[0]);
    }
  }
}
