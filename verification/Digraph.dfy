/** Paths and cycles of a finite directed graph over ids; an edge runs from a parent to its child. */
module Digraph {
  import opened Strings

  type Node = string
  type Edges = set<(Node, Node)>

  ghost predicate IsPath(edges: Edges, p: seq<Node>) {
    |p| > 0 && forall i | 0 <= i < |p| - 1 :: (p[i], p[i + 1]) in edges
  }

  ghost predicate PathFromTo(edges: Edges, p: seq<Node>, a: Node, b: Node) {
    IsPath(edges, p) && p[0] == a && p[|p| - 1] == b
  }

  /** b is a or follows from a along edges. */
  ghost predicate Reaches(edges: Edges, a: Node, b: Node) {
    exists p :: PathFromTo(edges, p, a, b)
  }

  ghost predicate IsCycle(edges: Edges, p: seq<Node>) {
    IsPath(edges, p) && |p| >= 2 && p[0] == p[|p| - 1]
  }

  ghost predicate Acyclic(edges: Edges) {
    forall p :: !IsCycle(edges, p)
  }

  lemma ReachesSelf(edges: Edges, a: Node)
    ensures Reaches(edges, a, a)
  {
    assert PathFromTo(edges, [a], a, a);
  }

  lemma PathConcat(edges: Edges, p: seq<Node>, a: Node, b: Node, q: seq<Node>, c: Node)
    requires PathFromTo(edges, p, a, b) && PathFromTo(edges, q, b, c)
    ensures PathFromTo(edges, p + q[1..], a, c)
  {
    var r := p + q[1..];
    forall i | 0 <= i < |r| - 1 ensures (r[i], r[i + 1]) in edges {
      if i < |p| - 1 {
        assert r[i] == p[i] && r[i + 1] == p[i + 1];
      } else {
        assert r[i] == q[i - (|p| - 1)] && r[i + 1] == q[i - (|p| - 1) + 1];
      }
    }
  }

  lemma ReachesTransitive(edges: Edges, a: Node, b: Node, c: Node)
    requires Reaches(edges, a, b) && Reaches(edges, b, c)
    ensures Reaches(edges, a, c)
  {
    var p :| PathFromTo(edges, p, a, b);
    var q :| PathFromTo(edges, q, b, c);
    PathConcat(edges, p, a, b, q, c);
  }

  lemma EdgeReaches(edges: Edges, a: Node, b: Node)
    requires (a, b) in edges
    ensures Reaches(edges, a, b)
  {
    assert PathFromTo(edges, [a, b], a, b);
  }

  /** What reaches b from a first takes an edge, unless it is already there. */
  lemma ReachesFirstStep(edges: Edges, a: Node, b: Node) returns (next: Node)
    requires Reaches(edges, a, b) && a != b
    ensures (a, next) in edges && Reaches(edges, next, b)
  {
    var p :| PathFromTo(edges, p, a, b);
    next := p[1];
    assert PathFromTo(edges, p[1..], next, b);
  }

  /** A set closed under the edges holds everything reachable from its members. */
  lemma {:induction false} ClosedHoldsPath(edges: Edges, closed: set<Node>, p: seq<Node>)
    requires IsPath(edges, p) && p[0] in closed
    requires forall a, b :: (a, b) in edges && a in closed ==> b in closed
    ensures p[|p| - 1] in closed
    decreases |p|
  {
    if |p| > 1 {
      assert (p[0], p[1]) in edges;
      ClosedHoldsPath(edges, closed, p[1..]);
    }
  }

  lemma {:induction false} RankGrowsOnPath(edges: Edges, rank: map<Node, nat>, p: seq<Node>)
    requires forall a, b :: (a, b) in edges ==> a in rank && b in rank && rank[a] < rank[b]
    requires IsPath(edges, p) && |p| >= 2
    ensures p[0] in rank && p[|p| - 1] in rank && rank[p[0]] < rank[p[|p| - 1]]
    decreases |p|
  {
    assert (p[0], p[1]) in edges;
    if |p| > 2 {
      assert IsPath(edges, p[1..]) by {
        forall i | 0 <= i < |p[1..]| - 1 ensures (p[1..][i], p[1..][i + 1]) in edges {
          assert (p[i + 1], p[i + 2]) in edges;
        }
      }
      RankGrowsOnPath(edges, rank, p[1..]);
    }
  }

  /** A graph whose edges all go up in some ranking has no cycle. */
  lemma RankedIsAcyclic(edges: Edges, rank: map<Node, nat>)
    requires forall a, b :: (a, b) in edges ==> a in rank && b in rank && rank[a] < rank[b]
    ensures Acyclic(edges)
  {
    forall p ensures !IsCycle(edges, p) {
      if IsCycle(edges, p) {
        RankGrowsOnPath(edges, rank, p);
      }
    }
  }

  ghost predicate HasPredecessorIn(edges: Edges, trap: set<Node>, b: Node) {
    exists a :: a in trap && (a, b) in edges
  }

  /** A walk of n steps that ends in `end`, when every member of `trap` has a predecessor in it. */
  lemma {:induction false} WalkBack(edges: Edges, trap: set<Node>, end: Node, n: nat) returns (p: seq<Node>)
    requires end in trap
    requires forall b | b in trap :: HasPredecessorIn(edges, trap, b)
    ensures |p| == n + 1 && IsPath(edges, p) && p[n] == end
    ensures Elements(p) <= trap
    decreases n
  {
    if n == 0 {
      p := [end];
    } else {
      assert HasPredecessorIn(edges, trap, end);
      var a :| a in trap && (a, end) in edges;
      var q := WalkBack(edges, trap, a, n - 1);
      p := q + [end];
      forall i | 0 <= i < |p| - 1 ensures (p[i], p[i + 1]) in edges {
        if i < |q| - 1 { assert (q[i], q[i + 1]) in edges; }
      }
    }
  }

  lemma RepeatMakesCycle(edges: Edges, p: seq<Node>, i: nat, j: nat)
    requires IsPath(edges, p) && i < j < |p| && p[i] == p[j]
    ensures IsCycle(edges, p[i..j + 1])
  {
    var c := p[i..j + 1];
    forall k | 0 <= k < |c| - 1 ensures (c[k], c[k + 1]) in edges {
      assert (p[i + k], p[i + k + 1]) in edges;
    }
  }

  /** Pigeonhole: a nonempty set in which every node has a predecessor contains a cycle. */
  lemma TrapHasCycle(edges: Edges, trap: set<Node>)
    requires trap != {}
    requires forall b | b in trap :: HasPredecessorIn(edges, trap, b)
    ensures !Acyclic(edges)
  {
    var end :| end in trap;
    var p := WalkBack(edges, trap, end, |trap|);
    assert !Distinct(p) by {
      DistinctCardinality(p);
      SubsetCardinality(Elements(p), trap);
    }
    var i, j :| 0 <= i < j < |p| && p[i] == p[j];
    RepeatMakesCycle(edges, p, i, j);
  }

  /** A cycle in fewer edges is a cycle in more. */
  lemma CycleMonotone(small: Edges, large: Edges, p: seq<Node>)
    requires small <= large && IsCycle(small, p)
    ensures IsCycle(large, p)
  {
    forall i | 0 <= i < |p| - 1 ensures (p[i], p[i + 1]) in large {
      assert (p[i], p[i + 1]) in small;
    }
  }
}
