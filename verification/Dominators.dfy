/** The dominator forest over facts: immediate dominators by lowest common ancestors in topological order,
    and the interval numbering that answers ancestor queries without climbing. */
module Dominators {
  import opened Facts
  import opened Strings
  import opened Semantics
  import opened Cache

  type IDom = map<FactId, FactId>
  type Rank = map<FactId, nat>

  /** Links go from ranked facts to strictly lower-ranked ones. */
  ghost predicate Forest(idom: IDom, rank: Rank) {
    forall f | f in idom :: f in rank && idom[f] in rank && rank[idom[f]] < rank[f]
  }

  /** f and its dominators, nearest first. */
  ghost function Path(idom: IDom, rank: Rank, f: FactId): (p: seq<FactId>)
    requires Forest(idom, rank)
    ensures |p| > 0 && p[0] == f
    decreases if f in rank then rank[f] + 1 else 0
  {
    if f in idom then [f] + Path(idom, rank, idom[f]) else [f]
  }

  ghost predicate OnPath(idom: IDom, rank: Rank, u: FactId, v: FactId) {
    Forest(idom, rank) && u in Path(idom, rank, v)
  }

  lemma {:induction false} PathRanks(idom: IDom, rank: Rank, u: FactId, v: FactId)
    requires OnPath(idom, rank, u, v) && v in rank
    ensures u in rank && (u == v || rank[u] < rank[v])
    decreases rank[v]
  {
    if u != v {
      PathRanks(idom, rank, u, idom[v]);
    }
  }

  lemma {:induction false} OnPathTransitive(idom: IDom, rank: Rank, a: FactId, b: FactId, c: FactId)
    requires OnPath(idom, rank, a, b) && OnPath(idom, rank, b, c)
    ensures OnPath(idom, rank, a, c)
    decreases if c in rank then rank[c] + 1 else 0
  {
    if b != c {
      OnPathTransitive(idom, rank, a, b, idom[c]);
    }
  }

  /** A path has no branches: of two facts on it, one is on the path of the other. */
  lemma {:induction false} PathIsChain(idom: IDom, rank: Rank, a: FactId, b: FactId, v: FactId)
    requires OnPath(idom, rank, a, v) && OnPath(idom, rank, b, v)
    ensures OnPath(idom, rank, a, b) || OnPath(idom, rank, b, a)
    decreases if v in rank then rank[v] + 1 else 0
  {
    if a != v && b != v {
      PathIsChain(idom, rank, a, b, idom[v]);
    }
  }

  // ---- Lowest common ancestors --------------------------------------------------------------------

  /** The deepest shared entry of two paths, comparing from their far ends. */
  ghost function LastCommon(p: seq<FactId>, q: seq<FactId>): Option<FactId> {
    if p == [] || q == [] || p[|p| - 1] != q[|q| - 1] then None
    else
      var deeper := LastCommon(p[..|p| - 1], q[..|q| - 1]);
      if deeper.Some? then deeper else Some(p[|p| - 1])
  }

  /** The source's lca: a missing argument is neutral. */
  ghost function Lca(idom: IDom, rank: Rank, a: Option<FactId>, b: Option<FactId>): Option<FactId>
    requires Forest(idom, rank)
  {
    if a.None? then b
    else if b.None? then a
    else if a == b then a
    else LastCommon(Path(idom, rank, a.value), Path(idom, rank, b.value))
  }

  lemma {:induction false} LastCommonIsShared(p: seq<FactId>, q: seq<FactId>)
    ensures LastCommon(p, q).Some? ==> LastCommon(p, q).value in p && LastCommon(p, q).value in q
    decreases |p|
  {
    if p != [] && q != [] && p[|p| - 1] == q[|q| - 1] {
      LastCommonIsShared(p[..|p| - 1], q[..|q| - 1]);
    }
  }

  lemma {:induction false} LcaOnPath(idom: IDom, rank: Rank, a: Option<FactId>, b: Option<FactId>)
    requires Forest(idom, rank)
    ensures var r := Lca(idom, rank, a, b);
            r.Some? ==> ((a.Some? && OnPath(idom, rank, r.value, a.value)) ||
                         (b.Some? && OnPath(idom, rank, r.value, b.value)))
    ensures var r := Lca(idom, rank, a, b);
            a.Some? && b.Some? && r.Some? ==>
              OnPath(idom, rank, r.value, a.value) && OnPath(idom, rank, r.value, b.value)
  {
    if a.Some? && b.Some? {
      LastCommonIsShared(Path(idom, rank, a.value), Path(idom, rank, b.value));
    }
  }

  /** Paths that end alike share something, at or before where the common tail begins. */
  lemma {:induction false} CommonTail(p: seq<FactId>, q: seq<FactId>, tail: seq<FactId>)
    requires tail != []
    ensures var r := LastCommon(p + tail, q + tail); r.Some? && (r.value in p || r.value == tail[0])
    decreases |tail|
  {
    var init := tail[..|tail| - 1];
    assert (p + tail)[..|p + tail| - 1] == p + init && (q + tail)[..|q + tail| - 1] == q + init;
    if |tail| == 1 {
      assert p + init == p && q + init == q;
      LastCommonIsShared(p, q);
    } else {
      CommonTail(p, q, init);
    }
  }

  /** The path of v up to y: everything on it still has y on its own path. */
  lemma {:induction false} PathSplit(idom: IDom, rank: Rank, v: FactId, y: FactId) returns (prefix: seq<FactId>)
    requires OnPath(idom, rank, y, v)
    ensures Path(idom, rank, v) == prefix + Path(idom, rank, y)
    ensures forall x | x in prefix :: OnPath(idom, rank, y, x)
    decreases if v in rank then rank[v] + 1 else 0
  {
    if y == v {
      prefix := [];
    } else {
      var rest := PathSplit(idom, rank, idom[v], y);
      prefix := [v] + rest;
    }
  }

  /** lca deserves its name: every shared ancestor is on the path of the one returned. */
  lemma LcaIsLowest(idom: IDom, rank: Rank, a: FactId, b: FactId, y: FactId)
    requires OnPath(idom, rank, y, a) && OnPath(idom, rank, y, b)
    ensures var r := Lca(idom, rank, Some(a), Some(b)); r.Some? && OnPath(idom, rank, y, r.value)
  {
    if a != b {
      var p := PathSplit(idom, rank, a, y);
      var q := PathSplit(idom, rank, b, y);
      CommonTail(p, q, Path(idom, rank, y));
      hide Path, LastCommon;
      assert OnPath(idom, rank, y, y);
    }
  }

  /** The fold that computes an immediate dominator from a list of candidates. */
  ghost function FoldLca(idom: IDom, rank: Rank, ids: seq<Option<FactId>>): Option<FactId>
    requires Forest(idom, rank)
  {
    if ids == [] then None
    else if |ids| == 1 then ids[0]
    else Lca(idom, rank, FoldLca(idom, rank, ids[..|ids| - 1]), ids[|ids| - 1])
  }

  /** What a fold returns lies on the path of one of its candidates. */
  lemma {:induction false} FoldOnSomePath(idom: IDom, rank: Rank, ids: seq<Option<FactId>>) returns (source: FactId)
    requires Forest(idom, rank) && FoldLca(idom, rank, ids).Some?
    ensures Some(source) in ids && OnPath(idom, rank, FoldLca(idom, rank, ids).value, source)
    decreases |ids|
  {
    if |ids| == 1 {
      source := ids[0].value;
    } else {
      var rest, last := FoldLca(idom, rank, ids[..|ids| - 1]), ids[|ids| - 1];
      LcaOnPath(idom, rank, rest, last);
      if last.Some? && OnPath(idom, rank, FoldLca(idom, rank, ids).value, last.value) {
        source := last.value;
      } else {
        source := FoldOnSomePath(idom, rank, ids[..|ids| - 1]);
        OnPathTransitive(idom, rank, FoldLca(idom, rank, ids).value, rest.value, source);
      }
    }
  }

  // ---- Adding links -------------------------------------------------------------------------------

  ghost predicate ClosedUnder(idom: IDom, nodes: set<FactId>) {
    forall f | f in idom && f in nodes :: idom[f] in nodes
  }

  /** Links added outside a closed set of facts leave the paths inside it alone. */
  lemma {:induction false} PathStable(idom: IDom, idom': IDom, rank: Rank, nodes: set<FactId>, f: FactId)
    requires Forest(idom, rank) && Forest(idom', rank) && ClosedUnder(idom, nodes) && f in nodes
    requires forall g | g in nodes :: (g in idom <==> g in idom') && (g in idom ==> idom'[g] == idom[g])
    ensures Path(idom', rank, f) == Path(idom, rank, f)
    decreases if f in rank then rank[f] + 1 else 0
  {
    if f in idom {
      PathStable(idom, idom', rank, nodes, idom[f]);
    }
  }

  lemma {:induction false} PathStaysIn(idom: IDom, rank: Rank, nodes: set<FactId>, u: FactId, f: FactId)
    requires Forest(idom, rank) && ClosedUnder(idom, nodes) && f in nodes && OnPath(idom, rank, u, f)
    ensures u in nodes
    decreases if f in rank then rank[f] + 1 else 0
  {
    if u != f {
      PathStaysIn(idom, rank, nodes, u, idom[f]);
    }
  }

  lemma {:induction false} FoldStable(idom: IDom, idom': IDom, rank: Rank, nodes: set<FactId>, ids: seq<Option<FactId>>)
    requires Forest(idom, rank) && Forest(idom', rank) && ClosedUnder(idom, nodes)
    requires forall g | g in nodes :: (g in idom <==> g in idom') && (g in idom ==> idom'[g] == idom[g])
    requires forall i | 0 <= i < |ids| && ids[i].Some? :: ids[i].value in nodes
    ensures FoldLca(idom', rank, ids) == FoldLca(idom, rank, ids)
    decreases |ids|
  {
    if |ids| > 1 {
      var init, last := ids[..|ids| - 1], ids[|ids| - 1];
      FoldStable(idom, idom', rank, nodes, init);
      var rest := FoldLca(idom, rank, init);
      if rest.Some? && last.Some? {
        var source := FoldOnSomePath(idom, rank, init);
        PathStaysIn(idom, rank, nodes, rest.value, source);
        PathStable(idom, idom', rank, nodes, rest.value);
        PathStable(idom, idom', rank, nodes, last.value);
      }
    }
  }

  // ---- Topological order ------------------------------------------------------------------------------

  datatype Node = FactNode(f: FactId) | SetNode(j: SetId)

  /** The graph the sort walks: every indexed set is stored and leads to a higher-ranked fact. */
  ghost predicate Walkable(rank: Rank, sets: Sets, children: Children) {
    forall p, j | j in Kids(children, p) ::
      j in sets && p in rank && sets[j].child == j.fact && j.fact in rank && rank[p] < rank[j.fact]
  }

  ghost predicate Succ(sets: Sets, children: Children, a: Node, b: Node) {
    match a
    case FactNode(f) => b.SetNode? && b.j in Kids(children, f)
    case SetNode(j) => j in sets && b == FactNode(sets[j].child)
  }

  ghost predicate Placed(rank: Rank, sets: Sets, children: Children, n: Node) {
    match n
    case FactNode(f) => f in rank
    case SetNode(j) => exists p :: j in Kids(children, p)
  }

  ghost function Height(rank: Rank, n: Node): nat {
    match n
    case FactNode(f) => if f in rank then 2 * rank[f] + 1 else 0
    case SetNode(j) => if j.fact in rank then 2 * rank[j.fact] else 0
  }

  /** Every successor of an entry comes after it. */
  ghost predicate SuccessorsFollow(sets: Sets, children: Children, order: seq<Node>) {
    forall i, b | 0 <= i < |order| && Succ(sets, children, order[i], b) :: b in order[i + 1..]
  }

  /** The walk's state: finished nodes are exactly `order`; those still open lie below n. */
  ghost predicate WalkOk(rank: Rank, sets: Sets, children: Children, visited: set<Node>, order: seq<Node>) {
    Distinct(order) && (forall n | n in order :: n in visited && Placed(rank, sets, children, n)) &&
    SuccessorsFollow(sets, children, order)
  }

  ghost predicate OpenBelow(rank: Rank, visited: set<Node>, order: seq<Node>, height: nat) {
    forall g | g in visited && g !in order :: Height(rank, g) < height
  }

  ghost predicate SameOpen(visited: set<Node>, order: seq<Node>, visited': set<Node>, order': seq<Node>) {
    forall g :: g in visited' && g !in order' <==> g in visited && g !in order
  }

  lemma SuccPlaced(rank: Rank, sets: Sets, children: Children, a: Node, b: Node)
    requires Walkable(rank, sets, children) && Placed(rank, sets, children, a) && Succ(sets, children, a, b)
    ensures Placed(rank, sets, children, b) && Height(rank, a) < Height(rank, b)
  {
    match a {
      case FactNode(f) =>
        assert b.j in Kids(children, f);
      case SetNode(j) =>
        var p :| j in Kids(children, p);
    }
  }

  lemma FinishNode(rank: Rank, sets: Sets, children: Children, visited: set<Node>, order: seq<Node>, n: Node)
    requires WalkOk(rank, sets, children, visited, order) && n in visited && n !in order
    requires Placed(rank, sets, children, n)
    requires forall b | Succ(sets, children, n, b) :: b in order
    ensures WalkOk(rank, sets, children, visited, [n] + order)
  {
    var order' := [n] + order;
    forall i, b | 0 <= i < |order'| && Succ(sets, children, order'[i], b) ensures b in order'[i + 1..] {
      if i == 0 {
        assert order'[1..] == order;
      } else {
        assert order'[i + 1..] == order[i..];
      }
    }
  }

  /** Depth-first: successors are finished first, then n goes to the front. */
  method VisitNode(n: Node, sets: Sets, children: Children, visited: set<Node>, order: seq<Node>, ghost rank: Rank,
                   ghost top: nat)
    returns (visited': set<Node>, order': seq<Node>)
    requires Walkable(rank, sets, children) && Placed(rank, sets, children, n) && Height(rank, n) < top
    requires forall f | f in rank :: 2 * rank[f] + 1 < top
    requires WalkOk(rank, sets, children, visited, order) && OpenBelow(rank, visited, order, Height(rank, n))
    ensures WalkOk(rank, sets, children, visited', order')
    ensures n in order' && (forall m | m in order :: m in order') && SameOpen(visited, order, visited', order')
    decreases top - Height(rank, n)
  {
    visited', order' := visited, order;
    if n in visited {
      return;
    }
    visited' := visited' + {n};
    match n {
      case FactNode(f) =>
        var todo := Kids(children, f);
        while todo != {}
          invariant todo <= Kids(children, f)
          invariant WalkOk(rank, sets, children, visited', order') && n in visited' && n !in order'
          invariant SameOpen(visited + {n}, order, visited', order')
          invariant forall m | m in order :: m in order'
          invariant forall j | j in Kids(children, f) && j !in todo :: SetNode(j) in order'
        {
          var j :| j in todo;
          todo := todo - {j};
          SuccPlaced(rank, sets, children, n, SetNode(j));
          HeightBound(rank, SetNode(j), top);
          visited', order' := VisitNode(SetNode(j), sets, children, visited', order', rank, top);
        }
      case SetNode(j) =>
        ghost var p :| j in Kids(children, p);
        SuccPlaced(rank, sets, children, n, FactNode(sets[j].child));
        HeightBound(rank, FactNode(sets[j].child), top);
        visited', order' := VisitNode(FactNode(sets[j].child), sets, children, visited', order', rank, top);
    }
    FinishNode(rank, sets, children, visited', order', n);
    order' := [n] + order';
  }

  lemma HeightBound(rank: Rank, n: Node, top: nat)
    requires forall f | f in rank :: 2 * rank[f] + 1 < top
    requires top > 0
    ensures Height(rank, n) < top
  {}

  method TopologicalSort(facts: set<FactId>, sets: Sets, children: Children, ghost rank: Rank)
    returns (order: seq<Node>)
    requires Walkable(rank, sets, children) && facts == rank.Keys
    ensures Distinct(order) && SuccessorsFollow(sets, children, order)
    ensures forall f | f in facts :: FactNode(f) in order
    ensures forall n | n in order :: Placed(rank, sets, children, n)
  {
    ghost var top := TopOf(rank);
    var visited: set<Node> := {};
    order := [];
    var todo := facts;
    while todo != {}
      invariant todo <= facts
      invariant WalkOk(rank, sets, children, visited, order)
      invariant forall g | g in visited :: g in order
      invariant forall f | f in facts && f !in todo :: FactNode(f) in order
    {
      var f :| f in todo;
      todo := todo - {f};
      HeightBound(rank, FactNode(f), top);
      visited, order := VisitNode(FactNode(f), sets, children, visited, order, rank, top);
    }
  }

  ghost function TopOf(rank: Rank): (top: nat)
    ensures top > 0 && forall f | f in rank :: 2 * rank[f] + 1 < top
  {
    if rank == map[] then 1
    else
      var f :| f in rank;
      var rest := TopOf(rank - {f});
      assert forall g | g in rank && g != f :: g in rank - {f};
      if rest > 2 * rank[f] + 2 then rest else 2 * rank[f] + 2
  }

  // ---- Immediate dominators -----------------------------------------------------------------------------

  function Lookup<K, V>(m: map<K, V>, k: K): Option<V> {
    if k in m then Some(m[k]) else None
  }

  ghost function Somes(ids: seq<FactId>): (r: seq<Option<FactId>>)
    ensures |r| == |ids| && forall i | 0 <= i < |ids| :: r[i] == Some(ids[i])
  {
    seq(|ids|, i requires 0 <= i < |ids| => Some(ids[i]))
  }

  ghost function Doms(setIDom: map<SetId, FactId>, js: seq<SetId>): (r: seq<Option<FactId>>)
    ensures |r| == |js| && forall i | 0 <= i < |js| :: r[i] == Lookup(setIDom, js[i])
  {
    seq(|js|, i requires 0 <= i < |js| => Lookup(setIDom, js[i]))
  }

  /** All stored sets of fact f, each once, in some order. */
  ghost predicate Incoming(sets: Sets, f: FactId, js: seq<SetId>) {
    Distinct(js) && forall j :: j in js <==> j in sets && sets[j].child == f
  }

  /** A set's immediate dominator folds its parents; a fact's folds those of its sets, in some order. */
  ghost predicate SetRight(idom: IDom, setIDom: map<SetId, FactId>, rank: Rank, sets: Sets, j: SetId)
    requires Forest(idom, rank)
  {
    j in sets && Lookup(setIDom, j) == FoldLca(idom, rank, Somes(sets[j].deps.all))
  }

  ghost predicate FactRight(idom: IDom, setIDom: map<SetId, FactId>, rank: Rank, facts: map<FactId, Fact>, sets: Sets,
                            f: FactId)
    requires Forest(idom, rank)
  {
    f in facts &&
    if facts[f].isRoot then f !in idom
    else exists js :: Incoming(sets, f, js) && Lookup(idom, f) == FoldLca(idom, rank, Doms(setIDom, js))
  }

  /** What the computation relies on: the index inverts the sets' parents and ranks go up along it. */
  ghost predicate Indexable(facts: map<FactId, Fact>, rank: Rank, sets: Sets, children: Children) {
    Walkable(rank, sets, children) && facts.Keys == rank.Keys &&
    (forall j | j in sets :: sets[j].child == j.fact && j.fact in facts) &&
    (forall p, j | j in sets && p in sets[j].deps.all :: j in Kids(children, p))
  }

  ghost predicate Ordered(facts: map<FactId, Fact>, sets: Sets, children: Children, order: seq<Node>) {
    Distinct(order) && SuccessorsFollow(sets, children, order) && forall f | f in facts :: FactNode(f) in order
  }

  ghost function DoneFacts(order: seq<Node>, k: nat): (r: set<FactId>)
    requires k <= |order|
    ensures forall f :: f in r <==> FactNode(f) in order[..k]
  {
    var r := set n | n in order[..k] && n.FactNode? :: n.f;
    assert forall f | FactNode(f) in order[..k] :: FactNode(f).f in r;
    r
  }

  lemma Predecessor(facts: map<FactId, Fact>, sets: Sets, children: Children, order: seq<Node>, k: nat, a: Node)
    requires Ordered(facts, sets, children, order) && k < |order| && a in order && Succ(sets, children, a, order[k])
    ensures a in order[..k]
  {
    var i :| 0 <= i < |order| && order[i] == a;
    assert order[k] in order[i + 1..];
    var m :| 0 <= m < |order[i + 1..]| && order[i + 1..][m] == order[k];
    assert order[i + 1 + m] == order[k];
    assert order[..k][i] == a;
  }

  /** Links made so far stay among the facts done so far, and go down in rank. */
  ghost predicate LinksBelow(rank: Rank, order: seq<Node>, k: nat, idom: IDom, setIDom: map<SetId, FactId>)
    requires k <= |order|
  {
    var done := DoneFacts(order, k);
    Forest(idom, rank) && ClosedUnder(idom, done) && idom.Keys <= done &&
    (forall j | j in setIDom ::
     SetNode(j) in order[..k] && j.fact in rank && setIDom[j] in done && setIDom[j] in rank &&
     rank[setIDom[j]] < rank[j.fact])
  }

  ghost predicate FactsRight(facts: map<FactId, Fact>, rank: Rank, sets: Sets, order: seq<Node>, k: nat, idom: IDom,
                             setIDom: map<SetId, FactId>)
    requires k <= |order|
  {
    var done := DoneFacts(order, k);
    Forest(idom, rank) &&
    (forall f | f in done :: FactRight(idom, setIDom, rank, facts, sets, f)) &&
    (forall f, j | f in done && j in sets && j.fact == f :: SetNode(j) in order[..k] || SetNode(j) !in order)
  }

  ghost predicate SetsRight(rank: Rank, sets: Sets, order: seq<Node>, k: nat, idom: IDom, setIDom: map<SetId, FactId>)
    requires k <= |order|
  {
    var done := DoneFacts(order, k);
    Forest(idom, rank) &&
    (forall j | SetNode(j) in order[..k] ::
     SetRight(idom, setIDom, rank, sets, j) && forall p | p in sets[j].deps.all :: p in done)
  }

  /** The first k nodes of the order have their immediate dominators. */
  ghost predicate Stage(facts: map<FactId, Fact>, rank: Rank, sets: Sets, order: seq<Node>, k: nat, idom: IDom,
                        setIDom: map<SetId, FactId>)
    requires k <= |order|
  {
    LinksBelow(rank, order, k, idom, setIDom) && FactsRight(facts, rank, sets, order, k, idom, setIDom) &&
    SetsRight(rank, sets, order, k, idom, setIDom)
  }

  lemma StageForest(facts: map<FactId, Fact>, rank: Rank, sets: Sets, order: seq<Node>, k: nat, idom: IDom,
                    setIDom: map<SetId, FactId>)
    requires k <= |order| && Stage(facts, rank, sets, order, k, idom, setIDom)
    ensures Forest(idom, rank)
  {}

  lemma LinkIs<K>(m: map<K, FactId>, k: K, v: Option<FactId>)
    ensures WithLink(m, k, v) == if v.Some? then m[k := v.value] else m
  {}

  lemma TakeOne(order: seq<Node>, k: nat)
    requires k < |order|
    ensures order[..k + 1] == order[..k] + [order[k]]
    ensures DoneFacts(order, k + 1) == if order[k].FactNode? then DoneFacts(order, k) + {order[k].f}
      else DoneFacts(order, k)
    ensures Distinct(order) ==> order[k] !in order[..k]
  {}

  /** Growing the links at a new fact keeps the equations already established. */
  lemma FactRightKept(idom: IDom, idom': IDom, setIDom: map<SetId, FactId>, setIDom': map<SetId, FactId>, rank: Rank,
                      facts: map<FactId, Fact>, sets: Sets, done: set<FactId>, f: FactId)
    requires Forest(idom, rank) && Forest(idom', rank) && ClosedUnder(idom, done) && f in done
    requires forall g | g in done :: (g in idom <==> g in idom') && (g in idom ==> idom'[g] == idom[g])
    requires FactRight(idom, setIDom, rank, facts, sets, f)
    requires forall j | j in setIDom :: setIDom[j] in done
    requires forall j | j in sets && sets[j].child == f :: Lookup(setIDom', j) == Lookup(setIDom, j)
    ensures FactRight(idom', setIDom', rank, facts, sets, f)
  {
    if !facts[f].isRoot {
      var js :| Incoming(sets, f, js) && Lookup(idom, f) == FoldLca(idom, rank, Doms(setIDom, js));
      assert Doms(setIDom', js) == Doms(setIDom, js) by {
        forall i | 0 <= i < |js| ensures Doms(setIDom', js)[i] == Doms(setIDom, js)[i] { assert js[i] in js; }
      }
      FoldStable(idom, idom', rank, done, Doms(setIDom, js));
    }
  }

  lemma SetRightKept(idom: IDom, idom': IDom, setIDom: map<SetId, FactId>, setIDom': map<SetId, FactId>, rank: Rank,
                     sets: Sets, done: set<FactId>, j: SetId)
    requires Forest(idom, rank) && Forest(idom', rank) && ClosedUnder(idom, done)
    requires forall g | g in done :: (g in idom <==> g in idom') && (g in idom ==> idom'[g] == idom[g])
    requires SetRight(idom, setIDom, rank, sets, j) && Lookup(setIDom', j) == Lookup(setIDom, j)
    requires forall p | p in sets[j].deps.all :: p in done
    ensures SetRight(idom', setIDom', rank, sets, j)
  {
    FoldStable(idom, idom', rank, done, Somes(sets[j].deps.all));
  }

  lemma StageStart(facts: map<FactId, Fact>, rank: Rank, sets: Sets, order: seq<Node>)
    ensures Stage(facts, rank, sets, order, 0, map[], map[])
  {}

  ghost function WithLink<K>(m: map<K, FactId>, k: K, v: Option<FactId>): map<K, FactId> {
    if v.Some? then m[k := v.value] else m
  }

  lemma SetParentsDone(facts: map<FactId, Fact>, rank: Rank, sets: Sets, children: Children, order: seq<Node>, k: nat,
                       j: SetId)
    requires Indexable(facts, rank, sets, children) && Ordered(facts, sets, children, order) && k < |order|
    requires order[k] == SetNode(j) && j in sets
    ensures j.fact in rank
    ensures forall p | p in sets[j].deps.all :: p in DoneFacts(order, k) && p in rank && rank[p] < rank[j.fact]
  {
    forall p | p in sets[j].deps.all ensures p in DoneFacts(order, k) && p in rank && rank[p] < rank[j.fact] {
      assert j in Kids(children, p);
      Predecessor(facts, sets, children, order, k, FactNode(p));
    }
  }

  lemma FactSetsDone(facts: map<FactId, Fact>, rank: Rank, sets: Sets, children: Children, order: seq<Node>, k: nat,
                     f: FactId)
    requires Indexable(facts, rank, sets, children) && Ordered(facts, sets, children, order) && k < |order|
    requires order[k] == FactNode(f)
    ensures forall j | j in sets && j.fact == f :: SetNode(j) in order[..k] || SetNode(j) !in order
  {
    forall j | j in sets && j.fact == f ensures SetNode(j) in order[..k] || SetNode(j) !in order {
      if SetNode(j) in order { Predecessor(facts, sets, children, order, k, SetNode(j)); }
    }
  }

  lemma StageSet(facts: map<FactId, Fact>, rank: Rank, sets: Sets, children: Children, order: seq<Node>, k: nat,
                 idom: IDom, setIDom: map<SetId, FactId>, j: SetId, common: Option<FactId>)
    requires Indexable(facts, rank, sets, children) && Ordered(facts, sets, children, order) && k < |order|
    requires Stage(facts, rank, sets, order, k, idom, setIDom) && order[k] == SetNode(j) && j in sets
    requires Forest(idom, rank) && common == FoldLca(idom, rank, Somes(sets[j].deps.all))
    ensures Stage(facts, rank, sets, order, k + 1, idom, WithLink(setIDom, j, common))
  {
    SetParentsDone(facts, rank, sets, children, order, k, j);
    TakeOne(order, k);
    assert (forall i | i in sets :: sets[i].child == i.fact) && Distinct(order);
    hide Indexable, Ordered, Walkable, SuccessorsFollow, Distinct;
    SetLink(rank, sets, order, k, idom, setIDom, j, common);
    SetKeepsFacts(facts, rank, sets, order, k, idom, setIDom, j, common);
    SetKeepsSets(rank, sets, order, k, idom, setIDom, j, common);
  }

  lemma SetLink(rank: Rank, sets: Sets, order: seq<Node>, k: nat, idom: IDom, setIDom: map<SetId, FactId>, j: SetId,
                common: Option<FactId>)
    requires k < |order| && LinksBelow(rank, order, k, idom, setIDom) && order[k] == SetNode(j) && j in sets
    requires j.fact in rank
    requires forall p | p in sets[j].deps.all :: p in DoneFacts(order, k) && p in rank && rank[p] < rank[j.fact]
    requires common == FoldLca(idom, rank, Somes(sets[j].deps.all))
    ensures LinksBelow(rank, order, k + 1, idom, WithLink(setIDom, j, common))
  {
    TakeOne(order, k);
    if common.Some? {
      var source := FoldOnSomePath(idom, rank, Somes(sets[j].deps.all));
      PathStaysIn(idom, rank, DoneFacts(order, k), common.value, source);
      PathRanks(idom, rank, common.value, source);
    }
  }

  lemma SetKeepsFacts(facts: map<FactId, Fact>, rank: Rank, sets: Sets, order: seq<Node>, k: nat,
                      idom: IDom, setIDom: map<SetId, FactId>, j: SetId, common: Option<FactId>)
    requires k < |order| && LinksBelow(rank, order, k, idom, setIDom)
    requires FactsRight(facts, rank, sets, order, k, idom, setIDom)
    requires order[k] == SetNode(j) && order[k] !in order[..k] && forall i | i in sets :: sets[i].child == i.fact
    ensures FactsRight(facts, rank, sets, order, k + 1, idom, WithLink(setIDom, j, common))
  {
    var done := DoneFacts(order, k);
    TakeOne(order, k);
    forall f | f in done ensures FactRight(idom, WithLink(setIDom, j, common), rank, facts, sets, f) {
      assert SetNode(j) in order;
      FactRightKept(idom, idom, setIDom, WithLink(setIDom, j, common), rank, facts, sets, done, f);
    }
  }

  lemma SetKeepsSets(rank: Rank, sets: Sets, order: seq<Node>, k: nat,
                     idom: IDom, setIDom: map<SetId, FactId>, j: SetId, common: Option<FactId>)
    requires k < |order| && LinksBelow(rank, order, k, idom, setIDom) && SetsRight(rank, sets, order, k, idom, setIDom)
    requires order[k] == SetNode(j) && order[k] !in order[..k] && j in sets
    requires forall p | p in sets[j].deps.all :: p in DoneFacts(order, k)
    requires common == FoldLca(idom, rank, Somes(sets[j].deps.all))
    ensures SetsRight(rank, sets, order, k + 1, idom, WithLink(setIDom, j, common))
  {
    TakeOne(order, k);
    assert j !in setIDom;
    forall i | SetNode(i) in order[..k] ensures SetRight(idom, WithLink(setIDom, j, common), rank, sets, i) {
      SetRightKept(idom, idom, setIDom, WithLink(setIDom, j, common), rank, sets, DoneFacts(order, k), i);
    }
  }

  lemma StageFact(facts: map<FactId, Fact>, rank: Rank, sets: Sets, children: Children, order: seq<Node>, k: nat,
                  idom: IDom, setIDom: map<SetId, FactId>, f: FactId, common: Option<FactId>, js: seq<SetId>)
    requires Indexable(facts, rank, sets, children) && Ordered(facts, sets, children, order) && k < |order|
    requires Stage(facts, rank, sets, order, k, idom, setIDom) && order[k] == FactNode(f) && f in facts
    requires Forest(idom, rank)
    requires if facts[f].isRoot then common == None
             else Incoming(sets, f, js) && common == FoldLca(idom, rank, Doms(setIDom, js))
    ensures Stage(facts, rank, sets, order, k + 1, WithLink(idom, f, common), setIDom)
  {
    FactSetsDone(facts, rank, sets, children, order, k, f);
    TakeOne(order, k);
    assert (forall i | i in sets :: sets[i].child == i.fact) && facts.Keys == rank.Keys;
    hide Indexable, Ordered, Walkable, SuccessorsFollow, Distinct;
    FactLink(facts, rank, sets, order, k, idom, setIDom, f, common, js);
    FactKeepsFacts(facts, rank, sets, order, k, idom, setIDom, f, common, js);
    FactKeepsSets(facts, rank, sets, order, k, idom, setIDom, f, common);
  }

  lemma FactLink(facts: map<FactId, Fact>, rank: Rank, sets: Sets, order: seq<Node>, k: nat,
                 idom: IDom, setIDom: map<SetId, FactId>, f: FactId, common: Option<FactId>, js: seq<SetId>)
    requires k < |order| && LinksBelow(rank, order, k, idom, setIDom) && order[k] == FactNode(f) && f in rank
    requires order[k] !in order[..k] && forall i | i in sets :: sets[i].child == i.fact
    requires common.Some? ==> Incoming(sets, f, js) && common == FoldLca(idom, rank, Doms(setIDom, js))
    ensures LinksBelow(rank, order, k + 1, WithLink(idom, f, common), setIDom)
  {
    TakeOne(order, k);
    if common.Some? {
      var source := FoldOnSomePath(idom, rank, Doms(setIDom, js));
      var i :| 0 <= i < |js| && Doms(setIDom, js)[i] == Some(source);
      assert js[i] in js;
      PathStaysIn(idom, rank, DoneFacts(order, k), common.value, source);
      PathRanks(idom, rank, common.value, source);
    }
  }

  lemma FactKeepsFacts(facts: map<FactId, Fact>, rank: Rank, sets: Sets, order: seq<Node>, k: nat,
                       idom: IDom, setIDom: map<SetId, FactId>, f: FactId, common: Option<FactId>, js: seq<SetId>)
    requires k < |order| && LinksBelow(rank, order, k, idom, setIDom)
    requires FactsRight(facts, rank, sets, order, k, idom, setIDom)
    requires LinksBelow(rank, order, k + 1, WithLink(idom, f, common), setIDom)
    requires order[k] == FactNode(f) && order[k] !in order[..k] && f in facts
    requires if facts[f].isRoot then common == None
             else Incoming(sets, f, js) && common == FoldLca(idom, rank, Doms(setIDom, js))
    requires forall j | j in sets && j.fact == f :: SetNode(j) in order[..k] || SetNode(j) !in order
    ensures FactsRight(facts, rank, sets, order, k + 1, WithLink(idom, f, common), setIDom)
  {
    var done := DoneFacts(order, k);
    var idom' := WithLink(idom, f, common);
    TakeOne(order, k);
    assert f !in done && f !in idom;
    forall g | g in done ensures FactRight(idom', setIDom, rank, facts, sets, g) {
      FactRightKept(idom, idom', setIDom, setIDom, rank, facts, sets, done, g);
    }
    if !facts[f].isRoot {
      FoldStable(idom, idom', rank, done, Doms(setIDom, js));
      assert FactRight(idom', setIDom, rank, facts, sets, f);
    }
  }

  lemma FactKeepsSets(facts: map<FactId, Fact>, rank: Rank, sets: Sets, order: seq<Node>, k: nat,
                      idom: IDom, setIDom: map<SetId, FactId>, f: FactId, common: Option<FactId>)
    requires k < |order| && LinksBelow(rank, order, k, idom, setIDom) && SetsRight(rank, sets, order, k, idom, setIDom)
    requires LinksBelow(rank, order, k + 1, WithLink(idom, f, common), setIDom)
    requires order[k] == FactNode(f) && order[k] !in order[..k]
    ensures SetsRight(rank, sets, order, k + 1, WithLink(idom, f, common), setIDom)
  {
    var done := DoneFacts(order, k);
    TakeOne(order, k);
    assert f !in done && f !in idom;
    forall i | SetNode(i) in order[..k] ensures SetRight(WithLink(idom, f, common), setIDom, rank, sets, i) {
      SetRightKept(idom, WithLink(idom, f, common), setIDom, setIDom, rank, sets, done, i);
    }
  }

  /** The links describe the graph: every fact and every set has the dominator the definition gives it. */
  ghost predicate DominatorsRight(facts: map<FactId, Fact>, rank: Rank, sets: Sets, idom: IDom,
                                  setIDom: map<SetId, FactId>) {
    Forest(idom, rank) && idom.Keys <= facts.Keys && ClosedUnder(idom, facts.Keys) &&
    (forall f | f in facts :: FactRight(idom, setIDom, rank, facts, sets, f)) &&
    (forall j | j in sets :: SetRight(idom, setIDom, rank, sets, j))
  }

  lemma StageEnd(facts: map<FactId, Fact>, rank: Rank, sets: Sets, children: Children, order: seq<Node>,
                 idom: IDom, setIDom: map<SetId, FactId>)
    requires Indexable(facts, rank, sets, children) && Ordered(facts, sets, children, order)
    requires forall n | n in order :: Placed(rank, sets, children, n)
    requires Stage(facts, rank, sets, order, |order|, idom, setIDom)
    ensures DominatorsRight(facts, rank, sets, idom, setIDom)
  {
    assert order[..|order|] == order;
    assert DoneFacts(order, |order|) == facts.Keys;
    forall j | j in sets ensures SetRight(idom, setIDom, rank, sets, j) {
      ParentedIsOrdered(facts, rank, sets, children, order, j);
      assert SetNode(j) !in order ==> Somes(sets[j].deps.all) == [];
    }
  }

  /** A set with a parent is in the order. */
  lemma ParentedIsOrdered(facts: map<FactId, Fact>, rank: Rank, sets: Sets, children: Children, order: seq<Node>,
                          j: SetId)
    requires Indexable(facts, rank, sets, children) && Ordered(facts, sets, children, order) && j in sets
    ensures sets[j].deps.all != [] ==> SetNode(j) in order
  {
    if sets[j].deps.all != [] {
      var p := sets[j].deps.all[0];
      assert p in sets[j].deps.all;
      assert j in Kids(children, p);
      var i :| 0 <= i < |order| && order[i] == FactNode(p);
      assert Succ(sets, children, order[i], SetNode(j));
    }
  }

  // ---- Interval numbering -----------------------------------------------------------------------------

  type Times = map<FactId, nat>

  /** u's interval encloses v's. */
  predicate Encloses(pre: Times, post: Times, u: FactId, v: FactId) {
    u in pre && u in post && v in pre && v in post && pre[u] <= pre[v] && post[u] >= post[v]
  }

  /** Neither interval encloses the other and they do not overlap. */
  ghost predicate Apart(pre: Times, post: Times, u: FactId, v: FactId) {
    u in pre && u in post && v in pre && v in post && (post[u] < pre[v] || post[v] < pre[u])
  }

  /** Everything that has one of the given facts on its path. */
  ghost function Under(idom: IDom, rank: Rank, tops: set<FactId>): (r: set<FactId>)
    requires Forest(idom, rank)
    ensures forall v :: v in r <==> v in rank && exists c :: c in tops && OnPath(idom, rank, c, v)
  {
    set v | v in rank.Keys && exists c :: c in tops && OnPath(idom, rank, c, v)
  }

  /** The facts of `part` are numbered inside (lo, hi]; enclosing means being on the path, and facts of which neither is
      on the other's path are apart. */
  ghost predicate Numbered(idom: IDom, rank: Rank, pre: Times, post: Times, part: set<FactId>, lo: nat, hi: nat) {
    (forall v | v in part :: v in pre && v in post && lo < pre[v] < post[v] <= hi) &&
    (forall x, y | x in part && y in part :: Encloses(pre, post, x, y) <==> OnPath(idom, rank, x, y)) &&
    (forall x, y | x in part && y in part ::
      Encloses(pre, post, x, y) || Encloses(pre, post, y, x) || Apart(pre, post, x, y))
  }

  ghost predicate SameOff(pre: Times, post: Times, pre': Times, post': Times, part: set<FactId>) {
    forall v | v !in part :: Lookup(pre', v) == Lookup(pre, v) && Lookup(post', v) == Lookup(post, v)
  }

  /** No fact of the set is on the path of another. */
  ghost predicate Siblings(idom: IDom, rank: Rank, tops: set<FactId>) {
    forall a, b | a in tops && b in tops && a != b :: !OnPath(idom, rank, a, b)
  }

  lemma UnderDisjoint(idom: IDom, rank: Rank, tops: set<FactId>, c: FactId)
    requires Forest(idom, rank) && Siblings(idom, rank, tops + {c}) && c !in tops
    ensures Under(idom, rank, tops) !! Under(idom, rank, {c})
    ensures Under(idom, rank, tops + {c}) == Under(idom, rank, tops) + Under(idom, rank, {c})
    ensures forall x, y | x in Under(idom, rank, tops) && y in Under(idom, rank, {c}) ::
              !OnPath(idom, rank, x, y) && !OnPath(idom, rank, y, x)
  {
    forall v | v in Under(idom, rank, tops) && v in Under(idom, rank, {c}) ensures false {
      var a :| a in tops && OnPath(idom, rank, a, v);
      PathIsChain(idom, rank, a, c, v);
    }
    forall x, y | x in Under(idom, rank, tops) && y in Under(idom, rank, {c})
      ensures !OnPath(idom, rank, x, y) && !OnPath(idom, rank, y, x)
    {
      var a :| a in tops && OnPath(idom, rank, a, x);
      if OnPath(idom, rank, x, y) { OnPathTransitive(idom, rank, a, x, y); }
      if OnPath(idom, rank, y, x) { OnPathTransitive(idom, rank, c, y, x); }
    }
  }

  /** Two parts numbered one after the other, with no path between them, are numbered together. */
  lemma NumberedTogether(idom: IDom, rank: Rank, pre: Times, post: Times, pre': Times, post': Times,
                         a: set<FactId>, b: set<FactId>, lo: nat, mid: nat, hi: nat)
    requires Numbered(idom, rank, pre, post, a, lo, mid) && Numbered(idom, rank, pre', post', b, mid, hi)
    requires SameOff(pre, post, pre', post', b) && a !! b && lo <= mid <= hi
    requires forall x, y | x in a && y in b :: !OnPath(idom, rank, x, y) && !OnPath(idom, rank, y, x)
    ensures Numbered(idom, rank, pre', post', a + b, lo, hi)
  {
    forall v | v in a ensures v in pre' && v in post' && pre'[v] == pre[v] && post'[v] == post[v] {
      assert Lookup(pre', v) == Lookup(pre, v) && Lookup(post', v) == Lookup(post, v);
    }
    forall x, y | x in a + b && y in a + b
      ensures Encloses(pre', post', x, y) <==> OnPath(idom, rank, x, y)
      ensures Encloses(pre', post', x, y) || Encloses(pre', post', y, x) || Apart(pre', post', x, y)
    {
      if x in a && y in a {
        assert Encloses(pre', post', x, y) <==> Encloses(pre, post, x, y);
        assert Encloses(pre', post', y, x) <==> Encloses(pre, post, y, x);
        assert Apart(pre', post', x, y) <==> Apart(pre, post, x, y);
      }
    }
  }

  ghost function Linked(idom: IDom, u: FactId): set<FactId> {
    set f | f in idom && idom[f] == u
  }

  lemma LinkedAreSiblings(idom: IDom, rank: Rank, u: FactId)
    requires Forest(idom, rank)
    ensures Siblings(idom, rank, Linked(idom, u))
    ensures forall c | c in Linked(idom, u) :: c in rank && u in rank && rank[u] < rank[c]
  {
    forall a, b | a in Linked(idom, u) && b in Linked(idom, u) && a != b ensures !OnPath(idom, rank, a, b) {
      if OnPath(idom, rank, a, b) {
        assert OnPath(idom, rank, a, u);
        PathRanks(idom, rank, a, u);
      }
    }
  }

  lemma {:induction false} BelowTop(idom: IDom, rank: Rank, u: FactId, v: FactId) returns (c: FactId)
    requires OnPath(idom, rank, u, v) && u != v
    ensures c in Linked(idom, u) && OnPath(idom, rank, c, v)
    decreases if v in rank then rank[v] + 1 else 0
  {
    if idom[v] == u {
      c := v;
    } else {
      c := BelowTop(idom, rank, u, idom[v]);
    }
  }

  lemma UnderOne(idom: IDom, rank: Rank, u: FactId)
    requires Forest(idom, rank) && u in rank
    ensures Under(idom, rank, {u}) == {u} + Under(idom, rank, Linked(idom, u))
    ensures u !in Under(idom, rank, Linked(idom, u))
    ensures forall v | v in Under(idom, rank, {u}) && v != u :: OnPath(idom, rank, u, v) && !OnPath(idom, rank, v, u)
  {
    LinkedAreSiblings(idom, rank, u);
    forall v | v in Under(idom, rank, {u}) && v != u
      ensures v in Under(idom, rank, Linked(idom, u)) && !OnPath(idom, rank, v, u)
    {
      var c := BelowTop(idom, rank, u, v);
      PathRanks(idom, rank, u, v);
      if OnPath(idom, rank, v, u) { PathRanks(idom, rank, v, u); }
    }
    forall v | v in Under(idom, rank, Linked(idom, u)) ensures v in Under(idom, rank, {u}) && v != u {
      var c :| c in Linked(idom, u) && OnPath(idom, rank, c, v);
      assert OnPath(idom, rank, u, c);
      OnPathTransitive(idom, rank, u, c, v);
      PathRanks(idom, rank, c, v);
    }
  }

  /** Opening u before its subtree and closing it afterwards numbers the whole. */
  lemma NumberedOuter(idom: IDom, rank: Rank, pre: Times, post: Times, u: FactId, lo: nat, hi: nat)
    requires Forest(idom, rank) && u in rank && lo + 1 <= hi && u in pre && pre[u] == lo + 1
    requires Numbered(idom, rank, pre, post, Under(idom, rank, Linked(idom, u)), lo + 1, hi)
    ensures Numbered(idom, rank, pre, post[u := hi + 1], Under(idom, rank, {u}), lo, hi + 1)
  {
    UnderOne(idom, rank, u);
    assert OnPath(idom, rank, u, u);
    hide Under, Forest, OnPath;
    NumberedWithTop(idom, rank, pre, post, Under(idom, rank, Linked(idom, u)), u, lo, hi);
  }

  lemma NumberedWithTop(idom: IDom, rank: Rank, pre: Times, post: Times, rest: set<FactId>, u: FactId, lo: nat, hi: nat)
    requires Numbered(idom, rank, pre, post, rest, lo + 1, hi) && u !in rest && u in pre && pre[u] == lo + 1
    requires lo + 1 <= hi
    requires OnPath(idom, rank, u, u) && forall v | v in rest :: OnPath(idom, rank, u, v) && !OnPath(idom, rank, v, u)
    ensures Numbered(idom, rank, pre, post[u := hi + 1], {u} + rest, lo, hi + 1)
  {
    hide OnPath;
    var post' := post[u := hi + 1];
    forall x, y | x in {u} + rest && y in {u} + rest
      ensures Encloses(pre, post', x, y) <==> OnPath(idom, rank, x, y)
      ensures Encloses(pre, post', x, y) || Encloses(pre, post', y, x) || Apart(pre, post', x, y)
    {
      if x in rest && y in rest {
        assert Encloses(pre, post', x, y) <==> Encloses(pre, post, x, y);
        assert Encloses(pre, post', y, x) <==> Encloses(pre, post, y, x);
        assert Apart(pre, post', x, y) <==> Apart(pre, post, x, y);
      }
    }
  }

  ghost function TopsOf(idom: IDom, facts: map<FactId, Fact>): set<FactId> {
    set f | f in facts && f !in idom
  }

  lemma {:induction false} ReachesTop(idom: IDom, rank: Rank, facts: map<FactId, Fact>, v: FactId) returns (c: FactId)
    requires Forest(idom, rank) && ClosedUnder(idom, facts.Keys) && v in facts && facts.Keys == rank.Keys
    ensures c in TopsOf(idom, facts) && OnPath(idom, rank, c, v)
    decreases rank[v]
  {
    if v in idom {
      c := ReachesTop(idom, rank, facts, idom[v]);
    } else {
      c := v;
    }
  }

  lemma TopHasNoPath(idom: IDom, rank: Rank, a: FactId, b: FactId)
    requires Forest(idom, rank) && b !in idom && OnPath(idom, rank, a, b)
    ensures a == b
  {}

  lemma TopsCover(idom: IDom, rank: Rank, facts: map<FactId, Fact>)
    requires Forest(idom, rank) && ClosedUnder(idom, facts.Keys) && facts.Keys == rank.Keys
    ensures Siblings(idom, rank, TopsOf(idom, facts)) && Under(idom, rank, TopsOf(idom, facts)) == facts.Keys
  {
    hide Path, OnPath, Under, Forest;
    var tops := TopsOf(idom, facts);
    forall a, b | a in tops && b in tops && a != b ensures !OnPath(idom, rank, a, b) {
      if OnPath(idom, rank, a, b) { TopHasNoPath(idom, rank, a, b); }
    }
    AllUnderTops(idom, rank, facts);
  }

  lemma UnderSomeTop(idom: IDom, rank: Rank, facts: map<FactId, Fact>, v: FactId)
    requires Forest(idom, rank) && ClosedUnder(idom, facts.Keys) && facts.Keys == rank.Keys && v in facts
    ensures v in Under(idom, rank, TopsOf(idom, facts))
  {
    hide Path, OnPath, TopsOf;
    var c := ReachesTop(idom, rank, facts, v);
  }

  lemma UnderIsRanked(idom: IDom, rank: Rank, tops: set<FactId>)
    requires Forest(idom, rank)
    ensures Under(idom, rank, tops) <= rank.Keys
  {
    hide Path, OnPath;
  }

  lemma AllUnderTops(idom: IDom, rank: Rank, facts: map<FactId, Fact>)
    requires Forest(idom, rank) && ClosedUnder(idom, facts.Keys) && facts.Keys == rank.Keys
    ensures Under(idom, rank, TopsOf(idom, facts)) == facts.Keys
  {
    hide *;
    UnderIsRanked(idom, rank, TopsOf(idom, facts));
    forall v | v in facts ensures v in Under(idom, rank, TopsOf(idom, facts)) {
      UnderSomeTop(idom, rank, facts, v);
    }
  }

  class DominatorTree {
    var idom: IDom
    var setIDom: map<SetId, FactId>
    var pre: map<FactId, nat>
    var post: map<FactId, nat>

    constructor ()
      ensures idom == map[] && setIDom == map[] && pre == map[] && post == map[]
    {
      idom, setIDom, pre, post := map[], map[], map[], map[];
    }

    method GetDominatorPath(id: FactId, ghost rank: Rank) returns (path: seq<FactId>)
      requires Forest(idom, rank)
      ensures path == Path(idom, rank, id)
    {
      path := [];
      var curr := Some(id);
      while curr.Some?
        invariant Path(idom, rank, id) == path + (if curr.Some? then Path(idom, rank, curr.value) else [])
        decreases if curr.Some? then 1 + (if curr.value in rank then rank[curr.value] + 1 else 0) else 0
      {
        path := path + [curr.value];
        curr := Lookup(idom, curr.value);
      }
    }

    method LowestCommonAncestor(a: Option<FactId>, b: Option<FactId>, ghost rank: Rank) returns (r: Option<FactId>)
      requires Forest(idom, rank)
      ensures r == Lca(idom, rank, a, b)
    {
      if a.None? {
        return b;
      }
      if b.None? {
        return a;
      }
      if a == b {
        return a;
      }
      var p := GetDominatorPath(a.value, rank);
      var q := GetDominatorPath(b.value, rank);
      var i, j := |p|, |q|;
      r := None;
      assert p[..|p|] == p && q[..|q|] == q;
      while i > 0 && j > 0
        invariant 0 <= i <= |p| && 0 <= j <= |q|
        invariant LastCommon(p, q) == var deeper := LastCommon(p[..i], q[..j]); if deeper.Some? then deeper else r
      {
        if p[i - 1] != q[j - 1] {
          break;
        }
        r := Some(p[i - 1]);
        assert p[..i][..i - 1] == p[..i - 1] && q[..j][..j - 1] == q[..j - 1];
        i, j := i - 1, j - 1;
      }
    }

    /** The immediate dominator of a set: folds over its parents. */
    method DominatorOfSet(all: seq<FactId>, ghost rank: Rank) returns (common: Option<FactId>)
      requires Forest(idom, rank)
      ensures common == FoldLca(idom, rank, Somes(all))
    {
      common := None;
      var first := true;
      for i := 0 to |all|
        invariant first <==> i == 0
        invariant common == FoldLca(idom, rank, Somes(all)[..i])
      {
        assert Somes(all)[..i + 1][..i] == Somes(all)[..i];
        if first {
          common, first := Some(all[i]), false;
        } else {
          common := LowestCommonAncestor(common, Some(all[i]), rank);
        }
      }
      assert Somes(all)[..|all|] == Somes(all);
    }

    /** The immediate dominator of a fact: folds over its sets as the map yields them. */
    method DominatorOfFact(sets: Sets, f: FactId, ghost rank: Rank) returns (common: Option<FactId>)
      requires Forest(idom, rank)
      ensures exists js :: Incoming(sets, f, js) && common == FoldLca(idom, rank, Doms(setIDom, js))
    {
      common := None;
      var first := true;
      var todo := set j | j in sets && sets[j].child == f;
      ghost var js := [];
      while todo != {}
        invariant first <==> js == []
        invariant Distinct(js) && forall j :: j in js <==> j in sets && sets[j].child == f && j !in todo
        invariant common == FoldLca(idom, rank, Doms(setIDom, js))
      {
        var j :| j in todo;
        todo := todo - {j};
        assert Doms(setIDom, js + [j])[..|js|] == Doms(setIDom, js);
        if first {
          common, first := Lookup(setIDom, j), false;
        } else {
          common := LowestCommonAncestor(common, Lookup(setIDom, j), rank);
        }
        js := js + [j];
      }
      assert Incoming(sets, f, js);
    }

    method ComputeIDoms(facts: map<FactId, Fact>, sets: Sets, children: Children, order: seq<Node>, ghost rank: Rank)
      requires Indexable(facts, rank, sets, children) && Ordered(facts, sets, children, order)
      requires forall n | n in order :: Placed(rank, sets, children, n)
      modifies this`idom, this`setIDom
      ensures DominatorsRight(facts, rank, sets, idom, setIDom)
    {
      hide DominatorsRight, Stage, Indexable, Ordered;
      idom, setIDom := map[], map[];
      StageStart(facts, rank, sets, order);
      for k := 0 to |order|
        invariant Stage(facts, rank, sets, order, k, idom, setIDom)
      {
        Step(facts, sets, children, order, k, rank);
      }
      StageEnd(facts, rank, sets, children, order, idom, setIDom);
    }

    /** One node of the order. */
    method Step(facts: map<FactId, Fact>, sets: Sets, children: Children, order: seq<Node>, k: nat, ghost rank: Rank)
      requires Indexable(facts, rank, sets, children) && Ordered(facts, sets, children, order) && k < |order|
      requires Placed(rank, sets, children, order[k]) && Stage(facts, rank, sets, order, k, idom, setIDom)
      modifies this`idom, this`setIDom
      ensures Stage(facts, rank, sets, order, k + 1, idom, setIDom)
    {
      hide *;
      StageForest(facts, rank, sets, order, k, idom, setIDom);
      NodeKnown(facts, sets, children, order[k], rank);
      match order[k] {
        case FactNode(f) =>
          if facts[f].isRoot {
            LinkIs(idom, f, None);
            StageFact(facts, rank, sets, children, order, k, idom, setIDom, f, None, []);
          } else {
            var common := DominatorOfFact(sets, f, rank);
            ghost var js :| Incoming(sets, f, js) && common == FoldLca(idom, rank, Doms(setIDom, js));
            LinkIs(idom, f, common);
            StageFact(facts, rank, sets, children, order, k, idom, setIDom, f, common, js);
            if common.Some? {
              idom := idom[f := common.value];
            }
          }
        case SetNode(j) =>
          var common := DominatorOfSet(sets[j].deps.all, rank);
          LinkIs(setIDom, j, common);
          StageSet(facts, rank, sets, children, order, k, idom, setIDom, j, common);
          if common.Some? {
            setIDom := setIDom[j := common.value];
          }
      }
    }

    /** Numbers the tree below u: u opens, its children follow in any order (stored sets are leaves that only
        consume numbers), u closes. */
    method Dfs(u: FactId, start: nat, ghost rank: Rank, ghost top: nat) returns (timer: nat)
      requires Forest(idom, rank) && u in rank && forall f | f in rank :: rank[f] < top
      modifies this`pre, this`post
      ensures timer >= start
      ensures Numbered(idom, rank, pre, post, Under(idom, rank, {u}), start, timer)
      ensures SameOff(old(pre), old(post), pre, post, Under(idom, rank, {u}))
      decreases top - rank[u], 1
    {
      hide *;
      timer := start + 1;
      pre := pre[u := timer];
      ghost var pre1, post1 := pre, post;
      var kids := set f | f in idom && idom[f] == u;
      var leaves := set j | j in setIDom && setIDom[j] == u;
      assert kids == Linked(idom, u) by { LinkedIs(idom, u, kids); }
      LinkedAreSiblings(idom, rank, u);
      timer := DfsEach(kids, leaves, timer, rank, top, rank[u] + 1);
      OuterKeepsRest(idom, rank, old(pre), old(post), pre1, post1, pre, post, u, start, timer + 1);
      NumberedOuter(idom, rank, pre, post, u, start, timer);
      timer := timer + 1;
      post := post[u := timer];
    }

    /** Numbers several sibling trees one after the other. */
    method DfsEach(kids: set<FactId>, leaves: set<SetId>, start: nat, ghost rank: Rank, ghost top: nat, ghost low: nat)
      returns (timer: nat)
      requires Forest(idom, rank) && Siblings(idom, rank, kids) && forall f | f in rank :: rank[f] < top
      requires forall c | c in kids :: c in rank && rank[c] >= low
      modifies this`pre, this`post
      ensures timer >= start
      ensures Numbered(idom, rank, pre, post, Under(idom, rank, kids), start, timer)
      ensures SameOff(old(pre), old(post), pre, post, Under(idom, rank, kids))
      decreases top - low, 2
    {
      hide Numbered, SameOff, Under, Forest, Siblings;
      timer := start;
      var todo, leavesLeft := kids, leaves;
      ghost var done: set<FactId> := {};
      NothingNumbered(idom, rank, pre, post, start);
      while todo != {} || leavesLeft != {}
        invariant done + todo == kids && done !! todo && timer >= start
        invariant Numbered(idom, rank, pre, post, Under(idom, rank, done), start, timer)
        invariant SameOff(old(pre), old(post), pre, post, Under(idom, rank, done))
        decreases todo, leavesLeft
      {
        var takeLeaf := todo == {};
        if leavesLeft != {} && todo != {} {
          takeLeaf := *;
        }
        if takeLeaf {
          var j :| j in leavesLeft;
          leavesLeft := leavesLeft - {j};
          NumberedWider(idom, rank, pre, post, Under(idom, rank, done), start, timer, timer + 2);
          timer := timer + 2;
        } else {
          var c :| c in todo;
          ghost var mid, pre1, post1 := timer, pre, post;
          timer := Dfs(c, timer, rank, top);
          SiblingsSubset(idom, rank, kids, done, c);
          NextSibling(idom, rank, old(pre), old(post), pre1, post1, pre, post, done, c, start, mid, timer);
          todo := todo - {c};
          done := done + {c};
        }
      }
      assert done == kids;
    }

    /** Rebuilds everything: order, immediate dominators, intervals. */
    method Recompute(facts: map<FactId, Fact>, sets: Sets, children: Children, ghost rank: Rank)
      requires Indexable(facts, rank, sets, children)
      modifies this
      ensures DominatorsRight(facts, rank, sets, idom, setIDom)
      ensures IntervalsRight(facts, rank, idom, pre, post)
    {
      assert Walkable(rank, sets, children) && facts.Keys == rank.Keys;
      hide Indexable, DominatorsRight, IntervalsRight, Walkable, SuccessorsFollow, Placed;
      var order := TopologicalSort(facts.Keys, sets, children, rank);
      ComputeIDoms(facts, sets, children, order, rank);
      ComputeIntervals(facts, sets, rank);
    }

    method ComputeIntervals(facts: map<FactId, Fact>, sets: Sets, ghost rank: Rank)
      requires DominatorsRight(facts, rank, sets, idom, setIDom) && facts.Keys == rank.Keys
      modifies this`pre, this`post
      ensures IntervalsRight(facts, rank, idom, pre, post)
    {
      hide FactRight, SetRight, Forest;
      TopsCover(idom, rank, facts);
      ghost var top := RankBound(rank);
      var tops := set f | f in facts && f !in idom;
      assert tops == TopsOf(idom, facts);
      var timer := DfsEach(tops, {}, 0, rank, top, 0);
    }

    /** The constant-time ancestor test. */
    predicate IsDominatorAncestor(u: FactId, v: FactId, facts: map<FactId, Fact>)
      reads this`pre, this`post
    {
      u in facts && v in facts && Encloses(pre, post, u, v)
    }
  }

  /** The O(1) interval test agrees with climbing the path, for every pair of facts; other pairs are apart. */
  ghost predicate IntervalsRight(facts: map<FactId, Fact>, rank: Rank, idom: IDom, pre: Times, post: Times) {
    Forest(idom, rank) && (forall v | v in facts :: v in pre && v in post && pre[v] < post[v]) &&
    (forall u, v | u in facts && v in facts :: Encloses(pre, post, u, v) <==> OnPath(idom, rank, u, v)) &&
    (forall u, v | u in facts && v in facts ::
      OnPath(idom, rank, u, v) || OnPath(idom, rank, v, u) || Apart(pre, post, u, v))
  }

  ghost function RankBound(rank: Rank): (top: nat)
    ensures forall f | f in rank :: rank[f] < top
  {
    assert forall f | f in rank :: 2 * rank[f] + 1 < TopOf(rank);
    TopOf(rank)
  }

  lemma NothingNumbered(idom: IDom, rank: Rank, pre: Times, post: Times, t: nat)
    requires Forest(idom, rank)
    ensures Numbered(idom, rank, pre, post, Under(idom, rank, {}), t, t)
    ensures SameOff(pre, post, pre, post, Under(idom, rank, {}))
  {}

  lemma NumberedWider(idom: IDom, rank: Rank, pre: Times, post: Times, part: set<FactId>, lo: nat, hi: nat, hi': nat)
    requires Numbered(idom, rank, pre, post, part, lo, hi) && hi <= hi'
    ensures Numbered(idom, rank, pre, post, part, lo, hi')
  {}

  lemma SiblingsSubset(idom: IDom, rank: Rank, kids: set<FactId>, done: set<FactId>, c: FactId)
    requires Siblings(idom, rank, kids) && done <= kids && c in kids
    ensures Siblings(idom, rank, done + {c})
  {}

  lemma NextSibling(idom: IDom, rank: Rank, pre0: Times, post0: Times, pre: Times, post: Times, pre': Times,
                    post': Times, done: set<FactId>, c: FactId, lo: nat, mid: nat, hi: nat)
    requires Forest(idom, rank) && Siblings(idom, rank, done + {c}) && c !in done && lo <= mid <= hi
    requires Numbered(idom, rank, pre, post, Under(idom, rank, done), lo, mid)
    requires Numbered(idom, rank, pre', post', Under(idom, rank, {c}), mid, hi)
    requires SameOff(pre, post, pre', post', Under(idom, rank, {c}))
    requires SameOff(pre0, post0, pre, post, Under(idom, rank, done))
    ensures Numbered(idom, rank, pre', post', Under(idom, rank, done + {c}), lo, hi)
    ensures SameOff(pre0, post0, pre', post', Under(idom, rank, done + {c}))
  {
    UnderDisjoint(idom, rank, done, c);
    NumberedTogether(idom, rank, pre, post, pre', post', Under(idom, rank, done), Under(idom, rank, {c}), lo, mid, hi);
  }

  lemma LinkedIs(idom: IDom, u: FactId, kids: set<FactId>)
    requires kids == set f | f in idom && idom[f] == u
    ensures kids == Linked(idom, u)
  {}

  lemma OuterKeepsRest(idom: IDom, rank: Rank, pre0: Times, post0: Times, pre1: Times, post1: Times, pre: Times,
                       post: Times, u: FactId, start: nat, close: nat)
    requires Forest(idom, rank) && u in rank
    requires pre1 == pre0[u := start + 1] && post1 == post0
    requires SameOff(pre1, post1, pre, post, Under(idom, rank, Linked(idom, u)))
    ensures SameOff(pre0, post0, pre, post[u := close], Under(idom, rank, {u}))
    ensures u in pre && pre[u] == start + 1
  {
    hide Path, OnPath, Under, Forest;
    UnderOne(idom, rank, u);
    assert Lookup(pre, u) == Lookup(pre1, u);
  }

  lemma NodeKnown(facts: map<FactId, Fact>, sets: Sets, children: Children, n: Node, rank: Rank)
    requires Indexable(facts, rank, sets, children) && Placed(rank, sets, children, n)
    ensures match n case FactNode(f) => f in facts case SetNode(j) => j in sets
  {
    if n.SetNode? {
      var p :| n.j in Kids(children, p);
    }
  }
}
