/** Dependency inference in the extraction pipeline: Kahn's sort, the check of a candidate graph, and the greedy
    acceptance of proposed dependencies. */
module Extractor {
  import opened Facts
  import opened Strings
  import opened Digraph
  import opened Engines

  /** For each fact id, the ids proposed as its parents. */
  type ParentsMap = map<FactId, seq<FactId>>

  ghost function Named(ps: seq<FactId>): set<FactId> {
    set p | p in ps && p != ""
  }

  /** Where out[k] first occurs, the ids before it are those that out gives before it. */
  ghost predicate FirstSeen(ps: seq<FactId>, out: seq<FactId>, k: nat)
    requires k < |out|
  {
    exists i :: 0 <= i < |ps| && ps[i] == out[k] && Named(ps[..i]) == Elements(out[..k])
  }

  lemma OneMoreSeen(ps: seq<FactId>, out: seq<FactId>, i: nat)
    requires i < |ps| && Elements(out) == Named(ps[..i]) && forall k | 0 <= k < |out| :: FirstSeen(ps, out, k)
    ensures forall k | 0 <= k < |out| + 1 :: FirstSeen(ps, out + [ps[i]], k)
  {
    var more := out + [ps[i]];
    forall k | 0 <= k < |more| ensures FirstSeen(ps, more, k) {
      if k < |out| {
        assert FirstSeen(ps, out, k) && more[..k] == out[..k];
      } else {
        assert more[..k] == out && ps[i] == more[k];
      }
    }
  }

  /** Blank ids dropped, the others once each, in order of first occurrence. */
  method UniqueStrings(ps: seq<FactId>) returns (out: seq<FactId>)
    ensures Distinct(out) && Elements(out) == Named(ps)
    ensures forall k | 0 <= k < |out| :: FirstSeen(ps, out, k)
  {
    out := [];
    var seen: set<FactId> := {};
    for i := 0 to |ps|
      invariant Distinct(out) && Elements(out) == seen == Named(ps[..i])
      invariant forall k | 0 <= k < |out| :: FirstSeen(ps, out, k)
    {
      assert ps[..i + 1] == ps[..i] + [ps[i]];
      if ps[i] != "" && ps[i] !in seen {
        assert ps[i] !in Elements(out);
        OneMoreSeen(ps, out, i);
        seen := seen + {ps[i]};
        out := out + [ps[i]];
      }
    }
    assert ps[..|ps|] == ps;
  }

  ghost function ParentEdges(parents: ParentsMap): Edges {
    set p, c | c in parents && p in Named(parents[c]) :: (p, c)
  }

  /** Every parent that is named is itself a key. */
  ghost predicate Closed(parents: ParentsMap) {
    forall c, p | c in parents && p in Named(parents[c]) :: p in parents
  }

  /** Of the keys whose parents all come before, each place takes the first by name. */
  ghost predicate FirstByName(parents: ParentsMap, order: seq<FactId>) {
    forall k, c | 0 <= k < |order| && c in parents && c !in order[..k] && Named(parents[c]) <= Elements(order[..k]) ::
      StringLe(order[k], c)
  }

  lemma NoLater(parents: ParentsMap, a: seq<FactId>, b: seq<FactId>, k: nat)
    requires IsOrder(parents, a) && FirstByName(parents, b) && k < |a| && k < |b| && a[..k] == b[..k]
    ensures StringLe(b[k], a[k])
  {
    hide Named, StringLe;
    assert a[k] in Elements(a) && a[k] !in a[..k];
  }

  /** Which leaves one order. */
  lemma {:induction false} OneOrder(parents: ParentsMap, a: seq<FactId>, b: seq<FactId>, n: nat)
    requires IsOrder(parents, a) && IsOrder(parents, b) && FirstByName(parents, a) && FirstByName(parents, b)
    requires n <= |a| && n <= |b|
    ensures a[..n] == b[..n]
  {
    hide *;
    if n > 0 {
      OneOrder(parents, a, b, n - 1);
      NoLater(parents, a, b, n - 1);
      NoLater(parents, b, a, n - 1);
      StringLeAntisymmetric(a[n - 1], b[n - 1]);
      assert a[..n] == a[..n - 1] + [a[n - 1]] && b[..n] == b[..n - 1] + [b[n - 1]];
    }
  }

  /** Two results for the same graph are the same. */
  lemma OrdersAgree(parents: ParentsMap, a: seq<FactId>, b: seq<FactId>)
    requires IsOrder(parents, a) && IsOrder(parents, b) && FirstByName(parents, a) && FirstByName(parents, b)
    ensures a == b
  {
    assert |a| == |b| by {
      DistinctCardinality(a);
      DistinctCardinality(b);
      hide Named, FirstByName;
    }
    hide *;
    OneOrder(parents, a, b, |a|);
    assert a[..|a|] == a && b[..|b|] == b;
  }

  /** What a topological order has to be: each key once, after all its parents. */
  ghost predicate IsOrder(parents: ParentsMap, order: seq<FactId>) {
    Distinct(order) && Elements(order) == parents.Keys &&
    forall k | 0 <= k < |order| :: Named(parents[order[k]]) <= Elements(order[..k])
  }

  // ---- Kahn's sort -----------------------------------------------------------------------------------

  /** The parents of c that have not been ordered yet. */
  ghost function Pending(parents: ParentsMap, done: set<FactId>, c: FactId): set<FactId>
    requires c in parents
  {
    Named(parents[c]) - done
  }

  ghost predicate Degrees(parents: ParentsMap, done: set<FactId>, inDegree: map<FactId, int>) {
    inDegree.Keys == parents.Keys && forall c | c in parents :: inDegree[c] == |Pending(parents, done, c)|
  }

  /** The queue holds exactly the unordered ids all of whose parents are ordered. */
  ghost predicate Waiting(parents: ParentsMap, done: set<FactId>, queue: seq<FactId>) {
    Distinct(queue) && forall c :: c in queue <==> c in parents && c !in done && Pending(parents, done, c) == {}
  }

  /** The order built so far. */
  ghost predicate Ordering(parents: ParentsMap, order: seq<FactId>) {
    Distinct(order) && Elements(order) <= parents.Keys &&
    forall k | 0 <= k < |order| :: Named(parents[order[k]]) <= Elements(order[..k])
  }

  ghost predicate ChildLists(parents: ParentsMap, children: map<FactId, seq<FactId>>) {
    forall p :: Distinct(KidsOf(children, p)) && forall c ::
      c in KidsOf(children, p) <==> c in parents && p in Named(parents[c])
  }

  function KidsOf(children: map<FactId, seq<FactId>>, p: FactId): seq<FactId> {
    if p in children then children[p] else []
  }

  ghost predicate KidsSoFar(parents: ParentsMap, scanned: set<FactId>, children: map<FactId, seq<FactId>>) {
    forall p :: Distinct(KidsOf(children, p)) && forall c ::
      c in KidsOf(children, p) <==> c in parents && c in scanned && p in Named(parents[c])
  }

  /** Adds the child to the list of each of its parents. */
  method AddChild(children: map<FactId, seq<FactId>>, uniq: seq<FactId>, child: FactId)
    returns (children': map<FactId, seq<FactId>>)
    requires Distinct(uniq)
    ensures forall p :: KidsOf(children', p) == if p in uniq then KidsOf(children, p) + [child] else KidsOf(children, p)
  {
    children' := children;
    for n := 0 to |uniq|
      invariant forall p :: KidsOf(children', p) == if p in uniq[..n] then KidsOf(children, p) + [child]
        else KidsOf(children, p)
    {
      assert uniq[..n + 1] == uniq[..n] + [uniq[n]] && uniq[n] !in uniq[..n];
      children' := children'[uniq[n] := KidsOf(children', uniq[n]) + [child]];
    }
    assert uniq[..|uniq|] == uniq;
  }

  lemma ChildAdded(parents: ParentsMap,
                   scanned: set<FactId>, children: map<FactId, seq<FactId>>, uniq: seq<FactId>, child: FactId,
                   children': map<FactId, seq<FactId>>)
    requires KidsSoFar(parents, scanned, children) && child in parents && child !in scanned
    requires Elements(uniq) == Named(parents[child])
    requires forall p :: KidsOf(children', p) == if p in uniq then KidsOf(children, p) + [child]
      else KidsOf(children, p)
    ensures KidsSoFar(parents, scanned + {child}, children')
  {
    forall p ensures p in uniq <==> p in Named(parents[child]) {
      assert p in uniq <==> p in Elements(uniq);
    }
    hide KidsOf, Named;
  }

  /** In-degrees and child lists of all keys, visited in any order. */
  method CountParents(parents: ParentsMap) returns (inDegree: map<FactId, int>, children: map<FactId, seq<FactId>>)
    ensures Degrees(parents, {}, inDegree) && ChildLists(parents, children)
  {
    hide *;
    inDegree := map[];
    children := map[];
    var todo := parents.Keys;
    assert KidsSoFar(parents, {}, children) by { NoKids(parents); }
    assert parents.Keys - todo == {};
    while todo != {}
      invariant todo <= parents.Keys && inDegree.Keys == parents.Keys - todo
      invariant KidsSoFar(parents, parents.Keys - todo, children)
      invariant forall c | c in inDegree :: inDegree[c] == |Named(parents[c])|
    {
      var child :| child in todo;
      var uniq := UniqueStrings(parents[child]);
      DistinctCardinality(uniq);
      ghost var before := children;
      inDegree := inDegree[child := |uniq|];
      children := AddChild(children, uniq, child);
      ChildAdded(parents, parents.Keys - todo, before, uniq, child, children);
      assert parents.Keys - (todo - {child}) == parents.Keys - todo + {child};
      todo := todo - {child};
    }
    assert parents.Keys - todo == parents.Keys;
    AllCounted(parents, inDegree, children);
  }

  lemma NoKids(parents: ParentsMap)
    ensures KidsSoFar(parents, {}, map[])
  {}

  lemma AllCounted(parents: ParentsMap, inDegree: map<FactId, int>, children: map<FactId, seq<FactId>>)
    requires inDegree.Keys == parents.Keys && KidsSoFar(parents, parents.Keys, children)
    requires forall c | c in inDegree :: inDegree[c] == |Named(parents[c])|
    ensures Degrees(parents, {}, inDegree) && ChildLists(parents, children)
  {
    forall c | c in parents ensures inDegree[c] == |Pending(parents, {}, c)| {
      assert Pending(parents, {}, c) == Named(parents[c]);
    }
    hide Named, KidsOf;
  }

  /** Ids with no parents, sorted. */
  method FirstQueue(parents: ParentsMap, inDegree: map<FactId, int>) returns (queue: seq<FactId>)
    requires Degrees(parents, {}, inDegree)
    ensures Waiting(parents, {}, queue) && Sorted(queue)
  {
    hide Pending;
    var kept: seq<FactId> := [];
    var todo := inDegree.Keys;
    while todo != {}
      invariant todo <= inDegree.Keys && Distinct(kept)
      invariant forall c :: c in kept <==> c in inDegree && c !in todo && inDegree[c] == 0
    {
      var c :| c in todo;
      if inDegree[c] == 0 {
        kept := kept + [c];
      }
      todo := todo - {c};
    }
    queue := SortStrings(kept);
    SortKeepsDistinct(kept);
    forall c ensures c in queue <==> c in parents && c !in {} && Pending(parents, {}, c) == {} {
      assert c in queue <==> c in kept;
    }
  }

  /** Between two dequeues: the degrees of the children seen so far are one lower. */
  ghost predicate Releasing(parents: ParentsMap,
                            done: set<FactId>, seen: set<FactId>, queue0: seq<FactId>, inDegree: map<FactId, int>,
                            queue: seq<FactId>) {
    inDegree.Keys == parents.Keys &&
    (forall c | c in parents :: inDegree[c] == |Pending(parents, done, c)| - if c in seen then 1 else 0) &&
    Distinct(queue) && forall c :: c in queue <==> c in queue0 || (c in seen && c in inDegree && inDegree[c] == 0)
  }

  lemma ReleaseOne(parents: ParentsMap,
                   done: set<FactId>, seen: set<FactId>, queue0: seq<FactId>, inDegree: map<FactId, int>,
                   queue: seq<FactId>, c: FactId)
    requires Releasing(parents, done, seen, queue0, inDegree, queue) && c in parents && c !in seen && c !in queue0
    ensures Releasing(parents, done, seen + {c}, queue0, inDegree[c := inDegree[c] - 1],
                      if inDegree[c] == 1 then queue + [c] else queue)
  {
    hide Pending;
    assert c !in queue;
  }

  /** Visits the children of a dequeued id. */
  method Release(parents: ParentsMap, kids: seq<FactId>, inDegree: map<FactId, int>,
                 queue: seq<FactId>, ghost done: set<FactId>)
    returns (inDegree': map<FactId, int>, queue': seq<FactId>)
    requires Distinct(kids)
    requires (forall c | c in kids :: c in parents && c !in queue) && Distinct(queue) &&
             Degrees(parents, done, inDegree)
    ensures Releasing(parents, done, Elements(kids), queue, inDegree', queue')
  {
    hide Pending;
    inDegree', queue' := inDegree, queue;
    assert Releasing(parents, done, {}, queue, inDegree', queue');
    assert Elements(kids[..0]) == {};
    for n := 0 to |kids|
      invariant Releasing(parents, done, Elements(kids[..n]), queue, inDegree', queue')
    {
      var child := kids[n];
      assert kids[..n + 1] == kids[..n] + [child] && child !in kids[..n] && child in kids;
      assert Elements(kids[..n + 1]) == Elements(kids[..n]) + {child};
      ReleaseOne(parents, done, Elements(kids[..n]), queue, inDegree', queue', child);
      hide Releasing;
      inDegree' := inDegree'[child := inDegree'[child] - 1];
      if inDegree'[child] == 0 {
        queue' := queue' + [child];
      }
    }
    assert kids[..|kids|] == kids;
  }

  /** Once all children of id are released, the state describes one more ordered id. */
  lemma Released(parents: ParentsMap, children: map<FactId, seq<FactId>>, done: set<FactId>, id: FactId,
                 before: seq<FactId>, inDegree: map<FactId, int>, queue: seq<FactId>)
    requires ChildLists(parents, children) && Waiting(parents, done, before) && before != [] && before[0] == id
    requires Releasing(parents, done, Elements(KidsOf(children, id)), before[1..], inDegree, queue)
    requires forall c | c in done && c in parents :: Pending(parents, done, c) == {}
    ensures Degrees(parents, done + {id}, inDegree) && Waiting(parents, done + {id}, queue)
  {
    var kids := Elements(KidsOf(children, id));
    assert before == [id] + before[1..] && id in before && id !in before[1..];
    assert forall c :: c in kids <==> c in parents && id in Named(parents[c]);
    assert forall c :: c in before <==> c == id || c in before[1..];
    hide ChildLists, KidsOf, Named, Elements, Distinct;
    forall c | c in parents ensures inDegree[c] == |Pending(parents, done + {id}, c)| {
      PendingFalls(parents, done, id, c);
      hide Pending;
    }
    forall c ensures c in queue <==> c in parents && c !in done + {id} && Pending(parents, done + {id}, c) == {} {
      if c in parents {
        PendingFalls(parents, done, id, c);
        hide Pending;
      }
    }
    hide Pending;
  }

  lemma PendingFalls(parents: ParentsMap, done: set<FactId>, id: FactId, c: FactId)
    requires c in parents && id !in done
    ensures |Pending(parents, done + {id}, c)| == |Pending(parents, done, c)| - if id in Named(parents[c]) then 1 else 0
    ensures id !in Named(parents[c]) ==> Pending(parents, done + {id}, c) == Pending(parents, done, c)
    ensures id in Named(parents[c]) ==> Pending(parents, done, c) != {}
  {
    assert Pending(parents, done + {id}, c) == Pending(parents, done, c) - {id};
  }

  lemma OrderedHaveNothingPending(parents: ParentsMap, order: seq<FactId>)
    requires Ordering(parents, order)
    ensures forall c | c in Elements(order) && c in parents :: Pending(parents, Elements(order), c) == {}
  {
    hide Named;
    forall c | c in Elements(order) && c in parents ensures Pending(parents, Elements(order), c) == {} {
      var k :| 0 <= k < |order| && order[k] == c;
      assert Elements(order[..k]) <= Elements(order);
    }
  }

  lemma OrderGrows(parents: ParentsMap, order: seq<FactId>, id: FactId)
    requires Ordering(parents, order) && id in parents && id !in Elements(order)
    requires Pending(parents, Elements(order), id) == {}
    ensures Ordering(parents, order + [id]) && Elements(order + [id]) == Elements(order) + {id}
  {
    var more := order + [id];
    assert Named(parents[id]) <= Elements(order) by {
      forall p | p in Named(parents[id]) ensures p in Elements(order) {
        assert p !in Pending(parents, Elements(order), id);
      }
    }
    hide Named;
    forall k | 0 <= k < |more| ensures Named(parents[more[k]]) <= Elements(more[..k]) {
      if k < |order| {
        assert more[..k] == order[..k] && more[k] == order[k];
      } else {
        assert more[..k] == order && more[k] == id;
      }
    }
  }

  lemma OrderFits(parents: ParentsMap, order: seq<FactId>)
    requires Ordering(parents, order)
    ensures |order| <= |parents| && (|order| == |parents| <==> Elements(order) == parents.Keys)
  {
    DistinctCardinality(order);
    SubsetCardinality(Elements(order), parents.Keys);
    assert |parents.Keys| == |parents|;
  }

  /** A graph in which nothing is left waiting before all is ordered has a cycle or names an unknown parent. */
  lemma StuckIsNotOrderable(parents: ParentsMap, order: seq<FactId>)
    requires Ordering(parents, order) && Waiting(parents, Elements(order), []) && Elements(order) != parents.Keys
    ensures !(Closed(parents) && Acyclic(ParentEdges(parents)))
  {
    var trap := parents.Keys - Elements(order);
    if Closed(parents) {
      forall c | c in trap ensures HasPredecessorIn(ParentEdges(parents), trap, c) {
        assert c !in [] && Pending(parents, Elements(order), c) != {};
        var p :| p in Pending(parents, Elements(order), c);
        assert p in trap && (p, c) in ParentEdges(parents);
      }
      TrapHasCycle(ParentEdges(parents), trap);
    }
  }

  /** An order with all parents earlier exists only for closed acyclic graphs. */
  lemma OrderedIsAcyclic(parents: ParentsMap, order: seq<FactId>)
    requires IsOrder(parents, order)
    ensures Closed(parents) && Acyclic(ParentEdges(parents))
  {
    var edges := ParentEdges(parents);
    var rank := map id | id in parents :: PositionOf(order, id);
    forall p, c | (p, c) in edges ensures p in rank && c in rank && rank[p] < rank[c] {
      var k := PositionOf(order, c);
      assert c in Elements(order) && order[k] == c;
      assert p in Elements(order[..k]);
      var l :| 0 <= l < k && order[l] == p;
      assert p in Elements(order);
      assert PositionOf(order, p) == l;
    }
    forall c, p | c in parents && p in Named(parents[c]) ensures p in parents {
      assert (p, c) in edges;
    }
    RankedIsAcyclic(edges, rank);
  }

  ghost function PositionOf(order: seq<FactId>, id: FactId): (k: nat)
    ensures id in order ==> k < |order| && order[k] == id
    ensures id in order && Distinct(order) ==> forall l | 0 <= l < |order| && order[l] == id :: l == k
  {
    if id in order then (var k :| 0 <= k < |order| && order[k] == id; k) else 0
  }

  /** Kahn's algorithm: succeeds exactly on the acyclic graphs all of whose named parents are keys. */
  method TopoOrderFromParents(parents: ParentsMap) returns (r: Result<seq<FactId>, string>)
    ensures r.Success? <==> Closed(parents) && Acyclic(ParentEdges(parents))
    ensures r.Success? ==> IsOrder(parents, r.value) && FirstByName(parents, r.value)
  {
    hide FirstByName, Sorted, Degrees, Waiting, Ordering, ChildLists, Pending, Named, Acyclic, Closed, ParentEdges;
    var inDegree, children := CountParents(parents);
    var queue := FirstQueue(parents, inDegree);
    var order: seq<FactId> := [];
    NothingOrdered(parents);
    while |queue| > 0
      invariant Ordering(parents, order) && Degrees(parents, Elements(order), inDegree)
      invariant Waiting(parents, Elements(order), queue) && Sorted(queue) && FirstByName(parents, order)
      decreases |parents| - |order|
    {
      inDegree, order, queue := OrderNext(parents, children, inDegree, order, queue);
    }
    OrderFits(parents, order);
    if |order| != |inDegree| {
      SameSize(parents, Elements(order), inDegree);
      StuckIsNotOrderable(parents, order);
      return Failure("cycle detected in dependency graph");
    }
    SameSize(parents, Elements(order), inDegree);
    OrderComplete(parents, order);
    OrderedIsAcyclic(parents, order);
    r := Success(order);
  }

  lemma NothingOrdered(parents: ParentsMap)
    ensures Ordering(parents, []) && Elements<FactId>([]) == {} && FirstByName(parents, [])
  {}

  lemma SameSize(parents: ParentsMap, done: set<FactId>, inDegree: map<FactId, int>)
    requires Degrees(parents, done, inDegree)
    ensures |inDegree| == |parents|
  {
    assert |inDegree.Keys| == |inDegree| && |parents.Keys| == |parents|;
  }

  lemma OrderComplete(parents: ParentsMap, order: seq<FactId>)
    requires Ordering(parents, order) && Elements(order) == parents.Keys
    ensures IsOrder(parents, order)
  {}

  /** One turn of the main loop. */
  method OrderNext(parents: ParentsMap, children: map<FactId, seq<FactId>>, inDegree: map<FactId, int>,
                   order: seq<FactId>, queue: seq<FactId>)
    returns (inDegree': map<FactId, int>, order': seq<FactId>, queue': seq<FactId>)
    requires ChildLists(parents, children) && Ordering(parents, order) && queue != []
    requires Degrees(parents, Elements(order), inDegree) && Waiting(parents, Elements(order), queue)
    requires Sorted(queue) && FirstByName(parents, order)
    ensures Ordering(parents, order') && |order| < |order'| <= |parents|
    ensures Degrees(parents, Elements(order'), inDegree') && Waiting(parents, Elements(order'), queue')
    ensures Sorted(queue') && FirstByName(parents, order')
  {
    FirstTaken(parents, order, queue);
    hide FirstByName, Sorted, Degrees, Ordering, Pending, Named, Releasing;
    var id := queue[0];
    assert id in queue;
    order' := order + [id];
    OrderGrows(parents, order, id);
    OrderFits(parents, order');
    OrderedHaveNothingPending(parents, order);
    NextKids(parents, children, Elements(order), queue);
    inDegree', queue' := Release(parents, KidsOf(children, id), inDegree, queue[1..], Elements(order));
    Released(parents, children, Elements(order), id, queue, inDegree', queue');
    ghost var unsorted := queue';
    queue' := SortStrings(queue');
    QueueSorted(parents, Elements(order'), unsorted);
  }

  /** The head of a sorted queue is the first by name of those that are ready. */
  lemma FirstTaken(parents: ParentsMap, order: seq<FactId>, queue: seq<FactId>)
    requires Waiting(parents, Elements(order), queue) && Sorted(queue) && queue != [] && FirstByName(parents, order)
    ensures FirstByName(parents, order + [queue[0]])
  {
    var more := order + [queue[0]];
    forall k, c | 0 <= k < |more| && c in parents && c !in more[..k] && Named(parents[c]) <= Elements(more[..k])
      ensures StringLe(more[k], c)
    {
      if k < |order| {
        assert more[..k] == order[..k];
      } else {
        assert more[..k] == order && Pending(parents, Elements(order), c) == {} && c in queue;
        var l :| 0 <= l < |queue| && queue[l] == c;
        if l == 0 { StringLeTotal(c, c); }
      }
    }
  }

  lemma NextKids(parents: ParentsMap, children: map<FactId, seq<FactId>>, done: set<FactId>, queue: seq<FactId>)
    requires ChildLists(parents, children) && queue != [] && Waiting(parents, done, queue)
    ensures Distinct(KidsOf(children, queue[0]))
    ensures forall c | c in KidsOf(children, queue[0]) :: c in parents && c !in queue[1..]
    ensures Distinct(queue[1..])
  {
    assert queue[0] in queue && queue == [queue[0]] + queue[1..];
    forall c | c in KidsOf(children, queue[0]) ensures c !in queue[1..] {
      assert queue[0] in Pending(parents, done, c);
      assert c !in queue;
    }
  }

  lemma QueueSorted(parents: ParentsMap, done: set<FactId>, queue: seq<FactId>)
    requires Waiting(parents, done, queue)
    ensures Waiting(parents, done, SortStrings(queue))
  {
    hide Pending, SortStrings;
    SortKeepsDistinct(queue);
    forall c ensures c in SortStrings(queue) <==> c in parents && c !in done && Pending(parents, done, c) == {} {
      assert c in SortStrings(queue) <==> c in queue;
    }
  }

  // ---- The check of a candidate graph --------------------------------------------------------------------

  datatype AtomicFact = AtomicFact(id: FactId, confidence: real, kind: Kind, claim: Payload)

  function Clamp01(v: real, fallback: real): real {
    if v <= 0.0 || v > 1.0 then fallback else v
  }

  /** The fact the check asserts: each parent justifies it alone. */
  function ValidatorFact(atomic: AtomicFact, ps: seq<FactId>): (fact: Fact)
    ensures (fact.isRoot <==> ps == []) && |fact.tokens| == |ps|
    ensures forall i | 0 <= i < |ps| :: fact.tokens[i] == [ps[i]]
    ensures ps == [] ==>
      0.0 < fact.manual <= 1.0 && (0.0 < atomic.confidence <= 1.0 ==> fact.manual == atomic.confidence)
  {
    Fact(atomic.claim.(polarity := "positive"), ps == [],
         if ps == [] then Clamp01(atomic.confidence, 0.75) else INVALID, if atomic.kind.OtherKind? then Empirical
         else atomic.kind, 0, 0, seq(|ps|, i requires 0 <= i < |ps| => [ps[i]]), "pipeline_stage3b_validator",
             Verification(Unknown, "", "", "", 0, false), Grounding([], false, 0), 0.0, "", Review(NoReview, "", 0),
             false)
  }

  ghost function IdsOf(facts: seq<AtomicFact>): set<FactId> {
    set f | f in facts :: f.id
  }

  /** No id could be read as a negated reference. */
  ghost predicate PlainIds(ids: set<FactId>) {
    forall id | id in ids :: id == "" || id[0] != '!'
  }

  method IndexById(facts: seq<AtomicFact>) returns (byID: map<FactId, AtomicFact>)
    ensures byID.Keys == IdsOf(facts)
  {
    byID := map[];
    for i := 0 to |facts|
      invariant byID.Keys == IdsOf(facts[..i])
    {
      assert facts[..i + 1] == facts[..i] + [facts[i]];
      byID := byID[facts[i].id := facts[i]];
    }
    assert facts[..|facts|] == facts;
  }

  /** An ordered graph of plain ids can be asserted, one id after the other. */
  lemma NextIsAssertable(parents: ParentsMap, order: seq<FactId>, k: nat, held: map<FactId, Fact>, atomic: AtomicFact,
                         ps: seq<FactId>)
    requires IsOrder(parents, order) && PlainIds(parents.Keys) && |parents| <= MAX_FACTS && k < |order|
    requires held.Keys == Elements(order[..k]) && Elements(ps) == Named(parents[order[k]])
    ensures order[k] !in held && |held| < MAX_FACTS && Assertable(held, ValidatorFact(atomic, ps))
  {
    assert Distinct(order[..k]) && forall l | 0 <= l < k :: order[..k][l] == order[l];
    DistinctCardinality(order[..k]);
    DistinctCardinality(order);
    assert |held| == |held.Keys| == k && |parents| == |parents.Keys| == |order|;
    var fact := ValidatorFact(atomic, ps);
    forall i | 0 <= i < |fact.tokens| ensures fact.tokens[i] != [] && GoodTokens(held, fact.tokens[i]) {
      assert ps[i] in Elements(ps) && ps[i] in Named(parents[order[k]]) && ps[i] in held;
      assert ps[i] in Elements(order) && ps[i] in parents;
    }
  }

  /** What the check can promise to accept: an acyclic graph over known facts, with plain ids, below the fact cap. */
  ghost predicate Assertible(facts: seq<AtomicFact>, parents: ParentsMap) {
    Closed(parents) && Acyclic(ParentEdges(parents)) && parents.Keys <= IdsOf(facts) && PlainIds(parents.Keys) &&
    |parents| <= MAX_FACTS
  }

  /** Orders the graph, then asserts it into a fresh engine. */
  method ValidateDependencyGraphWithEngine(facts: seq<AtomicFact>, parents: ParentsMap, now: nat) returns (ok: bool)
    ensures ok ==> Closed(parents) && Acyclic(ParentEdges(parents)) && parents.Keys <= IdsOf(facts)
    ensures Assertible(facts, parents) ==> ok
  {
    hide Closed, Acyclic, ParentEdges, IdsOf, PlainIds, IsOrder;
    var r := TopoOrderFromParents(parents);
    if r.Failure? {
      return false;
    }
    var byID := IndexById(facts);
    ok := AssertInOrder(r.value, parents, byID, now);
  }

  method AssertInOrder(order: seq<FactId>, parents: ParentsMap, byID: map<FactId, AtomicFact>, now: nat)
    returns (ok: bool)
    requires IsOrder(parents, order)
    ensures ok ==> parents.Keys <= byID.Keys
    ensures (parents.Keys <= byID.Keys && PlainIds(parents.Keys) && |parents| <= MAX_FACTS) ==> ok
  {
    hide Engine.Valid, PlainIds, IsOrder;
    var engine := new Engine();
    ok := AssertAll(engine, order, parents, byID, now);
  }

  method AssertAll(engine: Engine, order: seq<FactId>, parents: ParentsMap, byID: map<FactId, AtomicFact>, now: nat)
    returns (ok: bool)
    requires engine.Valid() && engine.clock <= now && IsOrder(parents, order) && engine.facts == map[]
    modifies engine
    ensures ok ==> parents.Keys <= byID.Keys
    ensures (parents.Keys <= byID.Keys && PlainIds(parents.Keys) && |parents| <= MAX_FACTS) ==> ok
  {
    OrderPrefixes(parents, order);
    hide Engine.Valid, PlainIds, IsOrder, Elements, Named;
    for k := 0 to |order|
      invariant engine.Valid() && engine.clock <= now
      invariant engine.facts.Keys == Elements(order[..k]) && Elements(order[..k]) <= byID.Keys
    {
      var done := AssertNext(engine, order, k, parents, byID, now);
      if !done {
        return false;
      }
    }
    ok := true;
  }

  lemma OrderPrefixes(parents: ParentsMap, order: seq<FactId>)
    requires IsOrder(parents, order)
    ensures Elements(order[..0]) == {} && Elements(order[..|order|]) == parents.Keys
    ensures forall k | 0 <= k < |order| :: order[k] in parents
  {
    assert order[..|order|] == order;
    forall k | 0 <= k < |order| ensures order[k] in parents {
      assert order[k] in Elements(order);
    }
  }

  /** One turn of the loop. */
  method AssertNext(engine: Engine, order: seq<FactId>, k: nat, parents: ParentsMap, byID: map<FactId, AtomicFact>,
                    now: nat)
    returns (ok: bool)
    requires engine.Valid() && engine.clock <= now && IsOrder(parents, order) && k < |order| && order[k] in parents
    requires engine.facts.Keys == Elements(order[..k])
    modifies engine
    ensures engine.Valid() && engine.clock <= now
    ensures ok ==> engine.facts.Keys == Elements(order[..k + 1]) && order[k] in byID
    ensures ok ==> Elements(order[..k + 1]) == Elements(order[..k]) + {order[k]}
    ensures (order[k] in byID && PlainIds(parents.Keys) && |parents| <= MAX_FACTS) ==> ok
  {
    hide Engine.Valid, PlainIds, IsOrder, ValidatorFact, Assertable, Named;
    var id := order[k];
    assert order[..k + 1] == order[..k] + [id];
    assert Elements(order[..k + 1]) == Elements(order[..k]) + {id};
    if id !in byID {
      return false;
    }
    var ps := UniqueStrings(parents[id]);
    if PlainIds(parents.Keys) && |parents| <= MAX_FACTS {
      NextIsAssertable(parents, order, k, engine.facts, byID[id], ps);
    }
    var result := engine.AssertFact(id, ValidatorFact(byID[id], ps), now);
    ok := result.Asserted? || result.AlreadyPresent?;
  }

  // ---- Greedy acceptance ---------------------------------------------------------------------------------

  datatype Proposal = Proposal(parent: FactId, child: FactId)
  datatype Stats = Stats(accepted: nat, rejected: nat)

  /** Whether adding this dependency would keep the graph acyclic. */
  ghost predicate StaysAcyclic(parents: ParentsMap, p: Proposal) {
    Acyclic(ParentEdges(parents) + {(p.parent, p.child)})
  }

  ghost function ParentsOf(parents: ParentsMap, c: FactId): seq<FactId> {
    if c in parents then parents[c] else []
  }

  /** The candidate map with one more dependency. */
  ghost function WithParent(parents: ParentsMap, p: Proposal): ParentsMap {
    parents[p.child := ParentsOf(parents, p.child) + [p.parent]]
  }

  ghost predicate Known(facts: seq<AtomicFact>, p: Proposal) {
    p.child in IdsOf(facts) && (p.parent in IdsOf(facts) || p.parent == "")
  }

  /** The graph accepted so far: acyclic, over the given facts, and made of proposals only. */
  ghost predicate Sound(facts: seq<AtomicFact>, proposals: seq<Proposal>, n: nat, parents: ParentsMap) {
    n <= |proposals| && parents.Keys == IdsOf(facts) && Closed(parents) && Acyclic(ParentEdges(parents)) &&
    forall c, p | c in parents && p in parents[c] :: Proposal(p, c) in proposals[..n]
  }

  /** The proposal was accepted, names an unknown fact, or would close a cycle. */
  ghost predicate Answered(facts: seq<AtomicFact>, parents: ParentsMap, p: Proposal) {
    p.parent in ParentsOf(parents, p.child) || !Known(facts, p) || !StaysAcyclic(parents, p)
  }

  ghost predicate AllAnswered(facts: seq<AtomicFact>, proposals: seq<Proposal>, n: nat, parents: ParentsMap) {
    n <= |proposals| && forall i | 0 <= i < n :: Answered(facts, parents, proposals[i])
  }

  /** With plain ids and not too many facts, the check never refuses more than it has to. */
  ghost predicate Ordinary(facts: seq<AtomicFact>) {
    PlainIds(IdsOf(facts)) && |IdsOf(facts)| <= MAX_FACTS
  }

  lemma WithParentEdges(parents: ParentsMap, p: Proposal)
    ensures p.parent != "" ==> ParentEdges(WithParent(parents, p)) == ParentEdges(parents) + {(p.parent, p.child)}
    ensures p.parent == "" ==> ParentEdges(WithParent(parents, p)) == ParentEdges(parents)
  {
    forall e ensures e in ParentEdges(WithParent(parents, p)) <==>
      e in ParentEdges(parents) || (p.parent != "" && e == (p.parent, p.child))
    {
      var (q, c) := e;
      assert e == (q, c);
      assert q in ParentsOf(parents, p.child) + [p.parent] <==> q in ParentsOf(parents, p.child) || q == p.parent;
    }
  }

  lemma WithParentClosed(parents: ParentsMap, p: Proposal)
    requires Closed(parents) && p.child in parents
    ensures Closed(WithParent(parents, p)) <==> p.parent == "" || p.parent in parents
  {
    var next := WithParent(parents, p);
    assert next[p.child] == parents[p.child] + [p.parent];
    assert Named(next[p.child]) == Named(parents[p.child]) + (if p.parent == "" then {} else {p.parent});
    assert p.child in next && next.Keys == parents.Keys;
    assert p.parent != "" ==> p.parent in Named(next[p.child]);
    hide Named;
    if p.parent == "" || p.parent in parents {
      forall c, q | c in next && q in Named(next[c]) ensures q in next {
        assert q in Named(parents[c]) || (c == p.child && q == p.parent);
      }
    }
  }

  lemma SelfLoopIsCycle(parents: ParentsMap, p: Proposal)
    requires p.parent == p.child
    ensures !StaysAcyclic(parents, p)
  {
    assert IsCycle(ParentEdges(parents) + {(p.parent, p.child)}, [p.parent, p.child]);
  }

  /** What a refusal by the check means. */
  lemma RefusedIsAnswered(facts: seq<AtomicFact>, proposals: seq<Proposal>, n: nat, parents: ParentsMap, p: Proposal)
    requires Ordinary(facts) && Sound(facts, proposals, n, parents) && !Assertible(facts, WithParent(parents, p))
    ensures Answered(facts, parents, p)
  {
    hide Closed, Acyclic, ParentEdges, IdsOf;
    if p.child in parents {
      WithParentEdges(parents, p);
      WithParentClosed(parents, p);
      assert WithParent(parents, p).Keys == parents.Keys;
      assert |parents| == |parents.Keys| && |WithParent(parents, p)| == |WithParent(parents, p).Keys|;
    }
  }

  /** What acceptance by the check means. */
  lemma AcceptedIsSound(facts: seq<AtomicFact>, proposals: seq<Proposal>, n: nat, parents: ParentsMap)
    requires n < |proposals| && Sound(facts, proposals, n, parents)
    requires var next := WithParent(parents, proposals[n]);
      Closed(next) && Acyclic(ParentEdges(next)) && next.Keys <= IdsOf(facts)
    ensures Sound(facts, proposals, n + 1, WithParent(parents, proposals[n]))
    ensures Answered(facts, WithParent(parents, proposals[n]), proposals[n])
  {
    hide Closed, Acyclic, ParentEdges, IdsOf;
    var p, next := proposals[n], WithParent(parents, proposals[n]);
    assert proposals[..n + 1] == proposals[..n] + [p];
    assert p.child in next;
    forall c, q | c in next && q in next[c] ensures Proposal(q, c) in proposals[..n + 1] {
      if c == p.child && q !in parents[c] {
        assert Proposal(q, c) == p;
      } else {
        assert Proposal(q, c) in proposals[..n];
      }
    }
  }

  /** Answers stay right as the graph grows. */
  lemma AnswersLast(facts: seq<AtomicFact>, proposals: seq<Proposal>, n: nat, parents: ParentsMap, next: ParentsMap)
    requires AllAnswered(facts, proposals, n, parents) && n < |proposals| && Answered(facts, next, proposals[n])
    requires ParentEdges(parents) <= ParentEdges(next)
    requires forall c, q | q in ParentsOf(parents, c) :: q in ParentsOf(next, c)
    ensures AllAnswered(facts, proposals, n + 1, next)
  {
    forall i | 0 <= i < n ensures Answered(facts, next, proposals[i]) {
      var p := proposals[i];
      assert Answered(facts, parents, p);
      if !StaysAcyclic(parents, p) {
        CycleStays(ParentEdges(parents) + {(p.parent, p.child)}, ParentEdges(next) + {(p.parent, p.child)});
      }
    }
  }

  lemma CycleStays(small: Edges, large: Edges)
    requires small <= large && !Acyclic(small)
    ensures !Acyclic(large)
  {
    var p :| IsCycle(small, p);
    CycleMonotone(small, large, p);
  }

  lemma NothingAccepted(facts: seq<AtomicFact>, proposals: seq<Proposal>, parents: ParentsMap)
    requires parents.Keys == IdsOf(facts) && forall c | c in parents :: parents[c] == []
    ensures Sound(facts, proposals, 0, parents) && AllAnswered(facts, proposals, 0, parents)
  {
    assert ParentEdges(parents) == {};
    RankedIsAcyclic({}, map[]);
  }

  /** What one proposal does, in terms of the graph alone: it is skipped when it is there already, taken when it is
      between known facts and leaves the graph acyclic, and else rejected. */
  ghost function Turn(facts: seq<AtomicFact>, parents: ParentsMap, stats: Stats, p: Proposal): (ParentsMap, Stats) {
    if p.parent != p.child && p.parent in ParentsOf(parents, p.child) then (parents, stats)
    else if p.parent != p.child && Known(facts, p) && Acyclic(ParentEdges(WithParent(parents, p))) then
      (WithParent(parents, p), stats.(accepted := stats.accepted + 1))
    else (parents, stats.(rejected := stats.rejected + 1))
  }

  /** The first n proposals, taken greedily. */
  ghost function Greedy(facts: seq<AtomicFact>, proposals: seq<Proposal>, n: nat): (ParentsMap, Stats)
    requires n <= |proposals|
  {
    if n == 0 then (map c | c in IdsOf(facts) :: [], Stats(0, 0))
    else
      var before := Greedy(facts, proposals, n - 1);
      Turn(facts, before.0, before.1, proposals[n - 1])
  }

  /** With plain ids the check of a candidate says whether the proposal is to be taken. */
  lemma CheckDecides(facts: seq<AtomicFact>, proposals: seq<Proposal>, n: nat, parents: ParentsMap, p: Proposal)
    requires Ordinary(facts) && Sound(facts, proposals, n, parents)
    ensures var next := WithParent(parents, p);
      (Known(facts, p) && Acyclic(ParentEdges(next)) ==> Assertible(facts, next)) &&
      (Closed(next) && next.Keys <= IdsOf(facts) ==> Known(facts, p))
  {
    hide Closed, Acyclic, ParentEdges, IdsOf;
    if p.child in parents {
      WithParentClosed(parents, p);
      assert WithParent(parents, p).Keys == parents.Keys;
      assert |parents| == |parents.Keys| && |WithParent(parents, p)| == |WithParent(parents, p).Keys|;
    } else {
      assert p.child in WithParent(parents, p);
    }
  }

  lemma EmptyMapIs(facts: seq<AtomicFact>, proposals: seq<Proposal>, parents: ParentsMap)
    requires parents.Keys == IdsOf(facts) && forall c | c in parents :: parents[c] == []
    ensures Greedy(facts, proposals, 0) == (parents, Stats(0, 0))
  {
    assert parents == map c | c in IdsOf(facts) :: [];
  }

  /** Accepts each proposal that the check lets through, in the order given. */
  method AcceptProposals(facts: seq<AtomicFact>, proposals: seq<Proposal>, now: nat)
    returns (accepted: ParentsMap, stats: Stats)
    ensures Sound(facts, proposals, |proposals|, accepted)
    ensures Ordinary(facts) ==> AllAnswered(facts, proposals, |proposals|, accepted) && Assertible(facts, accepted)
    ensures Ordinary(facts) ==> (accepted, stats) == Greedy(facts, proposals, |proposals|)
    ensures stats.accepted + stats.rejected <= |proposals|
  {
    hide Sound, AllAnswered, Ordinary, Assertible, Turn;
    accepted := map[];
    for i := 0 to |facts|
      invariant accepted.Keys == IdsOf(facts[..i]) && forall c | c in accepted :: accepted[c] == []
    {
      assert facts[..i + 1] == facts[..i] + [facts[i]];
      accepted := accepted[facts[i].id := []];
    }
    assert facts[..|facts|] == facts;
    NothingAccepted(facts, proposals, accepted);
    EmptyMapIs(facts, proposals, accepted);
    stats := Stats(0, 0);
    for n := 0 to |proposals|
      invariant Sound(facts, proposals, n, accepted) && stats.accepted + stats.rejected <= n
      invariant Ordinary(facts) ==> AllAnswered(facts, proposals, n, accepted)
      invariant Ordinary(facts) ==> (accepted, stats) == Greedy(facts, proposals, n)
    {
      accepted, stats := ConsiderProposal(facts, proposals, n, accepted, stats, now);
    }
    if Ordinary(facts) {
      SoundIsAssertible(facts, proposals, |proposals|, accepted);
    }
  }

  lemma SoundIsAssertible(facts: seq<AtomicFact>, proposals: seq<Proposal>, n: nat, parents: ParentsMap)
    requires Ordinary(facts) && Sound(facts, proposals, n, parents)
    ensures Assertible(facts, parents)
  {
    hide Closed, Acyclic, ParentEdges, IdsOf;
    assert |parents| == |parents.Keys|;
  }

  lemma SkippedStaysSound(facts: seq<AtomicFact>, proposals: seq<Proposal>, n: nat, parents: ParentsMap)
    requires Sound(facts, proposals, n, parents) && n < |proposals|
    ensures Sound(facts, proposals, n + 1, parents)
    ensures AllAnswered(facts, proposals, n, parents) && Answered(facts, parents, proposals[n]) ==>
      AllAnswered(facts, proposals, n + 1, parents)
  {
    hide Closed, Acyclic, ParentEdges, IdsOf, Answered;
    assert proposals[..n + 1] == proposals[..n] + [proposals[n]];
  }

  lemma GrownMap(parents: ParentsMap, p: Proposal)
    ensures ParentEdges(parents) <= ParentEdges(WithParent(parents, p))
    ensures forall c, q | q in ParentsOf(parents, c) :: q in ParentsOf(WithParent(parents, p), c)
  {
    WithParentEdges(parents, p);
  }

  lemma MapGrew(parents: ParentsMap, p: Proposal)
    ensures WithParent(parents, p) != parents
  {
    assert |WithParent(parents, p)[p.child]| == |ParentsOf(parents, p.child)| + 1;
  }

  lemma WithParentIs(parents: ParentsMap, p: Proposal, others: seq<FactId>, next: ParentsMap)
    requires others == if p.child in parents then parents[p.child] else []
    requires next == parents[p.child := others + [p.parent]]
    ensures next == WithParent(parents, p)
  {}

  /** One turn of the acceptance loop. */
  method ConsiderProposal(facts: seq<AtomicFact>, proposals: seq<Proposal>, n: nat, parents: ParentsMap, stats: Stats,
                          now: nat)
    returns (parents': ParentsMap, stats': Stats)
    requires n < |proposals| && Sound(facts, proposals, n, parents) && stats.accepted + stats.rejected <= n
    requires Ordinary(facts) ==> AllAnswered(facts, proposals, n, parents)
    ensures Sound(facts, proposals, n + 1, parents') && stats'.accepted + stats'.rejected <= n + 1
    ensures Ordinary(facts) ==> AllAnswered(facts, proposals, n + 1, parents')
    ensures parents' == parents || parents' == WithParent(parents, proposals[n])
    ensures proposals[n].parent in ParentsOf(parents, proposals[n].child) ==> parents' == parents
    ensures Ordinary(facts) ==> (parents', stats') == Turn(facts, parents, stats, proposals[n])
    ensures stats' == if parents' != parents then Stats(stats.accepted + 1, stats.rejected)
                      else if proposals[n].parent != proposals[n].child &&
                          proposals[n].parent in ParentsOf(parents, proposals[n].child) then stats
                      else Stats(stats.accepted, stats.rejected + 1)
  {
    hide Sound, AllAnswered, Ordinary, Assertible, WithParent, Closed, Acyclic, ParentEdges, IdsOf, Known, StaysAcyclic;
    var prop := proposals[n];
    parents', stats' := parents, stats;
    SkippedStaysSound(facts, proposals, n, parents);
    if prop.parent == prop.child {
      SelfLoopIsCycle(parents, prop);
      stats' := stats.(rejected := stats.rejected + 1);
      return;
    }
    var others := if prop.child in parents then parents[prop.child] else [];
    if prop.parent in others {
      return;
    }
    var next := parents[prop.child := others + [prop.parent]];
    WithParentIs(parents, prop, others, next);
    if Ordinary(facts) {
      CheckDecides(facts, proposals, n, parents, prop);
    }
    var ok := ValidateDependencyGraphWithEngine(facts, next, now);
    if !ok {
      if Ordinary(facts) {
        RefusedIsAnswered(facts, proposals, n, parents, prop);
      }
      stats' := stats.(rejected := stats.rejected + 1);
      return;
    }
    AcceptedIsSound(facts, proposals, n, parents);
    GrownMap(parents, prop);
    if Ordinary(facts) {
      AnswersLast(facts, proposals, n, parents, next);
    }
    MapGrew(parents, prop);
    parents' := next;
    stats' := stats.(accepted := stats.accepted + 1);
  }

  /** Greedy acceptance is maximal: among proposals between known facts, those accepted are exactly those that keep the
      final graph acyclic. */
  lemma GreedyIsMaximal(facts: seq<AtomicFact>, proposals: seq<Proposal>, accepted: ParentsMap, i: nat)
    requires Sound(facts, proposals, |proposals|, accepted) && AllAnswered(facts, proposals, |proposals|, accepted)
    requires i < |proposals| && Known(facts, proposals[i]) && proposals[i].parent != ""
    ensures proposals[i].parent in ParentsOf(accepted, proposals[i].child) <==> StaysAcyclic(accepted, proposals[i])
  {
    var p := proposals[i];
    hide Closed, Acyclic, IdsOf;
    assert Answered(facts, accepted, p);
    if p.parent in ParentsOf(accepted, p.child) {
      assert (p.parent, p.child) in ParentEdges(accepted);
      assert ParentEdges(accepted) + {(p.parent, p.child)} == ParentEdges(accepted);
    }
  }
}
