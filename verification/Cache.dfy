/** The engine's cached state as values: justification sets, their index, and what "up to date" means. */
module Cache {
  import opened Facts
  import opened Semantics

  datatype JSet = JSet(child: FactId, deps: DependencySet, target: nat, current: nat, confidence: Status) {
    ghost predicate Mentions(p: FactId) {
      p in deps.positive || p in deps.negative
    }
  }

  type Sets = map<SetId, JSet>
  type Children = map<FactId, set<SetId>>

  function Kids(children: Children, p: FactId): set<SetId> {
    if p in children then children[p] else {}
  }

  ghost predicate IsSetId(w: World, j: SetId) {
    j.fact in w.facts && !w.facts[j.fact].isRoot && j.index < |w.facts[j.fact].tokens|
  }

  /** A stored set is the split of the tokens it was made from. */
  ghost predicate SetShape(fact: Fact, j: SetId, js: JSet) {
    js.child == j.fact && js.target == |js.deps.positive| + |js.deps.negative| &&
    (forall r :: r in js.deps.Refs() <==> r in SetRefs(fact, j.index)) &&
    multiset(js.deps.all) == multiset(js.deps.positive) + multiset(js.deps.negative)
  }

  /** The stored sets are those of the derived facts, and the index inverts their parents. */
  ghost predicate Shape(w: World, sets: Sets, children: Children) {
    (forall j :: j in sets <==> IsSetId(w, j)) &&
    (forall j | j in sets :: SetShape(w.facts[j.fact], j, sets[j])) &&
    (forall p, j | j in Kids(children, p) :: j in sets && sets[j].Mentions(p)) &&
    (forall p, j | j in sets && sets[j].Mentions(p) :: j in Kids(children, p))
  }

  /** The set as it looks right after being recomputed at time now. */
  ghost function Refreshed(w: World, derived: map<FactId, Status>, now: int, j: SetId, js: JSet): JSet {
    var refs, st := js.deps.Refs(), Readings(w, derived, now);
    var count := Count(w, st, now, j.fact, refs, |refs|);
    js.(current := count, confidence := if count == js.target then Floor(w, st, refs, |refs|) else INVALID)
  }

  ghost function CachedConfidences(w: World, sets: Sets, f: FactId): (r: seq<Status>)
    requires f in w.facts
    ensures |r| == |w.facts[f].tokens|
    ensures forall i: nat | i < |r| :: r[i] == if SetId(f, i) in sets then sets[SetId(f, i)].confidence else INVALID
  {
    seq(|w.facts[f].tokens|, i requires 0 <= i < |w.facts[f].tokens| =>
      if SetId(f, i) in sets then sets[SetId(f, i)].confidence else INVALID)
  }

  /** The status propagation would give f from the stored confidences. */
  ghost function Resolved(w: World, sets: Sets, f: FactId): Status
    requires f in w.facts
  {
    Resolve(w, f, CachedConfidences(w, sets, f))
  }

  /** f's stored status differs from what readers of f already see. */
  ghost predicate Stale(w: World, derived: map<FactId, Status>, f: FactId) {
    f in w.facts && f in derived &&
    derived[f] != (if f in w.retracted then INVALID else if w.facts[f].isRoot then w.facts[f].manual else derived[f])
  }

  ghost predicate Blames(w: World, derived: map<FactId, Status>, js: JSet, open: set<FactId>) {
    exists p :: p in open && js.Mentions(p) && Stale(w, derived, p)
  }

  ghost predicate SetCurrent(w: World, derived: map<FactId, Status>, stamp: map<SetId, int>, j: SetId, js: JSet) {
    js == Refreshed(w, derived, ReadAt(stamp, j), j, js)
  }

  /** Everything is up to date except what the open facts still have to pass on: a fact's status may lag
      its sets only if it is open, and a set may lag its parents only because of an open stale parent. */
  ghost predicate Settled(w: World, derived: map<FactId, Status>, sets: Sets, stamp: map<SetId, int>,
                          open: set<FactId>) {
    derived.Keys == w.facts.Keys &&
    (forall f | f in w.facts :: f in open || derived[f] == Resolved(w, sets, f)) &&
    (forall j | j in sets :: SetCurrent(w, derived, stamp, j, sets[j]) || Blames(w, derived, sets[j], open))
  }

  // ---- Refreshing sets -----------------------------------------------------------------------

  lemma {:induction false} CountSame(w1: World, st1: map<FactId, Status>, w2: World, st2: map<FactId, Status>, now: int,
                                     child: FactId, refs: seq<DepRef>, n: nat)
    requires n <= |refs|
    requires forall r | r in refs :: SameRef(w1, st1, now, w2, st2, now, child, r)
    ensures Count(w1, st1, now, child, refs, n) == Count(w2, st2, now, child, refs, n)
    ensures Floor(w1, st1, refs, n) == Floor(w2, st2, refs, n)
  {
    if n > 0 {
      CountSame(w1, st1, w2, st2, now, child, refs, n - 1);
      assert refs[n - 1] in refs;
    }
  }

  /** What a parent shows to a child: the part of a fact record a dependency can depend on. */
  ghost predicate SameParent(w1: World, d1: map<FactId, Status>, w2: World, d2: map<FactId, Status>, p: FactId,
                             now: int) {
    p in w1.facts && p in w2.facts && p in d1 && p in d2 &&
    w1.facts[p].kind == w2.facts[p].kind && w1.facts[p].sourceType == w2.facts[p].sourceType &&
    w1.facts[p].verification.status == w2.facts[p].verification.status &&
    w1.facts[p].assertedAt == w2.facts[p].assertedAt &&
    Read(w1, p, d1[p], now) == Read(w2, p, d2[p], now)
  }

  ghost predicate SameChild(w1: World, w2: World, c: FactId) {
    c in w1.facts && c in w2.facts && w1.facts[c].kind == w2.facts[c].kind &&
    w1.facts[c].grounding == w2.facts[c].grounding
  }

  lemma RefMembers(js: JSet)
    ensures forall r | r in js.deps.Refs() :: js.Mentions(r.id)
    ensures forall p | js.Mentions(p) :: exists r :: r in js.deps.Refs() && r.id == p
  {
    RefsMembers(js.deps);
    forall p | js.Mentions(p) ensures exists r :: r in js.deps.Refs() && r.id == p {
      if p in js.deps.positive {
        assert DepRef(p, false) in js.deps.Refs();
      } else {
        assert DepRef(p, true) in js.deps.Refs();
      }
    }
  }

  lemma RefreshedSame(w1: World, d1: map<FactId, Status>, w2: World, d2: map<FactId, Status>, now: int, j: SetId,
                      js: JSet)
    requires SameChild(w1, w2, j.fact)
    requires forall p | js.Mentions(p) :: SameParent(w1, d1, w2, d2, p, now)
    ensures Refreshed(w1, d1, now, j, js) == Refreshed(w2, d2, now, j, js)
  {
    var refs := js.deps.Refs();
    var st1, st2 := Readings(w1, d1, now), Readings(w2, d2, now);
    RefMembers(js);
    forall r | r in refs ensures SameRef(w1, st1, now, w2, st2, now, j.fact, r) {
      assert SameParent(w1, d1, w2, d2, r.id, now);
      assert st1[r.id] == st2[r.id];
    }
    CountSame(w1, st1, w2, st2, now, j.fact, refs, |refs|);
  }

  /** A refreshed set holds the value the semantics gives its tokens. */
  lemma RefreshedIsValue(w: World, derived: map<FactId, Status>, now: int, j: SetId, js: JSet)
    requires j.fact in w.facts && SetShape(w.facts[j.fact], j, js)
    ensures Refreshed(w, derived, now, j, js).confidence ==
            SetValue(w, Readings(w, derived, now), now, j.fact, SetRefs(w.facts[j.fact], j.index))
  {
    var refs, st := js.deps.Refs(), Readings(w, derived, now);
    RefsMembers(js.deps);
    CountIsAll(w, st, now, j.fact, refs, |refs|);
    assert AllHold(w, st, now, j.fact, refs) <==> Count(w, st, now, j.fact, refs, |refs|) == |refs| by {
      if AllHold(w, st, now, j.fact, refs) {
        forall i | 0 <= i < |refs| ensures Holds(w, st, now, j.fact, refs[i]) { assert refs[i] in refs; }
      }
    }
    SetValueSame(w, st, now, w, st, now, j.fact, refs, SetRefs(w.facts[j.fact], j.index));
  }

  // ---- The cache against the semantics ---------------------------------------------------------

  ghost predicate Coherent(w: World, derived: map<FactId, Status>, sets: Sets, stamp: map<SetId, int>) {
    Settled(w, derived, sets, stamp, {})
  }

  /** Main result on the cache: with nothing open, every stored status and confidence is the from-scratch
      evaluation in which each set reads the clock at its last refresh. */
  lemma {:induction false} CacheIsEval(w: World, derived: map<FactId, Status>, sets: Sets, children: Children,
                                       stamp: map<SetId, int>, f: FactId)
    requires Ranked(w) && Shape(w, sets, children) && Coherent(w, derived, sets, stamp) && f in w.facts
    ensures derived[f] == Eval(w, stamp, f)
    ensures !w.facts[f].isRoot ==> CachedConfidences(w, sets, f) == Confidences(w, stamp, f)
    decreases w.rank[f], 1
  {
    if !w.facts[f].isRoot {
      var c1, c2 := CachedConfidences(w, sets, f), Confidences(w, stamp, f);
      forall i: nat | i < |c1| ensures c1[i] == c2[i] {
        CachedSetIsEval(w, derived, sets, children, stamp, SetId(f, i));
      }
      assert c1 == c2;
    }
  }

  lemma {:induction false} CachedSetIsEval(w: World, derived: map<FactId, Status>, sets: Sets, children: Children,
                                           stamp: map<SetId, int>, j: SetId)
    requires Ranked(w) && Shape(w, sets, children) && Coherent(w, derived, sets, stamp) && IsSetId(w, j)
    ensures j in sets && sets[j].confidence == EvalSet(w, stamp, j)
    decreases w.rank[j.fact], 0
  {
    var f, now := j.fact, ReadAt(stamp, j);
    var refs := SetRefs(w.facts[f], j.index);
    assert j in sets && SetCurrent(w, derived, stamp, j, sets[j]);
    RefreshedIsValue(w, derived, now, j, sets[j]);
    var st1, st2 := Readings(w, derived, now), Below(w, stamp, f, now);
    forall r | r in refs ensures SameRef(w, st1, now, w, st2, now, f, r) {
      CacheIsEval(w, derived, sets, children, stamp, r.id);
      assert st1[r.id] == st2[r.id];
    }
    SetValueSame(w, st1, now, w, st2, now, f, refs, refs);
  }

  // ---- One step of propagation -------------------------------------------------------------------

  /** A popped fact whose status is already right owes nothing more. */
  lemma PopUnchanged(w: World, derived: map<FactId, Status>, sets: Sets, stamp: map<SetId, int>, x: FactId,
                     open: set<FactId>, open': set<FactId>)
    requires Settled(w, derived, sets, stamp, open) && open <= open' + {x}
    requires x in w.facts ==> derived[x] == Resolved(w, sets, x)
    ensures Settled(w, derived, sets, stamp, open')
  {
    forall j | j in sets && Blames(w, derived, sets[j], open) ensures Blames(w, derived, sets[j], open') {
      var p :| p in open && sets[j].Mentions(p) && Stale(w, derived, p);
      assert p != x;
      assert p in open';
    }
  }

  /** The sets after the children of x were recomputed at time now. */
  ghost predicate RefreshedChildren(w: World, derived: map<FactId, Status>, now: int, kids: set<SetId>,
                                    sets: Sets, stamp: map<SetId, int>, sets': Sets, stamp': map<SetId, int>)
  {
    sets'.Keys == sets.Keys && kids <= sets.Keys &&
    (forall j | j in sets :: sets'[j] == if j in kids then Refreshed(w, derived, now, j, sets[j]) else sets[j]) &&
    (forall j | j in sets :: ReadAt(stamp', j) == if j in kids then now else ReadAt(stamp, j))
  }

  lemma RefreshTwice(w: World, derived: map<FactId, Status>, now: int, j: SetId, js: JSet)
    ensures Refreshed(w, derived, now, j, Refreshed(w, derived, now, j, js)) == Refreshed(w, derived, now, j, js)
  {}

  /** x was popped with a new status and the sets it supports were recomputed; `open'` holds the facts they moved. */
  ghost predicate Passed(w: World, derived: map<FactId, Status>, sets: Sets, children: Children, stamp: map<SetId, int>,
                         now: int, x: FactId, sets': Sets, stamp': map<SetId, int>,
                         open: set<FactId>, open': set<FactId>)
  {
    x in w.facts && Settled(w, derived, sets, stamp, open) && open <= open' + {x} &&
    RefreshedChildren(w, derived[x := Resolved(w, sets, x)], now, Kids(children, x), sets, stamp, sets', stamp') &&
    forall j | j in Kids(children, x) && sets'[j].confidence != sets[j].confidence :: j.fact in open'
  }

  /** A popped fact whose status changed passes its debt to the children whose confidence changed. */
  lemma PopChanged(w: World, derived: map<FactId, Status>, sets: Sets, children: Children, stamp: map<SetId, int>,
                   now: int, x: FactId, sets': Sets, stamp': map<SetId, int>, open: set<FactId>, open': set<FactId>)
    requires Ranked(w) && Shape(w, sets, children) && x in w.facts
    requires Settled(w, derived, sets, stamp, open) && open <= open' + {x}
    requires var derived' := derived[x := Resolved(w, sets, x)];
             RefreshedChildren(w, derived', now, Kids(children, x), sets, stamp, sets', stamp')
    requires forall j | j in Kids(children, x) && sets'[j].confidence != sets[j].confidence :: j.fact in open'
    ensures Settled(w, derived[x := Resolved(w, sets, x)], sets', stamp', open')
  {
    assert derived.Keys == w.facts.Keys;
    hide Ranked, Shape, RefreshedChildren, Resolved, SetCurrent, Blames, Kids;
    assert Passed(w, derived, sets, children, stamp, now, x, sets', stamp', open, open');
    hide Settled, Passed;
    PoppedStatuses(w, derived, sets, children, stamp, now, x, sets', stamp', open, open');
    PoppedSets(w, derived, sets, children, stamp, now, x, sets', stamp', open, open');
    SettledByParts(w, derived[x := Resolved(w, sets, x)], sets', stamp', open');
  }

  lemma SettledByParts(w: World, derived: map<FactId, Status>, sets: Sets, stamp: map<SetId, int>, open: set<FactId>)
    requires derived.Keys == w.facts.Keys && forall f | f in w.facts :: f in open || derived[f] == Resolved(w, sets, f)
    requires forall j | j in sets :: SetCurrent(w, derived, stamp, j, sets[j]) || Blames(w, derived, sets[j], open)
    ensures Settled(w, derived, sets, stamp, open)
  {}

  lemma PoppedStatuses(w: World, derived: map<FactId, Status>, sets: Sets, children: Children, stamp: map<SetId, int>,
                       now: int, x: FactId, sets': Sets, stamp': map<SetId, int>, open: set<FactId>, open': set<FactId>)
    requires Ranked(w) && Shape(w, sets, children)
    requires Passed(w, derived, sets, children, stamp, now, x, sets', stamp', open, open')
    ensures var derived' := derived[x := Resolved(w, sets, x)];
      derived'.Keys == w.facts.Keys && forall f | f in w.facts :: f in open' || derived'[f] == Resolved(w, sets', f)
  {
    hide Ranked, Shape, Refreshed, SetCurrent, Blames, Resolved;
    var kids := Kids(children, x);
    forall f | f in w.facts ensures f in open' || derived[x := Resolved(w, sets, x)][f] == Resolved(w, sets', f) {
      if f !in open' {
        ConfidencesKept(w, sets, sets', f, kids);
        assert f != x ==> f !in open;
      }
      if f == x {
        NoOwnChild(w, sets, children, x);
        ConfidencesKept(w, sets, sets', x, kids);
      }
    }
  }

  lemma PoppedSets(w: World, derived: map<FactId, Status>, sets: Sets, children: Children, stamp: map<SetId, int>,
                   now: int, x: FactId, sets': Sets, stamp': map<SetId, int>, open: set<FactId>, open': set<FactId>)
    requires Ranked(w) && Shape(w, sets, children)
    requires Passed(w, derived, sets, children, stamp, now, x, sets', stamp', open, open')
    ensures var derived' := derived[x := Resolved(w, sets, x)];
      forall j | j in sets' :: SetCurrent(w, derived', stamp', j, sets'[j]) || Blames(w, derived', sets'[j], open')
  {
    hide Ranked, Shape, Refreshed, Resolved;
    var derived' := derived[x := Resolved(w, sets, x)];
    forall j | j in sets' ensures SetCurrent(w, derived', stamp', j, sets'[j]) || Blames(w, derived', sets'[j], open') {
      if j in Kids(children, x) {
        RefreshTwice(w, derived', now, j, sets[j]);
      } else if SetCurrent(w, derived, stamp, j, sets[j]) {
        OtherSetKept(w, derived, derived', sets, children, ReadAt(stamp, j), x, j);
      } else {
        var p :| p in open && sets[j].Mentions(p) && Stale(w, derived, p);
        assert p != x by { hide Stale; MentionsKid(w, sets, children, x, j); }
        assert p in open' && Stale(w, derived', p);
      }
    }
  }

  lemma MentionsKid(w: World, sets: Sets, children: Children, x: FactId, j: SetId)
    requires Shape(w, sets, children) && j in sets && j !in Kids(children, x)
    ensures !sets[j].Mentions(x)
  {}

  lemma ConfidencesKept(w: World, sets: Sets, sets': Sets, f: FactId, kids: set<SetId>)
    requires f in w.facts && sets'.Keys == sets.Keys
    requires forall j | j in sets && j !in kids :: sets'[j] == sets[j]
    requires forall j | j in kids && j.fact == f && j in sets :: sets'[j].confidence == sets[j].confidence
    ensures Resolved(w, sets', f) == Resolved(w, sets, f)
  {
    assert CachedConfidences(w, sets', f) == CachedConfidences(w, sets, f);
  }

  lemma ParentRank(w: World, sets: Sets, children: Children, p: FactId, j: SetId)
    requires Ranked(w) && Shape(w, sets, children) && j in sets && sets[j].Mentions(p)
    ensures p in w.facts && j.fact in w.facts && w.rank[p] < w.rank[j.fact]
  {
    RefMembers(sets[j]);
    var r :| r in sets[j].deps.Refs() && r.id == p;
    assert r in SetRefs(w.facts[j.fact], j.index);
  }

  lemma ParentsKnown(w: World, sets: Sets, children: Children, j: SetId)
    requires Ranked(w) && Shape(w, sets, children) && j in sets
    ensures j.fact in w.facts
    ensures forall p | sets[j].Mentions(p) :: p in w.facts
  {
    forall p | sets[j].Mentions(p) ensures p in w.facts {
      ParentRank(w, sets, children, p, j);
    }
  }

  lemma NoOwnChild(w: World, sets: Sets, children: Children, x: FactId)
    requires Ranked(w) && Shape(w, sets, children)
    ensures forall j | j in Kids(children, x) :: j.fact != x
  {
    forall j | j in Kids(children, x) ensures j.fact != x {
      ParentRank(w, sets, children, x, j);
    }
  }

  lemma OtherSetKept(w: World, derived: map<FactId, Status>, derived': map<FactId, Status>, sets: Sets,
                     children: Children, at: int, x: FactId, j: SetId)
    requires Ranked(w) && Shape(w, sets, children) && j in sets && j !in Kids(children, x)
    requires derived.Keys == derived'.Keys == w.facts.Keys
    requires forall f | f in derived && f != x :: derived'[f] == derived[f]
    ensures Refreshed(w, derived, at, j, sets[j]) == Refreshed(w, derived', at, j, sets[j])
  {
    ParentsKnown(w, sets, children, j);
    assert !sets[j].Mentions(x);
    forall p | sets[j].Mentions(p) ensures SameParent(w, derived, w, derived', p, at) {}
    RefreshedSame(w, derived, w, derived', at, j, sets[j]);
  }

  /** Refreshing some sets keeps their shape. */
  lemma ShapeKept(w: World, sets: Sets, sets': Sets, children: Children)
    requires Shape(w, sets, children) && sets'.Keys == sets.Keys
    requires forall j | j in sets :: sets'[j].(current := sets[j].current, confidence := sets[j].confidence) == sets[j]
    ensures Shape(w, sets', children)
  {
    forall j | j in sets' ensures SetShape(w.facts[j.fact], j, sets'[j]) {
      assert SetShape(w.facts[j.fact], j, sets[j]);
    }
    forall p, j | j in Kids(children, p) ensures j in sets' && sets'[j].Mentions(p) {
      assert sets[j].Mentions(p);
    }
    forall p, j | j in sets' && sets'[j].Mentions(p) ensures j in Kids(children, p) {
      assert sets[j].Mentions(p);
    }
  }

  // ---- What each mutation opens ------------------------------------------------------------------

  ghost predicate SameExceptAt(w: World, w': World, x: FactId) {
    x in w.facts && w'.rank == w.rank && w'.facts.Keys == w.facts.Keys &&
    (forall f | f in w.facts && f != x :: w'.facts[f] == w.facts[f] && (f in w'.retracted <==> f in w.retracted))
  }

  /** The records agree on all but the manual status and what no status depends on. */
  ghost predicate SameButManual(a: Fact, b: Fact) {
    SameLogic(a, b.(manual := a.manual))
  }

  lemma SettledMutation(w: World, w': World, derived: map<FactId, Status>, sets: Sets, children: Children,
                        stamp: map<SetId, int>, open: set<FactId>, x: FactId)
    requires Ranked(w) && Shape(w, sets, children) && Settled(w, derived, sets, stamp, open) && x !in open
    requires SameExceptAt(w, w', x) && SameButManual(w.facts[x], w'.facts[x])
    ensures Ranked(w') && Shape(w', sets, children)
    ensures Settled(w', derived, sets, stamp, open + {x})
    ensures !Stale(w', derived, x) && derived[x] == Resolved(w', sets, x) ==> Settled(w', derived, sets, stamp, open)
  {
    MutationKeepsShape(w, w', sets, children, x);
    forall f | f in w.facts && f != x ensures Resolved(w', sets, f) == Resolved(w, sets, f) {
      assert CachedConfidences(w', sets, f) == CachedConfidences(w, sets, f);
    }
    var open' := if Stale(w', derived, x) then open + {x} else open;
    forall j | j in sets ensures SetCurrent(w', derived, stamp, j, sets[j]) || Blames(w', derived, sets[j], open') {
      MutationKeepsSet(w, w', derived, sets, children, stamp, open, x, j);
    }
  }

  lemma MutationKeepsShape(w: World, w': World, sets: Sets, children: Children, x: FactId)
    requires Ranked(w) && Shape(w, sets, children)
    requires SameExceptAt(w, w', x) && SameButManual(w.facts[x], w'.facts[x])
    ensures Ranked(w') && Shape(w', sets, children)
  {
    assert forall f | f in w.facts ::
      w'.facts[f].tokens == w.facts[f].tokens && w'.facts[f].isRoot == w.facts[f].isRoot;
    SameTokensKeepShape(w, w', sets, children);
  }

  lemma SameTokensKeepShape(w: World, w': World, sets: Sets, children: Children)
    requires Ranked(w) && Shape(w, sets, children)
    requires w'.facts.Keys == w.facts.Keys && w'.rank == w.rank
    requires forall f | f in w.facts ::
      w'.facts[f].tokens == w.facts[f].tokens && w'.facts[f].isRoot == w.facts[f].isRoot
    ensures Ranked(w') && Shape(w', sets, children)
  {
    forall f | f in w'.facts ensures TokensParse(w'.facts[f]) {
      assert TokensParse(w.facts[f]);
    }
    forall f, i, r | f in w'.facts && r in SetRefs(w'.facts[f], i)
      ensures r.id in w'.facts && w'.rank[r.id] < w'.rank[f]
    {
      assert r in SetRefs(w.facts[f], i);
    }
    forall j ensures j in sets <==> IsSetId(w', j) {
      assert j in sets <==> IsSetId(w, j);
    }
    forall j | j in sets ensures SetShape(w'.facts[j.fact], j, sets[j]) {
      assert SetShape(w.facts[j.fact], j, sets[j]);
      assert SetRefs(w'.facts[j.fact], j.index) == SetRefs(w.facts[j.fact], j.index);
    }
  }

  /** A change at x leaves a set alone when x reads the same at the time the set was refreshed. */
  lemma RefreshedMutation(w: World, w': World, derived: map<FactId, Status>, at: int, x: FactId, j: SetId, js: JSet)
    requires derived.Keys == w.facts.Keys && SameExceptAt(w, w', x) && j.fact in w.facts
    requires SameButManual(w.facts[x], w'.facts[x])
    requires forall p | js.Mentions(p) :: p in w.facts
    requires js.Mentions(x) ==> Read(w, x, derived[x], at) == Read(w', x, derived[x], at)
    ensures Refreshed(w, derived, at, j, js) == Refreshed(w', derived, at, j, js)
  {
    RefreshedSame(w, derived, w', derived, at, j, js);
  }

  lemma MutationKeepsSet(w: World, w': World, derived: map<FactId, Status>, sets: Sets, children: Children,
                         stamp: map<SetId, int>, open: set<FactId>, x: FactId, j: SetId)
    requires Ranked(w) && Shape(w, sets, children) && Settled(w, derived, sets, stamp, open) && x !in open
    requires SameExceptAt(w, w', x) && SameButManual(w.facts[x], w'.facts[x]) && j in sets
    ensures SetCurrent(w', derived, stamp, j, sets[j]) ||
            Blames(w', derived, sets[j], if Stale(w', derived, x) then open + {x} else open)
  {
    var open' := if Stale(w', derived, x) then open + {x} else open;
    assert derived[x] == Resolved(w, sets, x);
    if sets[j].Mentions(x) && Stale(w', derived, x) {
      assert x in open';
    } else if SetCurrent(w, derived, stamp, j, sets[j]) {
      ParentsKnown(w, sets, children, j);
      RefreshedMutation(w, w', derived, ReadAt(stamp, j), x, j, sets[j]);
    } else {
      BlameKept(w, w', derived, sets[j], open, open', x);
    }
  }

  lemma BlameKept(w: World, w': World, derived: map<FactId, Status>, js: JSet,
                  open: set<FactId>, open': set<FactId>, x: FactId)
    requires SameExceptAt(w, w', x) && x !in open && open <= open' && Blames(w, derived, js, open)
    ensures Blames(w', derived, js, open')
  {
    var p :| p in open && js.Mentions(p) && Stale(w, derived, p);
    assert p in open' && Stale(w', derived, p);
  }

  /** The records agree on all but the verification and what no status depends on. */
  ghost predicate SameButVerification(a: Fact, b: Fact) {
    SameLogic(a, b.(verification := a.verification))
  }

  /** A new verification status of x is passed on by refreshing the sets x supports. */
  lemma SettledVerification(w: World, w': World, derived: map<FactId, Status>, sets: Sets, children: Children,
                            stamp: map<SetId, int>, x: FactId, now: int, sets': Sets, stamp': map<SetId, int>,
                            open': set<FactId>)
    requires Ranked(w) && Shape(w, sets, children) && Settled(w, derived, sets, stamp, {})
    requires SameExceptAt(w, w', x) && w'.retracted == w.retracted && SameButVerification(w.facts[x], w'.facts[x])
    requires RefreshedChildren(w', derived, now, Kids(children, x), sets, stamp, sets', stamp')
    requires forall j | j in Kids(children, x) && sets'[j].confidence != sets[j].confidence :: j.fact in open'
    ensures Settled(w', derived, sets', stamp', open')
  {
    var kids := Kids(children, x);
    forall f | f in w.facts && f !in open' ensures derived[f] == Resolved(w', sets', f) {
      hide Shape, Ranked, Refreshed, SetCurrent;
      ConfidencesKept(w, sets, sets', f, kids);
      VerificationKeepsStatus(w, w', sets', x, f);
    }
    forall j | j in sets' ensures SetCurrent(w', derived, stamp', j, sets'[j]) {
      if j in kids {
        hide Shape, Settled, Ranked;
        RefreshTwice(w', derived, now, j, sets[j]);
      } else {
        VerificationKeepsSet(w, w', derived, sets, children, stamp, x, j);
        hide Shape, Settled, Ranked, Refreshed;
      }
    }
    hide Shape, Ranked, RefreshedChildren, SetCurrent, Resolved;
  }

  lemma VerificationKeepsStatus(w: World, w': World, sets: Sets, x: FactId, f: FactId)
    requires SameExceptAt(w, w', x) && w'.retracted == w.retracted && SameButVerification(w.facts[x], w'.facts[x])
    requires f in w.facts
    ensures Resolved(w', sets, f) == Resolved(w, sets, f)
  {
    assert CachedConfidences(w', sets, f) == CachedConfidences(w, sets, f);
  }

  lemma RefreshedElsewhere(w: World, w': World, derived: map<FactId, Status>, at: int, x: FactId, j: SetId, js: JSet)
    requires derived.Keys == w.facts.Keys && SameExceptAt(w, w', x) && SameChild(w, w', j.fact)
    requires forall p | js.Mentions(p) :: p in w.facts && p != x
    ensures Refreshed(w, derived, at, j, js) == Refreshed(w', derived, at, j, js)
  {
    RefreshedSame(w, derived, w', derived, at, j, js);
  }

  lemma VerificationKeepsSet(w: World, w': World, derived: map<FactId, Status>, sets: Sets, children: Children,
                             stamp: map<SetId, int>, x: FactId, j: SetId)
    requires Ranked(w) && Shape(w, sets, children) && Settled(w, derived, sets, stamp, {})
    requires SameExceptAt(w, w', x) && w'.retracted == w.retracted && SameButVerification(w.facts[x], w'.facts[x])
    requires j in sets && j !in Kids(children, x)
    ensures SetCurrent(w', derived, stamp, j, sets[j])
  {
    ParentsKnown(w, sets, children, j);
    assert SetCurrent(w, derived, stamp, j, sets[j]) && !sets[j].Mentions(x);
    RefreshedElsewhere(w, w', derived, ReadAt(stamp, j), x, j, sets[j]);
  }

  /** The record of f is replaced by one with the same logic: nothing has to be recomputed. */
  lemma SettledSameLogic(w: World, w': World, derived: map<FactId, Status>, sets: Sets, children: Children,
                         stamp: map<SetId, int>, x: FactId)
    requires Ranked(w) && Shape(w, sets, children) && Settled(w, derived, sets, stamp, {})
    requires SameExceptAt(w, w', x) && w'.retracted == w.retracted && SameLogic(w.facts[x], w'.facts[x])
    ensures Ranked(w') && Shape(w', sets, children) && Settled(w', derived, sets, stamp, {})
  {
    SettledMutation(w, w', derived, sets, children, stamp, {}, x);
    assert CachedConfidences(w', sets, x) == CachedConfidences(w, sets, x);
  }

  /** w' is w with the new fact x. */
  ghost predicate Extends(w: World, w': World, x: FactId) {
    x !in w.facts && w'.facts.Keys == w.facts.Keys + {x} && w'.retracted == w.retracted && x !in w.retracted &&
    w'.rank.Keys == w.rank.Keys + {x} &&
    (forall f | f in w.facts :: w'.facts[f] == w.facts[f]) && (forall f | f in w.rank :: w'.rank[f] == w.rank[f])
  }

  /** A new fact, with its sets freshly computed, disturbs nothing that was settled. */
  lemma SettledExtension(w: World, w': World, derived: map<FactId, Status>, derived': map<FactId, Status>, sets: Sets,
                         sets': Sets, children: Children, stamp: map<SetId, int>, stamp': map<SetId, int>, x: FactId)
    requires Ranked(w) && Shape(w, sets, children) && Settled(w, derived, sets, stamp, {})
    requires Extends(w, w', x) && derived'.Keys == derived.Keys + {x}
    requires (forall f | f in derived :: derived'[f] == derived[f])
    requires forall j | j in sets :: j in sets' && sets'[j] == sets[j] && ReadAt(stamp', j) == ReadAt(stamp, j)
    requires forall j | j in sets' && j !in sets :: j.fact == x && SetCurrent(w', derived', stamp', j, sets'[j])
    ensures Settled(w', derived', sets', stamp', {x})
    ensures derived'[x] == Resolved(w', sets', x) ==> Settled(w', derived', sets', stamp', {})
  {
    forall f | f in w.facts ensures derived'[f] == Resolved(w', sets', f) {
      ExtensionKeepsFact(w, w', derived, sets, sets', children, stamp, x, f);
    }
    forall j | j in sets' ensures SetCurrent(w', derived', stamp', j, sets'[j]) {
      if j in sets {
        ParentsKnown(w, sets, children, j);
        assert SetCurrent(w, derived, stamp, j, sets[j]);
        RefreshedExtension(w, w', derived, derived', ReadAt(stamp, j), x, j, sets[j]);
      }
    }
  }

  lemma ExtensionKeepsFact(w: World, w': World, derived: map<FactId, Status>, sets: Sets, sets': Sets,
                           children: Children, stamp: map<SetId, int>, x: FactId, f: FactId)
    requires Ranked(w) && Shape(w, sets, children) && Settled(w, derived, sets, stamp, {})
    requires Extends(w, w', x) && f in w.facts
    requires forall j | j in sets :: j in sets' && sets'[j] == sets[j]
    ensures derived[f] == Resolved(w', sets', f)
  {
    assert derived[f] == Resolved(w, sets, f);
    if !w.facts[f].isRoot {
      ExtensionKeepsConfidences(w, w', sets, sets', children, x, f);
    }
  }

  lemma RefreshedExtension(w: World, w': World, derived: map<FactId, Status>, derived': map<FactId, Status>, at: int,
                           x: FactId, j: SetId, js: JSet)
    requires Extends(w, w', x) && derived.Keys == w.facts.Keys && j.fact in w.facts
    requires derived'.Keys == derived.Keys + {x} && (forall f | f in derived :: derived'[f] == derived[f])
    requires forall p | js.Mentions(p) :: p in w.facts
    ensures Refreshed(w, derived, at, j, js) == Refreshed(w', derived', at, j, js)
  {
    RefreshedSame(w, derived, w', derived', at, j, js);
  }

  lemma ExtensionKeepsConfidences(w: World, w': World, sets: Sets, sets': Sets, children: Children, x: FactId,
                                  f: FactId)
    requires Ranked(w) && Shape(w, sets, children) && Extends(w, w', x) && f in w.facts && !w.facts[f].isRoot
    requires forall j | j in sets :: j in sets' && sets'[j] == sets[j]
    ensures CachedConfidences(w', sets', f) == CachedConfidences(w, sets, f)
  {
    var a, b := CachedConfidences(w, sets, f), CachedConfidences(w', sets', f);
    forall i: nat | i < |a| ensures a[i] == b[i] {
      assert IsSetId(w, SetId(f, i));
    }
  }

  /** The sets and index while the first n justification sets of the new fact x have been entered. */
  ghost predicate PartialShape(w: World, w': World, x: FactId, n: nat, sets: Sets, children: Children) {
    x in w'.facts &&
    (forall j :: j in sets <==> IsSetId(w, j) || (j.fact == x && j.index < n)) &&
    (forall j | j in sets && j.fact in w'.facts :: SetShape(w'.facts[j.fact], j, sets[j])) &&
    (forall p, j | j in Kids(children, p) :: j in sets && sets[j].Mentions(p)) &&
    (forall p, j | j in sets && sets[j].Mentions(p) :: j in Kids(children, p))
  }

  lemma PartialShapeStarts(w: World, w': World, x: FactId, sets: Sets, children: Children)
    requires Shape(w, sets, children) && Extends(w, w', x)
    ensures PartialShape(w, w', x, 0, sets, children)
  {
    forall j | j in sets && j.fact in w'.facts ensures SetShape(w'.facts[j.fact], j, sets[j]) {
      assert IsSetId(w, j) && SetShape(w.facts[j.fact], j, sets[j]);
    }
  }

  lemma PartialShapeDone(w: World, w': World, x: FactId, n: nat, sets: Sets, children: Children)
    requires Extends(w, w', x) && PartialShape(w, w', x, n, sets, children)
    requires n == if w'.facts[x].isRoot then 0 else |w'.facts[x].tokens|
    ensures Shape(w', sets, children)
  {
    forall j ensures j in sets <==> IsSetId(w', j) {
      assert j in sets <==> IsSetId(w, j) || (j.fact == x && j.index < n);
    }
  }

  /** The index after set j was entered under each of its parents. */
  ghost predicate Indexed(children: Children, children': Children, j: SetId, js: JSet) {
    forall p :: Kids(children', p) == if js.Mentions(p) then Kids(children, p) + {j} else Kids(children, p)
  }

  lemma PartialShapeGrows(w: World, w': World, x: FactId, n: nat, sets: Sets, children: Children, js: JSet,
                          children': Children)
    requires PartialShape(w, w', x, n, sets, children) && x !in w.facts
    requires SetShape(w'.facts[x], SetId(x, n), js) && Indexed(children, children', SetId(x, n), js)
    ensures PartialShape(w, w', x, n + 1, sets[SetId(x, n) := js], children')
  {
    var j0 := SetId(x, n);
    var sets' := sets[j0 := js];
    assert j0 !in sets;
    forall p, j | j in Kids(children', p) ensures j in sets' && sets'[j].Mentions(p) {
      if j != j0 { assert j in Kids(children, p); }
    }
    forall p, j | j in sets' && sets'[j].Mentions(p) ensures j in Kids(children', p) {
      if j != j0 { assert j in sets && sets[j].Mentions(p); }
    }
  }
}
