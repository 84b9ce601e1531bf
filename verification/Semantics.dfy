/** What every fact's status ought to be: a recursive evaluation of the OR-of-AND graph,
    with no cache, no queue and no index. */
module Semantics {
  import opened Facts

  /** A justification set is named by its fact and its position there. */
  datatype SetId = SetId(fact: FactId, index: nat)

  /** The facts, the retractions, and a ranking in which every parent comes before its child. */
  datatype World = World(facts: map<FactId, Fact>, retracted: map<FactId, string>, rank: map<FactId, nat>)

  ghost function SetRefs(fact: Fact, i: int): seq<DepRef> {
    if 0 <= i < |fact.tokens| && AllParse(fact.tokens[i]) then Parsed(fact.tokens[i]) else []
  }

  ghost predicate TokensParse(fact: Fact) {
    forall i | 0 <= i < |fact.tokens| :: AllParse(fact.tokens[i])
  }

  ghost predicate Ranked(w: World) {
    w.rank.Keys == w.facts.Keys &&
    (forall f | f in w.facts :: TokensParse(w.facts[f])) &&
    (forall f, i, r | f in w.facts && r in SetRefs(w.facts[f], i) :: r.id in w.facts && w.rank[r.id] < w.rank[f])
  }

  ghost predicate Expired(fact: Fact, now: int) {
    fact.validUntil > 0 && now > fact.validUntil
  }

  /** The status others see when fact f, whose computed status is `own`, is read at time now. */
  ghost function Read(w: World, f: FactId, own: Status, now: int): Status
    requires f in w.facts
  {
    if f in w.retracted || Expired(w.facts[f], now) then INVALID
    else if w.facts[f].isRoot then w.facts[f].manual
    else own
  }

  /** All readings at one time. */
  ghost function Readings(w: World, derived: map<FactId, Status>, now: int): map<FactId, Status> {
    map p | p in w.facts && p in derived :: Read(w, p, derived[p], now)
  }

  // ---- One justification set -------------------------------------------------------------

  ghost predicate Holds(w: World, st: map<FactId, Status>, now: int, child: FactId, r: DepRef) {
    r.id in w.facts && r.id in st && child in w.facts &&
    Satisfied(w.facts[r.id], st[r.id], r.negated, w.facts[child], now)
  }

  ghost function Contribution(w: World, st: map<FactId, Status>, r: DepRef): Status {
    if r.id in w.facts && r.id in st then DependencyConfidence(st[r.id], r.negated) else VALID
  }

  /** How many of the first n dependencies hold. */
  ghost function Count(w: World, st: map<FactId, Status>, now: int, child: FactId, refs: seq<DepRef>, n: nat): nat
    requires n <= |refs|
  {
    if n == 0 then 0
    else Count(w, st, now, child, refs, n - 1) + (if Holds(w, st, now, child, refs[n - 1]) then 1 else 0)
  }

  /** The least contribution of the first n dependencies, and at most VALID. */
  ghost function Floor(w: World, st: map<FactId, Status>, refs: seq<DepRef>, n: nat): Status
    requires n <= |refs|
  {
    if n == 0 then VALID
    else
      var rest := Floor(w, st, refs, n - 1);
      if Contribution(w, st, refs[n - 1]) < rest then Contribution(w, st, refs[n - 1]) else rest
  }

  lemma NothingCounted(w: World, st: map<FactId, Status>, now: int, child: FactId, refs: seq<DepRef>)
    ensures Count(w, st, now, child, refs, 0) == 0 && Floor(w, st, refs, 0) == VALID
  {}

  ghost predicate AllHold(w: World, st: map<FactId, Status>, now: int, child: FactId, refs: seq<DepRef>) {
    forall r | r in refs :: Holds(w, st, now, child, r)
  }

  /** The confidence of a conjunction: its weakest contribution when every dependency holds. */
  ghost function SetValue(w: World, st: map<FactId, Status>, now: int, child: FactId, refs: seq<DepRef>): Status {
    if AllHold(w, st, now, child, refs) then Floor(w, st, refs, |refs|) else INVALID
  }

  lemma {:induction false} CountIsAll(w: World, st: map<FactId, Status>, now: int, child: FactId,
                                      refs: seq<DepRef>, n: nat)
    requires n <= |refs|
    ensures Count(w, st, now, child, refs, n) <= n
    ensures Count(w, st, now, child, refs, n) == n <==> forall i | 0 <= i < n :: Holds(w, st, now, child, refs[i])
  {
    if n > 0 {
      CountIsAll(w, st, now, child, refs, n - 1);
    }
  }

  lemma {:induction false} FloorIsLeast(w: World, st: map<FactId, Status>, refs: seq<DepRef>, n: nat)
    requires n <= |refs|
    ensures Floor(w, st, refs, n) <= VALID
    ensures forall i | 0 <= i < n :: Floor(w, st, refs, n) <= Contribution(w, st, refs[i])
    ensures Floor(w, st, refs, n) == VALID || exists i ::
      0 <= i < n && Floor(w, st, refs, n) == Contribution(w, st, refs[i])
  {
    if n > 0 {
      FloorIsLeast(w, st, refs, n - 1);
    }
  }

  /** Two readings agree on a dependency. */
  ghost predicate SameRef(w1: World, st1: map<FactId, Status>, now1: int, w2: World, st2: map<FactId, Status>,
                          now2: int, child: FactId, r: DepRef)
  {
    (Holds(w1, st1, now1, child, r) <==> Holds(w2, st2, now2, child, r)) &&
    Contribution(w1, st1, r) == Contribution(w2, st2, r)
  }

  /** The value of a set depends only on which dependencies it has and how each of them reads. */
  lemma SetValueSame(w1: World, st1: map<FactId, Status>, now1: int, w2: World, st2: map<FactId, Status>, now2: int,
                     child: FactId, refs1: seq<DepRef>, refs2: seq<DepRef>)
    requires forall r :: r in refs1 <==> r in refs2
    requires forall r | r in refs1 :: SameRef(w1, st1, now1, w2, st2, now2, child, r)
    ensures SetValue(w1, st1, now1, child, refs1) == SetValue(w2, st2, now2, child, refs2)
  {
    assert AllHold(w1, st1, now1, child, refs1) <==> AllHold(w2, st2, now2, child, refs2);
    FloorIsLeast(w1, st1, refs1, |refs1|);
    FloorIsLeast(w2, st2, refs2, |refs2|);
    var a, b := Floor(w1, st1, refs1, |refs1|), Floor(w2, st2, refs2, |refs2|);
    assert a <= b by {
      if b < VALID {
        var i :| 0 <= i < |refs2| && b == Contribution(w2, st2, refs2[i]);
        assert refs2[i] in refs2;
        var k :| 0 <= k < |refs1| && refs1[k] == refs2[i];
        assert a <= Contribution(w1, st1, refs1[k]);
      }
    }
    assert b <= a by {
      if a < VALID {
        var i :| 0 <= i < |refs1| && a == Contribution(w1, st1, refs1[i]);
        assert refs1[i] in refs1;
        var k :| 0 <= k < |refs2| && refs2[k] == refs1[i];
        assert b <= Contribution(w2, st2, refs2[k]);
      }
    }
  }

  // ---- One fact --------------------------------------------------------------------------

  /** The largest confidence at or above the threshold, or INVALID. */
  ghost function Best(confs: seq<Status>, n: nat): Status
    requires n <= |confs|
  {
    if n == 0 then INVALID
    else
      var rest := Best(confs, n - 1);
      if confs[n - 1] >= THRESHOLD && confs[n - 1] > rest then confs[n - 1] else rest
  }

  lemma {:induction false} BestIsLargest(confs: seq<Status>, n: nat)
    requires n <= |confs|
    ensures forall i | 0 <= i < n && confs[i] >= THRESHOLD :: Best(confs, n) >= confs[i]
    ensures Best(confs, n) == INVALID || exists i :: 0 <= i < n && confs[i] >= THRESHOLD && Best(confs, n) == confs[i]
    ensures Best(confs, n) >= THRESHOLD <==> exists i :: 0 <= i < n && confs[i] >= THRESHOLD
  {
    if n > 0 {
      BestIsLargest(confs, n - 1);
    }
  }

  /** The status of a fact whose justification sets have the given confidences. */
  ghost function Resolve(w: World, f: FactId, confs: seq<Status>): Status
    requires f in w.facts
  {
    if f in w.retracted then INVALID
    else if w.facts[f].isRoot then w.facts[f].manual
    else Best(confs, |confs|)
  }

  ghost function ReadAt(at: map<SetId, int>, j: SetId): int {
    if j in at then at[j] else 0
  }

  /** From-scratch evaluation, when each justification set reads the clock at its own time. */
  ghost function Eval(w: World, at: map<SetId, int>, f: FactId): Status
    requires Ranked(w) && f in w.facts
    decreases w.rank[f], 3
  {
    Resolve(w, f, Confidences(w, at, f))
  }

  ghost function Confidences(w: World, at: map<SetId, int>, f: FactId): (r: seq<Status>)
    requires Ranked(w) && f in w.facts
    ensures |r| == |w.facts[f].tokens|
    ensures forall i: nat | i < |r| :: r[i] == EvalSet(w, at, SetId(f, i))
    decreases w.rank[f], 2
  {
    seq(|w.facts[f].tokens|, i requires 0 <= i < |w.facts[f].tokens| => EvalSet(w, at, SetId(f, i)))
  }

  ghost function EvalSet(w: World, at: map<SetId, int>, j: SetId): Status
    requires Ranked(w) && j.fact in w.facts
    decreases w.rank[j.fact], 1
  {
    var now := ReadAt(at, j);
    SetValue(w, Below(w, at, j.fact, now), now, j.fact, SetRefs(w.facts[j.fact], j.index))
  }

  ghost function Below(w: World, at: map<SetId, int>, f: FactId, now: int): map<FactId, Status>
    requires Ranked(w) && f in w.facts
    decreases w.rank[f], 0
  {
    map p | p in w.facts && w.rank[p] < w.rank[f] :: Read(w, p, Eval(w, at, p), now)
  }

  lemma BelowReads(w: World, at: map<SetId, int>, f: FactId, p: FactId, now: int)
    requires Ranked(w) && f in w.facts && p in w.facts && w.rank[p] < w.rank[f]
    ensures p in Below(w, at, f, now) && Below(w, at, f, now)[p] == Read(w, p, Eval(w, at, p), now)
  {}

  ghost function Uniform(w: World, now: int): map<SetId, int> {
    map f, i | f in w.facts && 0 <= i < |w.facts[f].tokens| :: SetId(f, i) := now
  }

  /** From-scratch evaluation at one time: the meaning the engine has to maintain. */
  ghost function Truth(w: World, now: int, f: FactId): Status
    requires Ranked(w) && f in w.facts
  {
    Eval(w, Uniform(w, now), f)
  }

  lemma UniformReads(w: World, now: int, f: FactId, i: nat)
    requires f in w.facts && i < |w.facts[f].tokens|
    ensures ReadAt(Uniform(w, now), SetId(f, i)) == now
  {
    assert SetId(f, i) in Uniform(w, now);
  }

  // ---- Which differences between two worlds can be seen -------------------------------------

  /** A dependency that scope rules out whatever its parent's status is. */
  ghost predicate Blocked(w: World, f: FactId, r: DepRef) {
    r.id in w.facts && f in w.facts && !r.negated && !ScopeSatisfied(w.facts[r.id].kind, w.facts[f].kind)
  }

  ghost predicate SameTiming(w: World, f: FactId, p: FactId, now1: int, now2: int) {
    p in w.facts && f in w.facts &&
    (p in w.retracted || (Expired(w.facts[p], now1) <==> Expired(w.facts[p], now2))) &&
    (TooOld(w.facts[p], w.facts[f], now1) <==> TooOld(w.facts[p], w.facts[f], now2))
  }

  /** Dependency r of set j looks the same in both worlds: its parent is among the agreeing facts and
      is read at times that make no difference, or scope rules it out in both. */
  ghost predicate SameDependency(w1: World, at1: map<SetId, int>, w2: World, at2: map<SetId, int>,
                                 same: set<FactId>, j: SetId, r: DepRef)
  {
    (r.id in same && SameTiming(w1, j.fact, r.id, ReadAt(at1, j), ReadAt(at2, j))) ||
    (Blocked(w1, j.fact, r) && Blocked(w2, j.fact, r))
  }

  /** The two records differ at most in what no status depends on: payload, review, entrenchment and the
      verification details other than its status. */
  ghost predicate SameLogic(a: Fact, b: Fact) {
    a.isRoot == b.isRoot && a.manual == b.manual && a.kind == b.kind && a.validUntil == b.validUntil &&
    a.assertedAt == b.assertedAt && a.tokens == b.tokens && a.sourceType == b.sourceType &&
    a.verification.status == b.verification.status && a.grounding == b.grounding
  }

  ghost predicate Agree(w1: World, at1: map<SetId, int>, w2: World, at2: map<SetId, int>, same: set<FactId>) {
    (forall f | f in same ::
       f in w1.facts && f in w2.facts && SameLogic(w1.facts[f], w2.facts[f]) &&
       (f in w1.retracted <==> f in w2.retracted)) &&
    (forall f, i: nat, r | f in same && f in w1.facts && !w1.facts[f].isRoot && r in SetRefs(w1.facts[f], i) ::
       SameDependency(w1, at1, w2, at2, same, SetId(f, i), r))
  }

  lemma {:induction false} AgreeingWorlds(w1: World, at1: map<SetId, int>, w2: World, at2: map<SetId, int>,
                                          same: set<FactId>, f: FactId)
    requires Ranked(w1) && Ranked(w2) && Agree(w1, at1, w2, at2, same) && f in same
    ensures Eval(w1, at1, f) == Eval(w2, at2, f)
    ensures !w1.facts[f].isRoot ==> Confidences(w1, at1, f) == Confidences(w2, at2, f)
    decreases w1.rank[f], 2
  {
    assert SameLogic(w1.facts[f], w2.facts[f]);
    if !w1.facts[f].isRoot {
      var c1, c2 := Confidences(w1, at1, f), Confidences(w2, at2, f);
      forall i: nat | i < |c1| ensures c1[i] == c2[i] {
        AgreeingSets(w1, at1, w2, at2, same, SetId(f, i));
      }
      assert c1 == c2;
    }
  }

  lemma {:induction false} AgreeingSets(w1: World, at1: map<SetId, int>, w2: World, at2: map<SetId, int>,
                                        same: set<FactId>, j: SetId)
    requires Ranked(w1) && Ranked(w2) && Agree(w1, at1, w2, at2, same) && j.fact in same && !w1.facts[j.fact].isRoot
    ensures EvalSet(w1, at1, j) == EvalSet(w2, at2, j)
    decreases w1.rank[j.fact], 1
  {
    var f := j.fact;
    assert SameLogic(w1.facts[f], w2.facts[f]);
    var refs := SetRefs(w1.facts[f], j.index);
    var now1, now2 := ReadAt(at1, j), ReadAt(at2, j);
    var st1, st2 := Below(w1, at1, f, now1), Below(w2, at2, f, now2);
    if r :| r in refs && Blocked(w1, f, r) && Blocked(w2, f, r) {
      assert !Holds(w1, st1, now1, f, r) && !Holds(w2, st2, now2, f, r);
    } else {
      forall r | r in refs ensures SameRef(w1, st1, now1, w2, st2, now2, f, r) {
        AgreeingRef(w1, at1, w2, at2, same, j, r);
      }
      SetValueSame(w1, st1, now1, w2, st2, now2, f, refs, refs);
    }
  }

  lemma {:induction false} AgreeingRef(w1: World, at1: map<SetId, int>, w2: World, at2: map<SetId, int>,
                                       same: set<FactId>, j: SetId, r: DepRef)
    requires Ranked(w1) && Ranked(w2) && Agree(w1, at1, w2, at2, same) && j.fact in same && !w1.facts[j.fact].isRoot
    requires r in SetRefs(w1.facts[j.fact], j.index) && !(Blocked(w1, j.fact, r) && Blocked(w2, j.fact, r))
    ensures var now1, now2 := ReadAt(at1, j), ReadAt(at2, j);
            SameRef(w1, Below(w1, at1, j.fact, now1), now1, w2, Below(w2, at2, j.fact, now2), now2, j.fact, r)
    decreases w1.rank[j.fact], 0
  {
    var now1, now2 := ReadAt(at1, j), ReadAt(at2, j);
    assert SetId(j.fact, j.index) == j;
    assert SameDependency(w1, at1, w2, at2, same, SetId(j.fact, j.index), r);
    AgreeingWorlds(w1, at1, w2, at2, same, r.id);
    assert SameLogic(w1.facts[j.fact], w2.facts[j.fact]);
    assert r in SetRefs(w2.facts[j.fact], j.index);
    BelowReads(w1, at1, j.fact, r.id, now1);
    BelowReads(w2, at2, j.fact, r.id, now2);
    SameReading(w1, Below(w1, at1, j.fact, now1), w2, Below(w2, at2, j.fact, now2), j.fact, r, Eval(w1, at1, r.id),
                now1, now2);
  }

  lemma SameReading(w1: World, st1: map<FactId, Status>, w2: World, st2: map<FactId, Status>, f: FactId, r: DepRef,
                    own: Status, now1: int, now2: int)
    requires f in w1.facts && f in w2.facts && r.id in w1.facts && r.id in w2.facts && r.id in st1 && r.id in st2
    requires SameLogic(w1.facts[f], w2.facts[f]) && SameLogic(w1.facts[r.id], w2.facts[r.id])
    requires r.id in w1.retracted <==> r.id in w2.retracted
    requires SameTiming(w1, f, r.id, now1, now2)
    requires st1[r.id] == Read(w1, r.id, own, now1) && st2[r.id] == Read(w2, r.id, own, now2)
    ensures SameRef(w1, st1, now1, w2, st2, now2, f, r)
  {}

  // ---- Time ---------------------------------------------------------------------------------------

  /** At time now no live fact has expired, and no fact limits the age of its parents. */
  ghost predicate Quiet(w: World, now: int) {
    (forall f | f in w.facts :: f in w.retracted || !Expired(w.facts[f], now)) &&
    (forall f | f in w.facts :: w.facts[f].grounding.maxAgeSeconds <= 0)
  }

  ghost predicate ReadBy(w: World, at: map<SetId, int>, now: int) {
    forall f, i: nat | f in w.facts && !w.facts[f].isRoot && i < |w.facts[f].tokens| :: ReadAt(at, SetId(f, i)) <= now
  }

  /** In quiet, when each set was last read does not matter. */
  lemma QuietIsTimeless(w: World, at: map<SetId, int>, now: int, f: FactId)
    requires Ranked(w) && Quiet(w, now) && ReadBy(w, at, now) && f in w.facts
    ensures Eval(w, at, f) == Truth(w, now, f)
    ensures !w.facts[f].isRoot ==> Confidences(w, at, f) == Confidences(w, Uniform(w, now), f)
  {
    var uniform := Uniform(w, now);
    forall g, i: nat, r | g in w.facts && !w.facts[g].isRoot && r in SetRefs(w.facts[g], i)
      ensures SameDependency(w, at, w, uniform, w.facts.Keys, SetId(g, i), r)
    {
      UniformReads(w, now, g, i);
      assert SameTiming(w, g, r.id, ReadAt(at, SetId(g, i)), now);
    }
    AgreeingWorlds(w, at, w, uniform, w.facts.Keys, f);
  }

  // ---- Negation-free worlds -------------------------------------------------------------------------

  ghost predicate NegationFree(w: World) {
    forall f, i, r | f in w.facts && r in SetRefs(w.facts[f], i) :: !r.negated
  }

  ghost predicate MoreRetracted(w1: World, w2: World) {
    w1.facts.Keys == w2.facts.Keys && (forall f | f in w1.facts :: SameLogic(w1.facts[f], w2.facts[f])) &&
    w1.retracted.Keys <= w2.retracted.Keys
  }

  ghost predicate LaterReads(w: World, at1: map<SetId, int>, at2: map<SetId, int>) {
    forall f, i: nat | f in w.facts && !w.facts[f].isRoot && i < |w.facts[f].tokens| ::
      ReadAt(at1, SetId(f, i)) <= ReadAt(at2, SetId(f, i))
  }

  /** Without negation, retracting more and reading later never lifts a status to or above the threshold,
      nor raises one that stays there. */
  lemma {:induction false} RetractionLowers(w1: World, at1: map<SetId, int>, w2: World, at2: map<SetId, int>, f: FactId)
    requires Ranked(w1) && Ranked(w2) && NegationFree(w1) && MoreRetracted(w1, w2) && LaterReads(w1, at1, at2)
    requires f in w1.facts
    ensures Eval(w2, at2, f) >= THRESHOLD ==> Eval(w1, at1, f) >= Eval(w2, at2, f)
    decreases w1.rank[f], 1
  {
    assert SameLogic(w1.facts[f], w2.facts[f]);
    if !w1.facts[f].isRoot && f !in w2.retracted {
      var c1, c2 := Confidences(w1, at1, f), Confidences(w2, at2, f);
      BestIsLargest(c1, |c1|);
      BestIsLargest(c2, |c2|);
      if Best(c2, |c2|) >= THRESHOLD {
        var i :| 0 <= i < |c2| && c2[i] >= THRESHOLD && Best(c2, |c2|) == c2[i];
        RetractionLowersSet(w1, at1, w2, at2, SetId(f, i));
        assert c1[i] >= c2[i];
      }
    }
  }

  lemma {:induction false} RetractionLowersSet(w1: World, at1: map<SetId, int>, w2: World, at2: map<SetId, int>,
                                               j: SetId)
    requires Ranked(w1) && Ranked(w2) && NegationFree(w1) && MoreRetracted(w1, w2) && LaterReads(w1, at1, at2)
    requires j.fact in w1.facts && !w1.facts[j.fact].isRoot && j.index < |w1.facts[j.fact].tokens|
    requires EvalSet(w2, at2, j) >= THRESHOLD
    ensures EvalSet(w1, at1, j) >= EvalSet(w2, at2, j)
    decreases w1.rank[j.fact], 0
  {
    var f := j.fact;
    assert SameLogic(w1.facts[f], w2.facts[f]);
    var refs := SetRefs(w1.facts[f], j.index);
    var now1, now2 := ReadAt(at1, j), ReadAt(at2, j);
    var st1, st2 := Below(w1, at1, f, now1), Below(w2, at2, f, now2);
    forall r | r in refs ensures Holds(w1, st1, now1, f, r) && Contribution(w1, st1, r) >= Contribution(w2, st2, r) {
      RetractionLowers(w1, at1, w2, at2, r.id);
      BelowReads(w1, at1, f, r.id, now1);
      BelowReads(w2, at2, f, r.id, now2);
      assert LaterReads(w1, at1, at2);
      LoweredReading(w1, st1, w2, st2, f, r, Eval(w1, at1, r.id), Eval(w2, at2, r.id), now1, now2);
    }
    FloorIsLeast(w1, st1, refs, |refs|);
    FloorIsLeast(w2, st2, refs, |refs|);
  }

  lemma LoweredReading(w1: World, st1: map<FactId, Status>, w2: World, st2: map<FactId, Status>, f: FactId, r: DepRef,
                       own1: Status, own2: Status, now1: int, now2: int)
    requires f in w1.facts && f in w2.facts && r.id in w1.facts && r.id in w2.facts && r.id in st1 && r.id in st2
    requires SameLogic(w1.facts[f], w2.facts[f]) && SameLogic(w1.facts[r.id], w2.facts[r.id])
    requires r.id in w1.retracted ==> r.id in w2.retracted
    requires !r.negated && now1 <= now2 && (own2 >= THRESHOLD ==> own1 >= own2)
    requires st1[r.id] == Read(w1, r.id, own1, now1) && st2[r.id] == Read(w2, r.id, own2, now2)
    requires Holds(w2, st2, now2, f, r)
    ensures Holds(w1, st1, now1, f, r) && Contribution(w1, st1, r) >= Contribution(w2, st2, r)
  {}
}
