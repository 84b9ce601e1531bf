/** What the engine's invariant means: the cache against the from-scratch evaluation, after any run. */
module Exactness {
  import opened Facts
  import opened Strings
  import opened Semantics
  import opened Cache
  import opened Weights
  import opened Engines

  /** Every stored status and confidence of a consistent engine is the from-scratch evaluation in which each
      justification set reads the clock at its last refresh. */
  lemma EngineIsEval(e: Engine, f: FactId)
    requires e.Consistent() && f in e.facts
    ensures f in e.derived && e.derived[f] == Eval(e.W(), e.stamp, f)
    ensures !e.facts[f].isRoot ==> CachedConfidences(e.W(), e.sets, f) == Confidences(e.W(), e.stamp, f)
  {
    hide Ranked, Shape, Settled, IndexRanked, CollapsedOf;
    CacheIsEval(e.W(), e.derived, e.sets, e.children, e.stamp, f);
  }

  lemma StampsAreRead(w: World, derived: map<FactId, Status>, sets: Sets, children: Children, stamp: map<SetId, int>,
                      clock: int, collapsed: set<FactId>, now: int)
    requires WellBuilt(w, derived, sets, children, stamp, clock, collapsed) && clock <= now
    ensures ReadBy(w, stamp, now)
  {
    forall f, i: nat | f in w.facts && !w.facts[f].isRoot && i < |w.facts[f].tokens|
      ensures ReadAt(stamp, SetId(f, i)) <= now
    {
      assert IsSetId(w, SetId(f, i));
    }
  }

  /** Exactness: when no live fact has expired and no fact limits the age of its parents, every status the engine
      stores is the truth at time now, and so is every justification set's confidence. */
  lemma EngineIsExact(e: Engine, now: int, f: FactId)
    requires e.Consistent() && e.clock <= now && Quiet(e.W(), now) && f in e.facts
    ensures f in e.derived && e.derived[f] == Truth(e.W(), now, f)
    ensures Read(e.W(), f, e.derived[f], now) == Truth(e.W(), now, f)
    ensures !e.facts[f].isRoot ==> CachedConfidences(e.W(), e.sets, f) == Confidences(e.W(), Uniform(e.W(), now), f)
  {
    EngineIsEval(e, f);
    StampsAreRead(e.W(), e.derived, e.sets, e.children, e.stamp, e.clock, e.collapsed, now);
    assert e.derived[f] == Resolved(e.W(), e.sets, f);
    hide WellBuilt, Settled, Quiet, ReadBy, Eval;
    QuietIsTimeless(e.W(), e.stamp, now, f);
    QuietRead(e.W(), now, f);
  }

  lemma QuietRead(w: World, now: int, f: FactId)
    requires Quiet(w, now) && f in w.facts
    ensures f in w.retracted || !Expired(w.facts[f], now)
  {}

  /** Two engines with the same facts and retractions show the same statuses, whatever the order in which facts,
      retractions and sets were processed in each. */
  lemma SameFactsSameStatuses(w1: World, w2: World, now: int, f: FactId)
    requires Ranked(w1) && Ranked(w2) && Quiet(w1, now) && f in w1.facts
    requires w1.facts.Keys == w2.facts.Keys && w1.retracted.Keys == w2.retracted.Keys
    requires forall g | g in w1.facts :: SameLogic(w1.facts[g], w2.facts[g])
    ensures Truth(w1, now, f) == Truth(w2, now, f)
  {
    var at1, at2 := Uniform(w1, now), Uniform(w2, now);
    forall g, i: nat, r | g in w1.facts && !w1.facts[g].isRoot && r in SetRefs(w1.facts[g], i)
      ensures SameDependency(w1, at1, w2, at2, w1.facts.Keys, SetId(g, i), r)
    {
      assert SameLogic(w1.facts[g], w2.facts[g]);
      UniformReads(w1, now, g, i);
      UniformReads(w2, now, g, i);
    }
    AgreeingWorlds(w1, at1, w2, at2, w1.facts.Keys, f);
  }

  // ---- Expiry -----------------------------------------------------------------------------------------

  /** Once the sweep has retracted everything that is due, no live fact is expired. */
  lemma SweptIsQuiet(facts: map<FactId, Fact>, retracted: map<FactId, string>, rank: map<FactId, nat>, now: int,
                     expired: seq<FactId>)
    requires Swept(facts, retracted, facts.Keys, now, expired)
    requires forall f | f in facts :: facts[f].grounding.maxAgeSeconds <= 0
    ensures Quiet(World(facts, MarkExpired(retracted, expired), rank), now)
    ensures Swept(facts, MarkExpired(retracted, expired), facts.Keys, now, [])
  {
    forall f | f in facts && SweepDue(facts[f], now) ensures f in MarkExpired(retracted, expired) {
      assert f in retracted || f in expired;
    }
  }

  /** Two lists that both satisfy the sweep's contract name the same facts. */
  lemma SweptIsUnique(facts: map<FactId, Fact>, retracted: map<FactId, string>, now: int,
                      a: seq<FactId>, b: seq<FactId>)
    requires Swept(facts, retracted, facts.Keys, now, a) && Swept(facts, retracted, facts.Keys, now, b)
    ensures |a| == |b| && forall f :: f in a <==> f in b
  {
    forall f ensures f in a <==> f in b {
      assert f in a <==> f in facts.Keys && f in facts && SweepDue(facts[f], now) && f !in retracted;
    }
    assert Elements(a) == Elements(b);
    DistinctCardinality(a);
    DistinctCardinality(b);
  }

  /** The sweep restores exactness, and a second sweep at the same time finds nothing. */
  method SweepTwice(e: Engine, now: int) returns (first: seq<FactId>, second: seq<FactId>)
    requires e.Valid() && e.clock <= now && forall f | f in e.facts :: e.facts[f].grounding.maxAgeSeconds <= 0
    modifies e
    ensures e.Valid() && second == [] && Swept(e.facts, old(e.retracted), e.facts.Keys, now, first)
    ensures forall f | f in e.facts :: f in e.derived && e.derived[f] == Truth(e.W(), now, f)
  {
    hide WellBuilt, Settled, ForestCurrent, Quiet, Swept, MarkExpired, Truth, Ranked;
    ghost var retracted0 := e.retracted;
    first := e.SweepExpiredFacts(now);
    SweptIsQuiet(e.facts, retracted0, e.rank, now, first);
    ghost var retracted1 := e.retracted;
    second := e.SweepExpiredFacts(now);
    SweptIsUnique(e.facts, retracted1, now, second, []);
    NothingMarked(retracted1, second);
    ExactEverywhere(e, now);
  }

  lemma NothingMarked(retracted: map<FactId, string>, expired: seq<FactId>)
    requires expired == []
    ensures MarkExpired(retracted, expired) == retracted
  {}

  lemma ExactEverywhere(e: Engine, now: int)
    requires e.Consistent() && e.clock <= now && Quiet(e.W(), now)
    ensures Ranked(e.W())
    ensures forall f | f in e.facts :: f in e.derived && e.derived[f] == Truth(e.W(), now, f)
  {
    assert Ranked(e.W());
    hide WellBuilt, Settled, Quiet, Truth, Ranked;
    forall f | f in e.facts ensures f in e.derived && e.derived[f] == Truth(e.W(), now, f) {
      EngineIsExact(e, now, f);
    }
  }

  // ---- Runs ----------------------------------------------------------------------------------------------

  datatype Op =
    | Assert(id: FactId, fact: Fact)
    | Invalidate(id: FactId)
    | SetConfidence(id: FactId, confidence: Status)
    | Retract(id: FactId, reason: string)
    | Verify(id: FactId, status: VerificationStatus, method_: string, sourceRef: string, why: string, verifiedAt: int)
    | ReviewFact(id: FactId, review: ReviewStatus, comment: string, reviewedAt: int)
    | Sweep
    | Query(id: FactId)

  /** What callers put into an engine; statuses follow from it. */
  datatype Base = Base(facts: map<FactId, Fact>, retracted: map<FactId, string>)

  ghost function BaseOf(e: Engine): Base
    reads e
  {
    Base(e.facts, e.retracted)
  }

  ghost function TimeOr(at: int, now: int): int {
    if at == 0 then now else at
  }

  /** What an operation does to facts and retractions. */
  ghost function AfterOp(b: Base, op: Op, now: int): Base {
    match op
    case Assert(id, fact) => b.(facts := Offered(b.facts, id, Timed(fact, now)))
    case Invalidate(id) =>
      if id in b.facts && b.facts[id].isRoot then b.(facts := b.facts[id := b.facts[id].(manual := INVALID)]) else b
    case SetConfidence(id, confidence) =>
      if id in b.facts && b.facts[id].isRoot then b.(facts := b.facts[id := b.facts[id].(manual := confidence)]) else b
    case Retract(id, reason) =>
      if id in b.facts then b.(retracted := b.retracted[id := if reason == "" then "retracted" else reason]) else b
    case Verify(id, status, method_, sourceRef, why, at) =>
      if id in b.facts && status != Unknown then
        b.(facts := b.facts[id := b.facts[id].(verification :=
             Reverified(b.facts[id].verification, status, method_, sourceRef, why, TimeOr(at, now)))])
      else b
    case ReviewFact(id, review, comment, at) =>
      if id in b.facts && review != NoReview then
        b.(facts := b.facts[id := Reviewed(b.facts[id], review, comment, TimeOr(at, now))])
      else b
    case Sweep => b.(retracted := b.retracted + map f | f in b.facts && SweepDue(b.facts[f], now) &&
                     f !in b.retracted :: "expired")
    case Query(_) => b
  }

  lemma SweptIsMarked(facts: map<FactId, Fact>, retracted: map<FactId, string>, now: int, expired: seq<FactId>)
    requires Swept(facts, retracted, facts.Keys, now, expired)
    ensures MarkExpired(retracted, expired) ==
            retracted + map f | f in facts && SweepDue(facts[f], now) && f !in retracted :: "expired"
  {
    assert (map f | f in expired :: "expired") == (map f | f in facts && SweepDue(facts[f], now) && f !in retracted ::
                                                   "expired");
  }

  method Apply(e: Engine, op: Op, now: int)
    requires e.Valid() && e.clock <= now
    modifies e, e.dominators
    ensures e.Valid() && e.clock <= now && BaseOf(e) == AfterOp(old(BaseOf(e)), op, now)
  {
    hide Engine.Valid, Pruned, Reviewed, Reverified, Untouched, Kept, Swept, MarkExpired, Offered;
    match op {
      case Assert(id, fact) => Offer(e, id, fact, now);
      case Invalidate(id) => var _ := e.InvalidateRoot(id, now);
      case SetConfidence(id, confidence) => var _ := e.SetRootConfidence(id, confidence, now);
      case Retract(id, reason) => var _ := e.RetractFact(id, reason, now);
      case Verify(id, status, method_, sourceRef, why, at) =>
        var _ := e.SetFactVerification(id, status, method_, sourceRef, why, at, now);
      case ReviewFact(id, review, comment, at) => var _ := e.SetFactReview(id, review, comment, at, now);
      case Sweep =>
        var expired := e.SweepExpiredFacts(now);
        SweptIsMarked(e.facts, old(e.retracted), now, expired);
      case Query(id) => var _ := e.GetStatus(id, now);
    }
  }

  ghost function AfterOps(ops: seq<Op>, times: seq<nat>): Base
    requires |times| == |ops|
  {
    if ops == [] then Base(map[], map[])
    else
      var n := |ops| - 1;
      AfterOp(AfterOps(ops[..n], times[..n]), ops[n], times[n])
  }

  lemma AfterOneMore(ops: seq<Op>, times: seq<nat>, i: nat)
    requires |times| == |ops| && i < |ops|
    ensures AfterOps(ops[..i + 1], times[..i + 1]) == AfterOp(AfterOps(ops[..i], times[..i]), ops[i], times[i])
  {
    assert ops[..i + 1][..i] == ops[..i] && times[..i + 1][..i] == times[..i];
  }

  /** Any sequence of operations at non-decreasing times leaves the facts and retractions those operations make, and
      every status exact, as soon as no live fact is expired at the time it is looked at. */
  method Run(ops: seq<Op>, times: seq<nat>, now: int) returns (e: Engine)
    requires |times| == |ops| && (forall i, j | 0 <= i <= j < |times| :: times[i] <= times[j])
    requires forall i | 0 <= i < |times| :: times[i] <= now
    requires now >= 0
    ensures e.Valid() && e.clock <= now && BaseOf(e) == AfterOps(ops, times)
    ensures Quiet(e.W(), now) ==> forall f | f in e.facts :: f in e.derived && e.derived[f] == Truth(e.W(), now, f)
  {
    hide Engine.Consistent, Engine.DominatorsCurrent, AfterOp, Quiet, Truth, Ranked;
    e := new Engine();
    for i := 0 to |ops|
      invariant e.Valid() && fresh(e) && fresh(e.dominators)
      invariant BaseOf(e) == AfterOps(ops[..i], times[..i])
      invariant e.clock <= now && forall k | i <= k < |times| :: e.clock <= times[k]
    {
      AfterOneMore(ops, times, i);
      Apply(e, ops[i], times[i]);
    }
    assert ops[..|ops|] == ops && times[..|times|] == times;
    if Quiet(e.W(), now) {
      ExactEverywhere(e, now);
    }
  }
}
