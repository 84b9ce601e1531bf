/** What a derivation rests on: when a justification set is worth something, and when it is worth the threshold. */
module Derivations {
  import opened Facts
  import opened Semantics

  /** The dependency holds on true statuses. */
  ghost predicate HoldsTruly(w: World, now: int, f: FactId, r: DepRef)
    requires Ranked(w)
  {
    r.id in w.facts && f in w.facts && Satisfied(w.facts[r.id], Truth(w, now, r.id), r.negated, w.facts[f], now)
  }

  /** It contributes at least the threshold, too: a negated parent must be that far down. */
  ghost predicate Meets(w: World, now: int, f: FactId, r: DepRef)
    requires Ranked(w)
  {
    HoldsTruly(w, now, f, r) && (r.negated ==> Truth(w, now, r.id) <= VALID - THRESHOLD)
  }

  /** Set i of f is worth something. */
  ghost predicate Held(w: World, now: int, f: FactId, i: int)
    requires Ranked(w)
  {
    f in w.facts && forall r | r in SetRefs(w.facts[f], i) :: HoldsTruly(w, now, f, r)
  }

  /** Set i of f is worth the threshold. */
  ghost predicate Supported(w: World, now: int, f: FactId, i: int)
    requires Ranked(w)
  {
    f in w.facts && forall r | r in SetRefs(w.facts[f], i) :: Meets(w, now, f, r)
  }

  /** No dependency of f is negated. */
  ghost predicate Positive(w: World, f: FactId) {
    f in w.facts && forall i, r | r in SetRefs(w.facts[f], i) :: !r.negated
  }

  lemma SupportedIsHeld(w: World, now: int, f: FactId, i: int)
    requires Ranked(w)
    ensures Supported(w, now, f, i) ==> Held(w, now, f, i)
    ensures Positive(w, f) && Held(w, now, f, i) ==> Supported(w, now, f, i)
  {
    hide Ranked, Truth, HoldsTruly;
  }

  /** A conjunction is worth something exactly when all its dependencies hold, and then at least the threshold
      exactly when each of them contributes that much. */
  lemma WorthOfSet(w: World, st: map<FactId, Status>, now: int, child: FactId, refs: seq<DepRef>)
    ensures var worth := SetValue(w, st, now, child, refs);
      worth >= INVALID && (worth > INVALID <==> AllHold(w, st, now, child, refs)) &&
      (worth >= THRESHOLD <==>
       AllHold(w, st, now, child, refs) && forall r | r in refs :: Contribution(w, st, r) >= THRESHOLD)
  {
    FloorIsLeast(w, st, refs, |refs|);
    if AllHold(w, st, now, child, refs) {
      forall i | 0 <= i < |refs| ensures Contribution(w, st, refs[i]) > INVALID {
        assert Holds(w, st, now, child, refs[i]);
      }
      hide AllHold, Holds, Floor, Contribution;
      assert forall i | 0 <= i < |refs| :: refs[i] in refs;
    }
  }

  lemma QuietReading(w: World, now: int, f: FactId)
    requires Ranked(w) && Quiet(w, now) && f in w.facts
    ensures Read(w, f, Truth(w, now, f), now) == Truth(w, now, f)
  {}

  /** What the readings below f say of one of its dependencies. */
  lemma ReadingOfRef(w: World, now: int, f: FactId, i: nat, r: DepRef)
    requires Ranked(w) && Quiet(w, now) && f in w.facts && r in SetRefs(w.facts[f], i)
    ensures var st := Below(w, Uniform(w, now), f, now);
      (Holds(w, st, now, f, r) <==> HoldsTruly(w, now, f, r)) &&
      (Meets(w, now, f, r) <==> HoldsTruly(w, now, f, r) && Contribution(w, st, r) >= THRESHOLD)
  {
    BelowReads(w, Uniform(w, now), f, r.id, now);
    QuietReading(w, now, r.id);
    var st := Below(w, Uniform(w, now), f, now);
    assert r.id in w.facts && st[r.id] == Truth(w, now, r.id);
    hide Ranked, Quiet, Truth, Below;
  }

  lemma SupportedIsValue(w: World, now: int, f: FactId, i: nat)
    requires Ranked(w) && Quiet(w, now) && f in w.facts && i < |w.facts[f].tokens|
    ensures var worth := EvalSet(w, Uniform(w, now), SetId(f, i));
      worth >= INVALID && (worth > INVALID <==> Held(w, now, f, i)) && (worth >= THRESHOLD <==> Supported(w, now, f, i))
  {
    var refs, st := SetRefs(w.facts[f], i), Below(w, Uniform(w, now), f, now);
    UniformReads(w, now, f, i);
    assert EvalSet(w, Uniform(w, now), SetId(f, i)) == SetValue(w, st, now, f, refs);
    hide Ranked, Quiet, EvalSet, Below, Holds, HoldsTruly, Contribution, SetRefs, Meets;
    WorthOfSet(w, st, now, f, refs);
    forall r | r in refs
      ensures Holds(w, st, now, f, r) <==> HoldsTruly(w, now, f, r)
      ensures Meets(w, now, f, r) <==> HoldsTruly(w, now, f, r) && Contribution(w, st, r) >= THRESHOLD
    {
      ReadingOfRef(w, now, f, i, r);
    }
    hide SetValue;
  }

  /** A live derived fact stands exactly when some set of it is supported. */
  lemma TruthByDerivation(w: World, now: int, f: FactId)
    requires Ranked(w) && Quiet(w, now) && f in w.facts && !w.facts[f].isRoot && f !in w.retracted
    ensures Truth(w, now, f) >= THRESHOLD <==> exists i: nat :: i < |w.facts[f].tokens| && Supported(w, now, f, i)
    ensures Truth(w, now, f) == INVALID || Truth(w, now, f) >= THRESHOLD
  {
    var confs := Confidences(w, Uniform(w, now), f);
    BestIsLargest(confs, |confs|);
    forall i: nat | i < |confs| ensures confs[i] >= THRESHOLD <==> Supported(w, now, f, i) {
      SupportedIsValue(w, now, f, i);
    }
  }

  lemma RetractedIsDown(w: World, now: int, f: FactId)
    requires Ranked(w) && f in w.facts && f in w.retracted
    ensures Truth(w, now, f) == INVALID
  {}

  // ---- Sets of one dependency ----------------------------------------------------------------------------

  /** The value of a set whose only dependency is r. */
  ghost function Alone(w: World, st: map<FactId, Status>, now: int, f: FactId, r: DepRef): Status {
    if !Holds(w, st, now, f, r) then INVALID
    else if Contribution(w, st, r) < VALID then Contribution(w, st, r) else VALID
  }

  lemma SingleValue(w: World, st: map<FactId, Status>, now: int, f: FactId, refs: seq<DepRef>, r: DepRef)
    requires forall q :: q in refs <==> q == r
    ensures SetValue(w, st, now, f, refs) == Alone(w, st, now, f, r)
  {
    FloorIsLeast(w, st, refs, |refs|);
    assert r in refs;
    var k :| 0 <= k < |refs| && refs[k] == r;
    assert forall i | 0 <= i < |refs| :: refs[i] == r by { assert forall i | 0 <= i < |refs| :: refs[i] in refs; }
    hide Holds, Contribution;
  }

  /** The true value of such a set, in quiet. */
  ghost function TrueAlone(w: World, now: int, f: FactId, r: DepRef): Status
    requires Ranked(w) && f in w.facts && r.id in w.facts
  {
    if !Satisfied(w.facts[r.id], Truth(w, now, r.id), r.negated, w.facts[f], now) then INVALID
    else if DependencyConfidence(Truth(w, now, r.id), r.negated) < VALID
    then DependencyConfidence(Truth(w, now, r.id), r.negated)
    else VALID
  }

  lemma SingleTruth(w: World, now: int, f: FactId, i: nat, r: DepRef)
    requires Ranked(w) && Quiet(w, now) && f in w.facts && i < |w.facts[f].tokens| && SetRefs(w.facts[f], i) == [r]
    ensures r.id in w.facts && EvalSet(w, Uniform(w, now), SetId(f, i)) == TrueAlone(w, now, f, r)
  {
    var at := Uniform(w, now);
    UniformReads(w, now, f, i);
    assert r in SetRefs(w.facts[f], i);
    BelowReads(w, at, f, r.id, now);
    QuietReading(w, now, r.id);
    var st := Below(w, at, f, now);
    assert st[r.id] == Truth(w, now, r.id);
    hide Below, Quiet, Truth, Ranked;
    SingleValue(w, st, now, f, [r], r);
  }

  /** A live fact with one set of one negated dependency. */
  lemma NegatedTruth(w: World, now: int, f: FactId, p: FactId)
    requires Ranked(w) && Quiet(w, now) && f in w.facts && !w.facts[f].isRoot && f !in w.retracted
    requires |w.facts[f].tokens| == 1 && SetRefs(w.facts[f], 0) == [DepRef(p, true)]
    ensures p in w.facts
    ensures Truth(w, now, p) <= INVALID ==> Truth(w, now, f) == VALID
    ensures Truth(w, now, p) >= THRESHOLD ==> Truth(w, now, f) == INVALID
  {
    SingleTruth(w, now, f, 0, DepRef(p, true));
    var confs := Confidences(w, Uniform(w, now), f);
    BestIsLargest(confs, |confs|);
  }
}
