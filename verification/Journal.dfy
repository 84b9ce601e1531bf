/** The journal as its writers make it: what each handler does to the engine, which records it appends, and what a boot
    makes of them. */
module Journals {
  import opened Facts
  import opened Semantics
  import opened Engines
  import opened Exactness
  import opened Replay

  // ---- Records ---------------------------------------------------------------------------------------------

  /** How the act of a handler is recorded, with every field there is. */
  ghost function Written(act: Entry): Record {
    match act.event
    case RetractEvent(reason) => RetractRecord(act.id, Some(reason), act.timestamp)
    case ReviewEvent(status, comment, at) =>
      ReviewRecord(act.id, Some(status), Some(comment), Some(at), act.timestamp)
    case VerificationEvent(verdict, method_, sourceRef, why, at) =>
      VerificationRecord(act.id, Some(verdict), Some(method_), Some(sourceRef), Some(why), Some(at), act.timestamp)
    case _ => Plain(act)
  }

  ghost function AllWritten(acts: seq<Entry>): seq<Record> {
    seq(|acts|, i requires 0 <= i < |acts| => Written(acts[i]))
  }

  /** A verification whose time is not positive is read as of the time of its record. */
  ghost predicate ReadBack(act: Entry) {
    act.event.VerificationEvent? && act.event.verifiedAt <= 0 ==> act.event.verifiedAt == act.timestamp
  }

  /** Reading a record back gives the act it was written for, and else the same act at the time of the record. */
  lemma WrittenIsRead(act: Entry)
    ensures Decode(Written(act)) == act <==> ReadBack(act)
    ensures !ReadBack(act) ==> Decode(Written(act)) == act.(event := act.event.(verifiedAt := act.timestamp))
  {}

  /** A missing text reads as blank, a missing status as none, a missing time as that of the record; and the operation a
      record stands for is the one its fields spell. */
  lemma FieldsAreRead(id: FactId, text: string, status: ReviewStatus, verdict: VerificationStatus, method_: string,
                      sourceRef: string, at: int, t: int)
    requires at > 0
    ensures OperationOf(Decode(RetractRecord(id, Some(text), t))) == Retract(id, text)
    ensures OperationOf(Decode(RetractRecord(id, None, t))) == Retract(id, "")
    ensures OperationOf(Decode(ReviewRecord(id, Some(status), Some(text), Some(at), t))) ==
            ReviewFact(id, status, text, at)
    ensures OperationOf(Decode(ReviewRecord(id, Some(status), None, None, t))) == ReviewFact(id, status, "", t)
    ensures OperationOf(Decode(ReviewRecord(id, None, Some(text), None, t))) == ReviewFact(id, NoReview, text, t)
    ensures OperationOf(Decode(VerificationRecord(id, Some(verdict), Some(method_), Some(sourceRef), Some(text),
                                                  Some(at), t))) == Verify(id, verdict, method_, sourceRef, text, at)
    ensures OperationOf(Decode(VerificationRecord(id, Some(verdict), None, None, None, None, t))) ==
            Verify(id, verdict, "", "", "", t)
    ensures OperationOf(Decode(VerificationRecord(id, None, Some(method_), Some(sourceRef), Some(text), Some(-at),
                                                  t))) ==
            Verify(id, Unknown, method_, sourceRef, text, t)
  {}

  // ---- Acts ------------------------------------------------------------------------------------------------

  /** The engine takes the assertion, or holds the same fact already. */
  ghost predicate Taken(facts: map<FactId, Fact>, id: FactId, fact: Fact) {
    |facts| < MAX_FACTS && if id in facts then SameContent(facts[id], fact) else Assertable(facts, fact)
  }

  /** What the handler of an operation puts on record: nothing for what it refuses before it gets to the journal, and
      one act for each fact a sweep retracts. */
  ghost predicate Performs(b: Base, op: Op, now: int, at: int, acts: seq<Entry>) {
    match op
    case Assert(id, fact) =>
      acts == if Taken(b.facts, id, fact) then [Entry(id, AssertEvent(Timed(fact, now)), at)] else []
    case Invalidate(id) => acts == [Entry(id, InvalidateEvent, at)]
    case SetConfidence(id, confidence) => acts == [Entry(id, ConfidenceEvent(confidence), at)]
    case Retract(id, reason) => acts == if id in b.facts then [Entry(id, RetractEvent(reason), at)] else []
    case Verify(id, status, method_, sourceRef, why, verifiedAt) =>
      acts == if id in b.facts && status != Unknown
        then [Entry(id, VerificationEvent(status, method_, sourceRef, why, TimeOr(verifiedAt, now)), at)] else []
    case ReviewFact(id, review, comment, reviewedAt) =>
      acts == if id in b.facts && review != NoReview
        then [Entry(id, ReviewEvent(review, comment, TimeOr(reviewedAt, now)), at)] else []
    case Sweep => exists expired ::
      Swept(b.facts, b.retracted, b.facts.Keys, now, expired) && acts == Expiries(expired, at)
    case Query(_) => acts == []
  }

  ghost function Expiries(expired: seq<FactId>, at: int): seq<Entry> {
    seq(|expired|, i requires 0 <= i < |expired| => Entry(expired[i], ExpiredEvent, at))
  }

  /** Handles one operation: the engine's part, and the records appended to the journal at time at. */
  method Handle(e: Engine, op: Op, now: nat, at: int) returns (records: seq<Record>, ghost acts: seq<Entry>)
    requires e.Valid() && e.clock <= now
    modifies e, e.dominators
    ensures e.Valid() && e.clock <= now && BaseOf(e) == AfterOp(old(BaseOf(e)), op, now)
    ensures Performs(old(BaseOf(e)), op, now, at, acts) && records == AllWritten(acts)
  {
    hide Engine.Valid, Pruned, Reviewed, Reverified, Untouched, Kept, Swept, MarkExpired, SameContent, OthersKept;
    records, acts := [], [];
    match op {
      case Assert(id, fact) =>
        var r := e.AssertFact(id, fact, now);
        if r.Asserted? || r.AlreadyPresent? {
          records := [Plain(Entry(id, AssertEvent(if fact.assertedAt == 0 then fact.(assertedAt := now) else fact),
                                  at))];
          acts := [Entry(id, AssertEvent(Timed(fact, now)), at)];
        }
        TimedIsAssertable(old(e.facts), fact, now);
      case Invalidate(id) =>
        records, acts := [Plain(Entry(id, InvalidateEvent, at))], [Entry(id, InvalidateEvent, at)];
        var _ := e.InvalidateRoot(id, now);
      case SetConfidence(id, confidence) =>
        records := [Plain(Entry(id, ConfidenceEvent(confidence), at))];
        acts := [Entry(id, ConfidenceEvent(confidence), at)];
        var _ := e.SetRootConfidence(id, confidence, now);
      case Retract(id, reason) =>
        if id in e.facts {
          records, acts := [RetractRecord(id, Some(reason), at)], [Entry(id, RetractEvent(reason), at)];
          var _ := e.RetractFact(id, reason, now);
        }
      case Verify(id, status, method_, sourceRef, why, verifiedAt) =>
        var when := if verifiedAt == 0 then now else verifiedAt;
        var r := e.SetFactVerification(id, status, method_, sourceRef, why, when, now);
        if r.Done? {
          records := [VerificationRecord(id, Some(status), Some(method_), Some(sourceRef), Some(why), Some(when), at)];
          acts := [Entry(id, VerificationEvent(status, method_, sourceRef, why, when), at)];
        }
      case ReviewFact(id, review, comment, reviewedAt) =>
        var when := if reviewedAt == 0 then now else reviewedAt;
        var r := e.SetFactReview(id, review, comment, when, now);
        if r.Done? {
          records := [ReviewRecord(id, Some(review), Some(comment), Some(when), at)];
          acts := [Entry(id, ReviewEvent(review, comment, when), at)];
        }
      case Sweep =>
        var expired := e.SweepExpiredFacts(now);
        SweptIsMarked(e.facts, old(e.retracted), now, expired);
        for i := 0 to |expired|
          invariant records == AllWritten(Expiries(expired[..i], at))
        {
          records := records + [Plain(Entry(expired[i], ExpiredEvent, at))];
        }
        assert expired[..|expired|] == expired;
        acts := Expiries(expired, at);
      case Query(id) => var _ := e.GetStatus(id, now);
    }
  }

  /** These acts are on record once the operations have been handled, in their order. */
  ghost predicate IsJournal(ops: seq<Op>, times: seq<nat>, ats: seq<int>, journal: seq<Entry>)
    requires |times| == |ops| == |ats|
    decreases |ops|
  {
    if ops == [] then journal == []
    else
      var n := |ops| - 1;
      exists k :: 0 <= k <= |journal| && IsJournal(ops[..n], times[..n], ats[..n], journal[..k]) &&
                  Performs(AfterOps(ops[..n], times[..n]), ops[n], times[n], ats[n], journal[k..])
  }

  lemma JournalGrows(ops: seq<Op>, times: seq<nat>, ats: seq<int>, i: nat, journal: seq<Entry>, acts: seq<Entry>)
    requires |times| == |ops| == |ats| && i < |ops| && IsJournal(ops[..i], times[..i], ats[..i], journal)
    requires Performs(AfterOps(ops[..i], times[..i]), ops[i], times[i], ats[i], acts)
    ensures IsJournal(ops[..i + 1], times[..i + 1], ats[..i + 1], journal + acts)
    ensures AfterOps(ops[..i + 1], times[..i + 1]) == AfterOp(AfterOps(ops[..i], times[..i]), ops[i], times[i])
  {
    hide Performs, AfterOps, AfterOp;
    AfterOneMore(ops, times, i);
    assert ops[..i + 1][..i] == ops[..i] && times[..i + 1][..i] == times[..i] && ats[..i + 1][..i] == ats[..i];
    var k := |journal|;
    assert (journal + acts)[..k] == journal && (journal + acts)[k..] == acts;
  }

  // ---- Live and replayed -----------------------------------------------------------------------------------

  /** The acts on record, replayed as they were performed, track the live state. */
  ghost predicate Recorded(journal: seq<Entry>, live: Base) {
    AllTrack(journal, live, Fold(NOTHING, journal)) && AllFit(NOTHING, journal) &&
    (forall act | act in journal :: Stamped(act) && !Skipped(act) && TimesWritten(Written(act))) &&
    "" !in live.facts
  }

  lemma NothingRecorded()
    ensures Recorded([], NOTHING)
  {}

  lemma OneAct(journal: seq<Entry>, live: Base, act: Entry, now: int)
    requires Recorded(journal, live) && Stamped(act) && !Skipped(act) && TimesWritten(Written(act))
    requires act.event.AssertEvent? ==> act.id != "" && act.id in AfterOp(live, OperationOf(act), now).facts
    ensures Recorded(journal + [act], AfterOp(live, OperationOf(act), now))
  {
    var b := Fold(NOTHING, journal);
    NoBlankFact(live, act, now);
    ActFits(journal, live, b, act, now);
    hide *;
    RecordedParts(journal, live);
    RecordedStep(journal, act, live, b, now);
    FitsNext(journal, act);
    RecordedIs(journal, act, AfterOp(live, OperationOf(act), now));
  }

  lemma RecordedParts(journal: seq<Entry>, live: Base)
    requires Recorded(journal, live)
    ensures AllTrack(journal, live, Fold(NOTHING, journal)) && AllFit(NOTHING, journal) && "" !in live.facts
    ensures forall act | act in journal :: Stamped(act) && !Skipped(act) && TimesWritten(Written(act))
  {}

  lemma RecordedIs(journal: seq<Entry>, act: Entry, live: Base)
    requires AllTrack(journal + [act], live, Fold(NOTHING, journal + [act])) && AllFit(NOTHING, journal + [act])
    requires forall a | a in journal :: Stamped(a) && !Skipped(a) && TimesWritten(Written(a))
    requires Stamped(act) && !Skipped(act) && TimesWritten(Written(act)) && "" !in live.facts
    ensures Recorded(journal + [act], live)
  {
    hide AllTrack, AllFit, Fold, Stamped, Skipped, TimesWritten, Written;
  }

  lemma NoBlankFact(live: Base, act: Entry, now: int)
    requires "" !in live.facts && (act.event.AssertEvent? ==> act.id != "")
    ensures "" !in AfterOp(live, OperationOf(act), now).facts
  {
    hide Reviewed, Reverified, Assertable;
  }

  /** What the live engine took, the replay takes. */
  lemma ActFits(journal: seq<Entry>, live: Base, b: Base, act: Entry, now: int)
    requires Recorded(journal, live) && b == Fold(NOTHING, journal) && Stamped(act) && !Skipped(act)
    requires act.event.AssertEvent? ==> act.id in AfterOp(live, OperationOf(act), now).facts
    ensures Fits(b, act)
  {
    assert live.facts.Keys == b.facts.Keys;
    if act.event.AssertEvent? && act.id !in b.facts {
      hide AllTrack, AllFit, Fold;
      assert |live.facts| == |live.facts.Keys| == |b.facts.Keys| == |b.facts|;
      assert Timed(act.event.fact, now) == act.event.fact;
      assert Assertable(b.facts, act.event.fact);
    }
  }

  lemma FitsNext(journal: seq<Entry>, act: Entry)
    requires AllFit(NOTHING, journal) && Fits(Fold(NOTHING, journal), act)
    ensures AllFit(NOTHING, journal + [act])
    ensures Fold(NOTHING, journal + [act]) == Step(Fold(NOTHING, journal), act)
  {
    var b := Fold(NOTHING, journal);
    FitConcat(NOTHING, journal, [act]);
    FoldConcat(NOTHING, journal, [act]);
    assert [act][1..] == [] && [act][0] == act;
    assert AllFit(Step(b, act), []) && Fold(Step(b, act), []) == Step(b, act);
    hide Step, Fits;
  }

  /** Sweeping is retracting one fact after the other. */
  lemma {:induction false} ExpiriesRecorded(journal: seq<Entry>, live: Base, expired: seq<FactId>, at: int, now: int)
    requires Recorded(journal, live) && "" !in live.facts && forall f | f in expired :: f in live.facts
    ensures Recorded(journal + Expiries(expired, at), live.(retracted := MarkExpired(live.retracted, expired)))
    decreases |expired|
  {
    hide *;
    if expired == [] {
      NoExpiries(journal, live, expired, at);
    } else {
      var init, f := expired[..|expired| - 1], expired[|expired| - 1];
      assert f in expired && f != "" && forall g | g in init :: g in expired;
      ExpiriesRecorded(journal, live, init, at, now);
      var marked := live.(retracted := MarkExpired(live.retracted, init));
      ExpiryIsAct(marked, f, at, now);
      OneAct(journal + Expiries(init, at), marked, Entry(f, ExpiredEvent, at), now);
      MoreExpiries(journal, live.retracted, expired, at);
    }
  }

  lemma NoExpiries(journal: seq<Entry>, live: Base, expired: seq<FactId>, at: int)
    requires expired == []
    ensures journal + Expiries(expired, at) == journal && MarkExpired(live.retracted, expired) == live.retracted
  {}

  lemma ExpiryIsAct(b: Base, f: FactId, at: int, now: int)
    requires f in b.facts && f != ""
    ensures var act := Entry(f, ExpiredEvent, at);
      Stamped(act) && !Skipped(act) && TimesWritten(Written(act)) &&
      AfterOp(b, OperationOf(act), now) == b.(retracted := b.retracted[f := "expired"])
  {}

  lemma MoreExpiries(journal: seq<Entry>, retracted: map<FactId, string>, expired: seq<FactId>, at: int)
    requires expired != []
    ensures var init, f := expired[..|expired| - 1], expired[|expired| - 1];
      journal + Expiries(expired, at) == journal + Expiries(init, at) + [Entry(f, ExpiredEvent, at)] &&
      MarkExpired(retracted, expired) == MarkExpired(retracted, init)[f := "expired"]
  {
    var init, f := expired[..|expired| - 1], expired[|expired| - 1];
    assert Expiries(expired, at) == Expiries(init, at) + [Entry(f, ExpiredEvent, at)];
    assert expired == init + [f];
  }

  /** Whatever is handled, the acts on record go on tracking the live state. */
  lemma PerformedIsRecorded(journal: seq<Entry>, live: Base, op: Op, now: int, at: int, acts: seq<Entry>)
    requires Recorded(journal, live) && Performs(live, op, now, at, acts) && 0 < now <= at
    requires op.Assert? ==> op.id != ""
    ensures Recorded(journal + acts, AfterOp(live, op, now))
  {
    if op.Sweep? {
      var expired :| Swept(live.facts, live.retracted, live.facts.Keys, now, expired) && acts == Expiries(expired, at);
      SweptIsMarked(live.facts, live.retracted, now, expired);
      assert "" !in live.facts;
      hide Recorded;
      ExpiriesRecorded(journal, live, expired, at, now);
    } else if acts == [] {
      assert journal + acts == journal;
      NothingDone(live, op, now, at);
    } else {
      assert acts == [acts[0]];
      assert "" !in live.facts;
      SameOperation(live, op, now, at, acts[0]);
      hide Recorded, Performs, AfterOp, Timed, OperationOf;
      OneAct(journal, live, acts[0], now);
    }
  }

  lemma NothingDone(live: Base, op: Op, now: int, at: int)
    requires Performs(live, op, now, at, []) && !op.Sweep?
    ensures AfterOp(live, op, now) == live
  {
    hide Reviewed, Reverified;
    if op.Assert? {
      TimedIsAssertable(live.facts, op.fact, now);
    }
  }

  /** The act on record stands for the operation. */
  lemma SameOperation(live: Base, op: Op, now: int, at: int, act: Entry)
    requires Performs(live, op, now, at, [act]) && !op.Sweep? && 0 < now <= at && "" !in live.facts
    requires op.Assert? ==> op.id != ""
    ensures AfterOp(live, OperationOf(act), now) == AfterOp(live, op, now)
    ensures Stamped(act) && !Skipped(act) && TimesWritten(Written(act))
    ensures act.event.AssertEvent? ==> act.id != "" && act.id in AfterOp(live, op, now).facts
  {
    hide Reviewed, Reverified;
    if op.Assert? {
      TimedIsAssertable(live.facts, op.fact, now);
    }
  }

  // ---- Times that are not read back ------------------------------------------------------------------------

  ghost function DateAfter(d: Option<Option<Entry>>, act: Entry): Option<Option<Entry>> {
    match d
    case None => if act.event.AssertEvent? then Some(None) else None
    case Some(_) => if act.event.VerificationEvent? && act.event.verdict != Unknown then Some(Some(act)) else d
  }

  /** Whether a fact has been asserted, and the last act that verified it. */
  ghost function DateOf(f: FactId, journal: seq<Entry>): Option<Option<Entry>>
    decreases |journal|
  {
    if journal == [] then None
    else
      var before, last := DateOf(f, journal[..|journal| - 1]), journal[|journal| - 1];
      if last.id == f then DateAfter(before, last) else before
  }

  /** The last verification of the fact was given a time that its record does not bring back. */
  ghost predicate Misdated(f: FactId, journal: seq<Entry>) {
    var d := DateOf(f, journal);
    d.Some? && d.value.Some? && !ReadBack(d.value.value)
  }

  ghost function Reread(journal: seq<Entry>): (entries: seq<Entry>)
    ensures |entries| == |journal|
  {
    seq(|journal|, i requires 0 <= i < |journal| => Decode(Written(journal[i])))
  }

  /** x is a fact as performed, y as read back: they differ at most in the time of the last verification. */
  ghost predicate Dated(d: Option<Option<Entry>>, x: Fact, y: Fact) {
    d.Some? && y == x.(verification := x.verification.(verifiedAt := y.verification.verifiedAt)) &&
    (d.value.None? ==> y == x) &&
    (d.value.Some? ==> VerifiedBy(d.value.value, x, y))
  }

  ghost predicate VerifiedBy(act: Entry, x: Fact, y: Fact) {
    act.event.VerificationEvent? && x.verification.verifiedAt == act.event.verifiedAt &&
    y.verification.verifiedAt == if ReadBack(act) then act.event.verifiedAt else act.timestamp
  }

  ghost predicate AllDated(journal: seq<Entry>, a: Base, b: Base) {
    a.retracted == b.retracted && a.facts.Keys == b.facts.Keys &&
    (forall f :: f in a.facts <==> DateOf(f, journal).Some?) &&
    forall f | f in a.facts :: Dated(DateOf(f, journal), a.facts[f], b.facts[f])
  }

  lemma DateNext(init: seq<Entry>, last: Entry, f: FactId)
    ensures DateOf(f, init + [last]) ==
            if f == last.id then DateAfter(DateOf(f, init), last) else DateOf(f, init)
  {
    assert (init + [last])[..|init|] == init;
    hide DateAfter;
  }

  lemma DatedAt(init: seq<Entry>, last: Entry, a: Base, b: Base, a': Base, b': Base)
    requires AllDated(init, a, b) && a'.retracted == b'.retracted
    requires OnlyAt(last.id, a.facts, a'.facts) && OnlyAt(last.id, b.facts, b'.facts)
    requires var d := DateAfter(DateOf(last.id, init), last);
      (last.id in a'.facts <==> d.Some?) && (last.id in b'.facts <==> d.Some?) &&
      (d.Some? ==> Dated(d, a'.facts[last.id], b'.facts[last.id]))
    ensures AllDated(init + [last], a', b')
  {
    hide DateOf, DateAfter, Dated;
    forall f ensures DateOf(f, init + [last]) ==
                     if f == last.id then DateAfter(DateOf(f, init), last) else DateOf(f, init)
    {
      DateNext(init, last, f);
    }
    assert a'.facts.Keys == b'.facts.Keys;
  }

  lemma DatedUpdate(d: Option<Option<Entry>>, x: Fact, y: Fact, act: Entry)
    requires Dated(d, x, y) && !act.event.AssertEvent?
    ensures Dated(DateAfter(d, act), Updated(x, act.event), Updated(y, Decode(Written(act)).event))
  {
    WrittenIsRead(act);
    hide Decode, Written;
  }

  lemma RereadKind(act: Entry)
    ensures var r := Decode(Written(act));
      r.id == act.id && (r.event.AssertEvent? <==> act.event.AssertEvent?) && (act.event.AssertEvent? ==> r == act) &&
      (Skipped(r) <==> Skipped(act)) && RetractsWith(r.event) == RetractsWith(act.event)
  {}

  lemma DatedStep(init: seq<Entry>, last: Entry, a: Base, b: Base)
    requires AllDated(init, a, b) && Fits(a, last) && !Skipped(last)
    ensures AllDated(init + [last], Step(a, last), Step(b, Decode(Written(last))))
  {
    var id, d, r := last.id, DateOf(last.id, init), Decode(Written(last));
    assert (id in a.facts <==> d.Some?) && a.facts.Keys == b.facts.Keys && a.retracted == b.retracted;
    assert id in a.facts ==> Dated(d, a.facts[id], b.facts[id]);
    RereadKind(last);
    Added(a.facts, id, ROOT);
    Added(b.facts, id, ROOT);
    if last.event.AssertEvent? {
      DatedAssert(init, last, a, b);
    } else {
      hide *;
      UpdateStep(a, last);
      UpdateStep(b, r);
      if id in a.facts {
        DatedUpdate(d, a.facts[id], b.facts[id], last);
        Added(a.facts, id, Updated(a.facts[id], last.event));
        Added(b.facts, id, Updated(b.facts[id], r.event));
      }
      DateStays(d, last);
      DatedAt(init, last, a, b, Step(a, last), Step(b, r));
    }
  }

  lemma DateStays(d: Option<Option<Entry>>, act: Entry)
    requires !act.event.AssertEvent?
    ensures DateAfter(d, act).Some? <==> d.Some?
  {}

  lemma DatedAssert(init: seq<Entry>, last: Entry, a: Base, b: Base)
    requires AllDated(init, a, b) && Fits(a, last) && last.event.AssertEvent?
    ensures AllDated(init + [last], Step(a, last), Step(b, last))
  {
    var id, fact := last.id, last.event.fact;
    var d := DateOf(id, init);
    assert (id in a.facts <==> d.Some?) && a.facts.Keys == b.facts.Keys && a.retracted == b.retracted;
    assert id in a.facts ==> Dated(d, a.facts[id], b.facts[id]) && DateAfter(d, last) == d;
    assert id !in a.facts ==> Assertable(a.facts, fact) && |a.facts| < MAX_FACTS;
    assert id !in a.facts ==> Dated(DateAfter(None, last), fact, fact);
    hide *;
    AssertStep(a, last);
    AssertStep(b, last);
    Added(a.facts, id, fact);
    Added(b.facts, id, fact);
    if id !in a.facts {
      TakenAlike(b.facts, a.facts, id, fact);
      TakenAlike(a.facts, a.facts, id, fact);
    }
    DatedAt(init, last, a, b, Step(a, last), Step(b, last));
  }

  /** Reading the records back gives the state of the acts, up to the times of verifications. */
  lemma {:induction false} DatesTrack(journal: seq<Entry>)
    requires AllFit(NOTHING, journal) && forall act | act in journal :: !Skipped(act)
    ensures AllDated(journal, Fold(NOTHING, journal), Fold(NOTHING, Reread(journal)))
    decreases |journal|
  {
    if journal == [] {
      assert Reread(journal) == [];
    } else {
      var n := |journal| - 1;
      var init, last := journal[..n], journal[n];
      assert journal == init + [last] && last in journal && forall act | act in init :: act in journal;
      assert Reread(journal)[..n] == Reread(init) && Reread(journal)[n] == Decode(Written(last));
      assert Reread(journal)[..n + 1] == Reread(journal) && journal[..n + 1] == journal;
      hide *;
      FitConcat(NOTHING, init, [last]);
      LastFits(Fold(NOTHING, init), last);
      DatesTrack(init);
      FoldNext(NOTHING, journal, n);
      FoldNext(NOTHING, Reread(journal), n);
      DatedStep(init, last, Fold(NOTHING, init), Fold(NOTHING, Reread(init)));
    }
  }

  /** What is booted is what was live exactly when no confidence and no verification time is lost. */
  lemma BootedExactly(journal: seq<Entry>, live: Base)
    requires Recorded(journal, live)
    ensures Fold(NOTHING, Reread(journal)) == live <==> forall f :: !Lost(f, journal) && !Misdated(f, journal)
  {
    var acted, booted := Fold(NOTHING, journal), Fold(NOTHING, Reread(journal));
    hide *;
    RecordedParts(journal, live);
    DatesTrack(journal);
    forall f ensures Lost(f, journal) || Misdated(f, journal) <==>
                     f in live.facts && f in booted.facts && live.facts[f] != booted.facts[f]
    {
      DiffersAt(journal, live, acted, booted, f);
    }
    SameKeys(journal, live, acted, booted);
    if f :| Lost(f, journal) || Misdated(f, journal) {
      assert live.facts != booted.facts;
    } else {
      assert live.facts == booted.facts;
    }
  }

  /** A verification can be dated before 1970, and then comes back with another time. */
  lemma EarlyDatesAreLost()
    ensures Misdated("a", [Entry("a", AssertEvent(ROOT), 1),
                           Entry("a", VerificationEvent(Verified, "", "", "", -5), 2)])
  {
    var first, second := Entry("a", AssertEvent(ROOT), 1), Entry("a", VerificationEvent(Verified, "", "", "", -5), 2);
    assert DateOf("a", []) == None;
    assert [] + [first] == [first] && [first] + [second] == [first, second];
    hide DateOf, Bare;
    DateNext([], first, "a");
    DateNext([first], second, "a");
  }

  lemma SameKeys(journal: seq<Entry>, live: Base, acted: Base, booted: Base)
    requires AllTrack(journal, live, acted) && AllDated(journal, acted, booted)
    ensures live.retracted == booted.retracted && live.facts.Keys == booted.facts.Keys
  {
    hide ManualOf, DateOf;
  }

  lemma DiffersAt(journal: seq<Entry>, live: Base, acted: Base, booted: Base, f: FactId)
    requires AllTrack(journal, live, acted) && AllDated(journal, acted, booted)
    ensures Lost(f, journal) || Misdated(f, journal) <==>
            f in live.facts && f in booted.facts && live.facts[f] != booted.facts[f]
  {
    assert f in acted.facts <==> ManualOf(f, journal).Some?;
    assert f in acted.facts <==> DateOf(f, journal).Some?;
    assert live.facts.Keys == acted.facts.Keys == booted.facts.Keys;
    hide ManualOf, DateOf;
    if f in acted.facts {
      assert Tracks(ManualOf(f, journal), live.facts[f], acted.facts[f]);
      assert Dated(DateOf(f, journal), acted.facts[f], booted.facts[f]);
      hide AllTrack, AllDated, Tracks, Dated, ReadBack;
      FieldsDiffer(ManualOf(f, journal), DateOf(f, journal), live.facts[f], acted.facts[f], booted.facts[f]);
    }
  }

  lemma FieldsDiffer(m: Option<Manual>, d: Option<Option<Entry>>, live: Fact, acted: Fact, booted: Fact)
    requires Tracks(m, live, acted) && Dated(d, acted, booted)
    ensures m.Some? && d.Some?
    ensures live != booted <==> (m.value.taken.Some? && m.value.taken.value != m.value.given) ||
                                (d.value.Some? && !ReadBack(d.value.value))
  {
    assert live.manual == Or(m.value.taken, m.value.given) && booted.manual == m.value.given;
    assert live.verification == acted.verification;
  }

  // ---- Booting what was run --------------------------------------------------------------------------------

  lemma MoreWritten(journal: seq<Entry>, acts: seq<Entry>)
    ensures AllWritten(journal + acts) == AllWritten(journal) + AllWritten(acts)
  {}

  /** Handles operations on a new engine, and keeps the records. */
  method HandleAll(ops: seq<Op>, times: seq<nat>, ats: seq<int>, now: nat)
    returns (live: Engine, records: seq<Record>, ghost journal: seq<Entry>)
    requires |times| == |ops| == |ats| && (forall i, j | 0 <= i <= j < |times| :: times[i] <= times[j])
    requires forall i | 0 <= i < |times| :: 0 < times[i] <= now && times[i] <= ats[i]
    requires forall op: Op | op in ops && op.Assert? :: op.id != ""
    ensures live.Valid() && fresh(live) && fresh(live.dominators) && live.clock <= now
    ensures BaseOf(live) == AfterOps(ops, times) && IsJournal(ops, times, ats, journal)
    ensures records == AllWritten(journal) && Recorded(journal, BaseOf(live))
  {
    hide *;
    live := new Engine();
    records, journal := [], [];
    NothingRecorded();
    Starting(live, ops, times, ats);
    for i := 0 to |ops|
      invariant live.Valid() && fresh(live) && fresh(live.dominators) && live.clock <= now
      invariant forall k | i <= k < |times| :: live.clock <= times[k]
      invariant BaseOf(live) == AfterOps(ops[..i], times[..i]) && IsJournal(ops[..i], times[..i], ats[..i], journal)
      invariant records == AllWritten(journal) && Recorded(journal, BaseOf(live))
    {
      assert ops[i] in ops;
      ghost var before := BaseOf(live);
      var more;
      ghost var acts;
      more, acts := Handle(live, ops[i], times[i], ats[i]);
      PerformedIsRecorded(journal, before, ops[i], times[i], ats[i], acts);
      JournalGrows(ops, times, ats, i, journal, acts);
      MoreWritten(journal, acts);
      records, journal := records + more, journal + acts;
    }
    assert ops[..|ops|] == ops && times[..|times|] == times && ats[..|ats|] == ats;
  }

  lemma Starting(e: Engine, ops: seq<Op>, times: seq<nat>, ats: seq<int>)
    requires e.facts == map[] && e.retracted == map[] && |times| == |ops| == |ats|
    ensures BaseOf(e) == NOTHING == AfterOps(ops[..0], times[..0]) && IsJournal(ops[..0], times[..0], ats[..0], [])
    ensures AllWritten([]) == []
  {}

  /** Runs operations on one engine and boots another from the records their handlers wrote. The two agree exactly when
      no confidence entry is the last word on a root's confidence, unless it repeats what the root was given, and no
      fact's last verification carries a time that is not positive, unless that is the time of its record. */
  method RunThenBoot(ops: seq<Op>, times: seq<nat>, ats: seq<int>, now: nat)
    returns (live: Engine, booted: Engine, ghost journal: seq<Entry>)
    requires |times| == |ops| == |ats| && (forall i, j | 0 <= i <= j < |times| :: times[i] <= times[j])
    requires forall i | 0 <= i < |times| :: 0 < times[i] <= now && times[i] <= ats[i]
    requires forall op: Op | op in ops && op.Assert? :: op.id != ""
    ensures live.Valid() && booted.Valid() && BaseOf(live) == AfterOps(ops, times)
    ensures IsJournal(ops, times, ats, journal)
    ensures BaseOf(booted) == BaseOf(live) <==> forall f :: !Lost(f, journal) && !Misdated(f, journal)
    ensures BaseOf(booted) == BaseOf(live) && Quiet(live.W(), now) ==> forall f | f in live.facts ::
      f in live.derived && f in booted.derived && booted.derived[f] == live.derived[f]
  {
    hide *;
    var records;
    live, records, journal := HandleAll(ops, times, ats, now);
    RecordsHaveTimes(journal, BaseOf(live));
    NoSnapshot(now, Decoded(records));
    booted := GetEngine(None, records, now);
    BootedExactly(journal, BaseOf(live));
    BasesAre(live, booted);
    if BaseOf(booted) == BaseOf(live) && Quiet(live.W(), now) {
      SameEverywhere(live, booted, now);
    }
  }

  lemma RecordsHaveTimes(journal: seq<Entry>, live: Base)
    requires Recorded(journal, live)
    ensures (forall r | r in AllWritten(journal) :: TimesWritten(r)) && Decoded(AllWritten(journal)) == Reread(journal)
  {
    hide Fold, AllTrack, AllFit, Decode, Written, TimesWritten;
    forall r | r in AllWritten(journal) ensures TimesWritten(r) {
      var i :| 0 <= i < |journal| && AllWritten(journal)[i] == r;
      assert journal[i] in journal;
    }
  }

  lemma NoSnapshot(now: int, journal: seq<Entry>)
    ensures Restorable(None, now) && StartOf(None) == NOTHING && HistoryFor(None, journal) == journal
  {}

  lemma BasesAre(a: Engine, b: Engine)
    ensures BaseOf(a) == Base(a.facts, a.retracted) && BaseOf(b) == Base(b.facts, b.retracted)
  {}
}
