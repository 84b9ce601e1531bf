/** Rebuilding a session's engine: a snapshot, if there is one, and then the journal. */
module Replay {
  import opened Facts
  import opened Semantics
  import opened Engines
  import opened Exactness

  datatype Event =
    | AssertEvent(fact: Fact)
    | InvalidateEvent
    | RetractEvent(reason: string)
    | ReviewEvent(status: ReviewStatus, reason: string, reviewedAt: int)
    | ExpiredEvent
    | VerificationEvent(verdict: VerificationStatus, method_: string, sourceRef: string, why: string, verifiedAt: int)
    | ConfidenceEvent(confidence: Status)
    | OtherEvent

  datatype Entry = Entry(id: FactId, event: Event, timestamp: int)

  /** A journal entry as stored: payload fields may be missing. */
  datatype Record =
    | Plain(entry: Entry)
    | RetractRecord(id: FactId, reason: Option<string>, timestamp: int)
    | ReviewRecord(id: FactId,
                   status: Option<ReviewStatus>, comment: Option<string>, reviewedAt: Option<int>, timestamp: int)
    | VerificationRecord(id: FactId,
                         verdict: Option<VerificationStatus>, method_: Option<string>, sourceRef: Option<string>,
                         why: Option<string>, verifiedAt: Option<int>, timestamp: int)

  function Or<T>(value: Option<T>, otherwise: T): T {
    if value.Some? then value.value else otherwise
  }

  /** Missing texts read as blank, missing statuses as none, missing times as the time of the record; so does a
      verification time that is not positive. */
  function Decode(r: Record): Entry {
    match r
    case Plain(entry) => entry
    case RetractRecord(id, reason, t) => Entry(id, RetractEvent(Or(reason, "")), t)
    case ReviewRecord(id, status, comment, at, t) =>
      Entry(id, ReviewEvent(Or(status, NoReview), Or(comment, ""), Or(at, t)), t)
    case VerificationRecord(id, verdict, method_, sourceRef, why, at, t) =>
      Entry(id, VerificationEvent(Or(verdict, Unknown), Or(method_, ""), Or(sourceRef, ""), Or(why, ""),
                                  if at.Some? && at.value > 0 then at.value else t), t)
  }

  ghost function Decoded(records: seq<Record>): (entries: seq<Entry>)
    ensures |entries| == |records|
  {
    seq(|records|, i requires 0 <= i < |records| => Decode(records[i]))
  }

  // ---- One entry -----------------------------------------------------------------------------------------

  /** What replaying an entry does to the record of a fact the engine already holds. */
  ghost function Updated(x: Fact, event: Event): Fact {
    match event
    case InvalidateEvent => if x.isRoot then x.(manual := INVALID) else x
    case ReviewEvent(status, reason, at) => if status == NoReview then x else Reviewed(x, status, reason, at)
    case VerificationEvent(verdict, method_, sourceRef, why, at) =>
      if verdict == Unknown then x
      else x.(verification := Reverified(x.verification, verdict, method_, sourceRef, why, at))
    case _ => x
  }

  /** The reason an entry retracts its fact with, if it does. */
  ghost function RetractsWith(event: Event): Option<string> {
    match event
    case RetractEvent(reason) => Some(if reason == "" then "retracted" else reason)
    case ExpiredEvent => Some("expired")
    case _ => None
  }

  /** Expiries and verifications without a fact id are skipped. */
  ghost predicate Skipped(entry: Entry) {
    entry.id == "" && (entry.event.ExpiredEvent? || entry.event.VerificationEvent?)
  }

  /** What replaying one entry does. */
  ghost function Step(b: Base, entry: Entry): Base {
    if Skipped(entry) then b
    else if entry.event.AssertEvent? then b.(facts := Offered(b.facts, entry.id, entry.event.fact))
    else if entry.id !in b.facts then b
    else Base(b.facts[entry.id := Updated(b.facts[entry.id], entry.event)],
              match RetractsWith(entry.event)
              case Some(reason) => b.retracted[entry.id := reason]
              case None => b.retracted)
  }

  /** The engine operation that an entry stands for. */
  ghost function OperationOf(entry: Entry): Op {
    match entry.event
    case AssertEvent(fact) => Assert(entry.id, fact)
    case InvalidateEvent => Invalidate(entry.id)
    case RetractEvent(reason) => Retract(entry.id, reason)
    case ReviewEvent(status, reason, at) => ReviewFact(entry.id, status, reason, at)
    case ExpiredEvent => Retract(entry.id, "expired")
    case VerificationEvent(verdict, method_, sourceRef, why, at) =>
      Verify(entry.id, verdict, method_, sourceRef, why, at)
    case ConfidenceEvent(confidence) => SetConfidence(entry.id, confidence)
    case OtherEvent => Query(entry.id)
  }

  /** Replaying an entry with its times recorded does what its operation did, unless the entry is skipped. A confidence
      entry is ignored, so it is replayed rightly only when it changed nothing. */
  lemma StepIsOperation(b: Base, entry: Entry, now: int)
    requires !Skipped(entry) && Stamped(entry)
    ensures !entry.event.ConfidenceEvent? ==> Step(b, entry) == AfterOp(b, OperationOf(entry), now)
    ensures entry.event.ConfidenceEvent? ==> Step(b, entry) == b
    ensures entry.event.ConfidenceEvent? ==>
              (AfterOp(b, OperationOf(entry), now) == b <==>
               !(entry.id in b.facts && b.facts[entry.id].isRoot && b.facts[entry.id].manual != entry.event.confidence))
  {
    hide Reviewed, Reverified, Offered;
    if entry.id in b.facts {
      assert b.facts[entry.id := b.facts[entry.id]] == b.facts;
      if entry.event.ConfidenceEvent? && b.facts[entry.id].isRoot &&
          b.facts[entry.id].manual != entry.event.confidence {
        var facts' := b.facts[entry.id := b.facts[entry.id].(manual := entry.event.confidence)];
        assert facts'[entry.id].manual != b.facts[entry.id].manual;
      }
    }
  }

  ghost function Fold(b: Base, entries: seq<Entry>): Base
    decreases |entries|
  {
    if entries == [] then b else Fold(Step(b, entries[0]), entries[1..])
  }

  lemma {:induction false} FoldConcat(b: Base, s: seq<Entry>, t: seq<Entry>)
    ensures Fold(b, s + t) == Fold(Fold(b, s), t)
    decreases |s|
  {
    if s == [] {
      assert s + t == t;
    } else {
      FoldConcat(Step(b, s[0]), s[1..], t);
      assert (s + t)[1..] == s[1..] + t && (s + t)[0] == s[0];
    }
  }

  // ---- Histories -----------------------------------------------------------------------------------------

  /** The entry's operation reported no error. */
  ghost predicate Succeeds(b: Base, entry: Entry) {
    match entry.event
    case AssertEvent(fact) =>
      |b.facts| < MAX_FACTS && if entry.id in b.facts then SameContent(b.facts[entry.id], fact)
        else Assertable(b.facts, fact)
    case InvalidateEvent => entry.id in b.facts && b.facts[entry.id].isRoot
    case ConfidenceEvent(_) => true
    case OtherEvent => true
    case _ => entry.id in b.facts && !Skipped(entry)
  }

  ghost predicate AllSucceed(b: Base, entries: seq<Entry>)
    decreases |entries|
  {
    entries == [] || (Succeeds(b, entries[0]) && AllSucceed(Step(b, entries[0]), entries[1..]))
  }

  lemma {:induction false} SucceedConcat(b: Base, s: seq<Entry>, t: seq<Entry>)
    requires AllSucceed(b, s + t)
    ensures AllSucceed(b, s) && AllSucceed(Fold(b, s), t)
    decreases |s|
  {
    if s == [] {
      assert s + t == t;
    } else {
      assert (s + t)[1..] == s[1..] + t && (s + t)[0] == s[0];
      SucceedConcat(Step(b, s[0]), s[1..], t);
    }
  }

  lemma {:induction false} SucceedJoin(b: Base, s: seq<Entry>, t: seq<Entry>)
    requires AllSucceed(b, s) && AllSucceed(Fold(b, s), t)
    ensures AllSucceed(b, s + t)
    decreases |s|
  {
    if s == [] {
      assert s + t == t;
    } else {
      assert (s + t)[1..] == s[1..] + t && (s + t)[0] == s[0];
      SucceedJoin(Step(b, s[0]), s[1..], t);
    }
  }

  /** The fact does not claim to be cleared by a review and to be waiting for one at the same time. */
  ghost predicate ReviewSettled(x: Fact) {
    x.review.status == Approved || x.review.status == Waived ==> !x.requiresHumanReview
  }

  ghost predicate SettledEntry(entry: Entry) {
    entry.event.AssertEvent? ==> ReviewSettled(entry.event.fact)
  }

  ghost predicate SettledBase(b: Base) {
    forall f | f in b.facts :: ReviewSettled(b.facts[f])
  }

  // ---- One fact's part of the state ----------------------------------------------------------------------

  datatype Cell = Cell(fact: Option<Fact>, reason: Option<string>)

  ghost function CellOf(b: Base, f: FactId): Cell {
    Cell(if f in b.facts then Some(b.facts[f]) else None, if f in b.retracted then Some(b.retracted[f]) else None)
  }

  ghost function CellStep(c: Cell, f: FactId, entry: Entry): Cell {
    if entry.id != f || Skipped(entry) then c
    else match c.fact
      case None => if entry.event.AssertEvent? then c.(fact := Some(entry.event.fact)) else c
      case Some(x) =>
        Cell(Some(Updated(x, entry.event)),
             if RetractsWith(entry.event).Some? then RetractsWith(entry.event) else c.reason)
  }

  ghost function CellFold(c: Cell, f: FactId, entries: seq<Entry>): Cell
    decreases |entries|
  {
    if entries == [] then c else CellFold(CellStep(c, f, entries[0]), f, entries[1..])
  }

  /** Each assertion either is admitted or finds its fact already there. */
  ghost predicate AllFit(b: Base, entries: seq<Entry>)
    decreases |entries|
  {
    entries == [] ||
    (Fits(b, entries[0]) && AllFit(Step(b, entries[0]), entries[1..]))
  }

  ghost predicate Fits(b: Base, entry: Entry) {
    entry.event.AssertEvent? && entry.id !in b.facts ==> entry.id in Step(b, entry).facts
  }

  lemma {:induction false} FitConcat(b: Base, s: seq<Entry>, t: seq<Entry>)
    ensures AllFit(b, s + t) <==> AllFit(b, s) && AllFit(Fold(b, s), t)
    decreases |s|
  {
    if s == [] {
      assert s + t == t;
    } else {
      assert (s + t)[1..] == s[1..] + t && (s + t)[0] == s[0];
      FitConcat(Step(b, s[0]), s[1..], t);
    }
  }

  lemma StepCell(b: Base, entry: Entry, f: FactId)
    requires entry.event.AssertEvent? && entry.id !in b.facts ==> entry.id in Step(b, entry).facts
    ensures CellOf(Step(b, entry), f) == CellStep(CellOf(b, f), f, entry)
  {
    hide Assertable, Reviewed, Reverified;
  }

  /** Facts do not interact: the state after a replay, seen at one fact, is that fact's own replay. */
  lemma {:induction false} FoldCell(b: Base, entries: seq<Entry>, f: FactId)
    requires AllFit(b, entries)
    ensures CellOf(Fold(b, entries), f) == CellFold(CellOf(b, f), f, entries)
    decreases |entries|
  {
    if entries != [] {
      StepCell(b, entries[0], f);
      FoldCell(Step(b, entries[0]), entries[1..], f);
    }
  }

  lemma {:induction false} SuccessFits(b: Base, entries: seq<Entry>)
    requires AllSucceed(b, entries)
    ensures AllFit(b, entries)
    decreases |entries|
  {
    if entries != [] {
      SuccessFits(Step(b, entries[0]), entries[1..]);
    }
  }

  lemma {:induction false} KnownFits(b: Base, entries: seq<Entry>)
    requires forall k | 0 <= k < |entries| && entries[k].event.AssertEvent? :: entries[k].id in b.facts
    ensures AllFit(b, entries)
    decreases |entries|
  {
    if entries != [] {
      var b' := Step(b, entries[0]);
      forall k | 0 <= k < |entries[1..]| && entries[1..][k].event.AssertEvent? ensures entries[1..][k].id in b'.facts {
        assert entries[1..][k] == entries[k + 1];
      }
      KnownFits(b', entries[1..]);
    }
  }

  // ---- Two runs of the same entries on a fact ------------------------------------------------------------

  ghost function Updates(x: Fact, f: FactId, entries: seq<Entry>): Fact
    decreases |entries|
  {
    if entries == [] then x else Apply1(Updates(x, f, entries[..|entries| - 1]), f, entries[|entries| - 1])
  }

  ghost function Apply1(x: Fact, f: FactId, entry: Entry): Fact {
    if entry.id != f || Skipped(entry) then x else Updated(x, entry.event)
  }

  ghost function LastReason(r: Option<string>, f: FactId, entries: seq<Entry>): Option<string>
    decreases |entries|
  {
    if entries == [] then r
    else
      var last := entries[|entries| - 1];
      if last.id == f && !Skipped(last) && RetractsWith(last.event).Some? then RetractsWith(last.event)
      else LastReason(r, f, entries[..|entries| - 1])
  }

  lemma {:induction false} CellFoldIs(c: Cell, f: FactId, entries: seq<Entry>)
    requires c.fact.Some?
    ensures CellFold(c, f, entries) == Cell(Some(Updates(c.fact.value, f, entries)), LastReason(c.reason, f, entries))
    decreases |entries|
  {
    if entries != [] {
      var init, last := entries[..|entries| - 1], entries[|entries| - 1];
      assert entries == init + [last];
      CellFoldIs(c, f, init);
      CellFoldSnoc(c, f, init, last);
    }
  }

  lemma {:induction false} CellFoldSnoc(c: Cell, f: FactId, init: seq<Entry>, last: Entry)
    ensures CellFold(c, f, init + [last]) == CellStep(CellFold(c, f, init), f, last)
    decreases |init|
  {
    if init == [] {
      assert (init + [last])[1..] == [];
    } else {
      assert (init + [last])[1..] == init[1..] + [last];
      CellFoldSnoc(CellStep(c, f, init[0]), f, init[1..], last);
    }
  }

  /** A value that each entry either sets to a constant or leaves alone: two runs end alike, or neither moved it. */
  ghost predicate Settles<T>(a: T, b: T, a': T, b': T) {
    a' == b' || (a' == a && b' == b)
  }

  /** Everything but the review: two runs of the same entries settle each part. */
  ghost predicate PartsSettle(a: Fact, b: Fact, a': Fact, b': Fact) {
    (a.isRoot == b.isRoot ==> Settles(a.manual, b.manual, a'.manual, b'.manual)) &&
    Settles(a.verification.status, b.verification.status, a'.verification.status, b'.verification.status) &&
    Settles(a.verification.method_, b.verification.method_, a'.verification.method_, b'.verification.method_) &&
    Settles(a.verification.sourceRef, b.verification.sourceRef, a'.verification.sourceRef, b'.verification.sourceRef) &&
    Settles(a.verification.reason, b.verification.reason, a'.verification.reason, b'.verification.reason) &&
    Settles(a.verification.verifiedAt, b.verification.verifiedAt, a'.verification.verifiedAt,
            b'.verification.verifiedAt) &&
    Settles(a.verification.required, b.verification.required, a'.verification.required, b'.verification.required)
  }

  /** What no entry changes once the fact is there. */
  ghost predicate SameFixed(a: Fact, b: Fact) {
    b == a.(manual := b.manual, verification := b.verification, review := b.review,
            requiresHumanReview := b.requiresHumanReview)
  }

  lemma {:induction false} PartsTwice(a: Fact, b: Fact, f: FactId, entries: seq<Entry>)
    ensures PartsSettle(a, b, Updates(a, f, entries), Updates(b, f, entries))
    ensures SameFixed(a, Updates(a, f, entries)) && SameFixed(b, Updates(b, f, entries))
    decreases |entries|
  {
    if entries != [] {
      var init, last := entries[..|entries| - 1], entries[|entries| - 1];
      PartsTwice(a, b, f, init);
      PartsStep(a, b, Updates(a, f, init), Updates(b, f, init), f, last);
      hide PartsSettle, SameFixed, Apply1;
    }
  }

  lemma PartsStep(a: Fact, b: Fact, a': Fact, b': Fact, f: FactId, entry: Entry)
    requires PartsSettle(a, b, a', b') && SameFixed(a, a') && SameFixed(b, b')
    ensures PartsSettle(a, b, Apply1(a', f, entry), Apply1(b', f, entry))
    ensures SameFixed(a, Apply1(a', f, entry)) && SameFixed(b, Apply1(b', f, entry))
  {
    if entry.id == f && !Skipped(entry) {
      match entry.event
      case ReviewEvent(status, reason, at) =>
        ReviewLeaves(a', status, reason, at);
        ReviewLeaves(b', status, reason, at);
        hide Reviewed;
      case VerificationEvent(_, _, _, _, _) =>
        hide Reviewed;
      case _ =>
        hide Reviewed, Reverified;
    }
  }

  lemma ReviewLeaves(x: Fact, status: ReviewStatus, reason: string, at: int)
    ensures var y := Reviewed(x, status, reason, at);
            y == x.(review := y.review, requiresHumanReview := y.requiresHumanReview)
  {}

  ghost predicate Reviews(f: FactId, entry: Entry) {
    entry.id == f && entry.event.ReviewEvent? && entry.event.status != NoReview
  }

  ghost predicate NoReviews(f: FactId, entries: seq<Entry>) {
    forall e | e in entries :: !Reviews(f, e)
  }

  ghost predicate OnlyReviews(f: FactId, entries: seq<Entry>, status: ReviewStatus) {
    forall e | e in entries && Reviews(f, e) :: e.event.status == status
  }

  /** Two runs end with the same review; or there was none; or every review asked for the status both end with. */
  ghost predicate ReviewsSettle(f: FactId, entries: seq<Entry>, a: Fact, b: Fact, a': Fact, b': Fact) {
    a'.review == b'.review || (NoReviews(f, entries) && a'.review == a.review && b'.review == b.review) ||
    (a'.review.status == b'.review.status && OnlyReviews(f, entries, a'.review.status))
  }

  lemma {:induction false} ReviewsTwice(a: Fact, b: Fact, f: FactId, entries: seq<Entry>)
    ensures ReviewsSettle(f, entries, a, b, Updates(a, f, entries), Updates(b, f, entries))
    decreases |entries|
  {
    if entries != [] {
      var init, last := entries[..|entries| - 1], entries[|entries| - 1];
      ReviewsTwice(a, b, f, init);
      ReviewsStep(a, b, f, init, last, Updates(a, f, init), Updates(b, f, init));
      assert entries == init + [last];
      hide Apply1, ReviewsSettle;
    }
  }

  lemma ReviewsStep(a: Fact, b: Fact, f: FactId, init: seq<Entry>, last: Entry, a': Fact, b': Fact)
    requires ReviewsSettle(f, init, a, b, a', b')
    ensures ReviewsSettle(f, init + [last], a, b, Apply1(a', f, last), Apply1(b', f, last))
  {
    ReviewAfter(a', f, last);
    ReviewAfter(b', f, last);
    hide Apply1, Reviews, NoReviews, OnlyReviews;
    OnlyGrows(f, init, last);
  }

  lemma ReviewAfter(x: Fact, f: FactId, entry: Entry)
    ensures Apply1(x, f, entry).review ==
      if Reviews(f, entry) && x.review.status != entry.event.status
      then Review(entry.event.status, entry.event.reason, entry.event.reviewedAt) else x.review
    ensures Reviews(f, entry) ==> entry.event.ReviewEvent?
  {}

  lemma OnlyGrows(f: FactId, init: seq<Entry>, last: Entry)
    ensures Reviews(f, last) ==> last.event.ReviewEvent?
    ensures forall status :: OnlyReviews(f, init, status) && (Reviews(f, last) ==> last.event.status == status) ==>
      OnlyReviews(f, init + [last], status)
    ensures NoReviews(f, init) && !Reviews(f, last) ==> NoReviews(f, init + [last])
    ensures NoReviews(f, init) && Reviews(f, last) ==> OnlyReviews(f, init + [last], last.event.status)
  {
    assert forall e :: e in init + [last] <==> e in init || e == last;
  }

  /** Reviews asking for the current status change nothing. */
  lemma {:induction false} SameReviewIsKept(x: Fact, f: FactId, entries: seq<Entry>)
    requires OnlyReviews(f, entries, x.review.status)
    ensures Updates(x, f, entries).review == x.review
    decreases |entries|
  {
    if entries != [] {
      var init, last := entries[..|entries| - 1], entries[|entries| - 1];
      assert entries == init + [last];
      SameReviewIsKept(x, f, init);
    }
  }

  ghost predicate Clears(f: FactId, entry: Entry) {
    Reviews(f, entry) && (entry.event.status == Approved || entry.event.status == Waived)
  }

  /** The need for a human review goes exactly when some entry clears the fact. */
  lemma {:induction false} ClearedOrKept(x: Fact, f: FactId, entries: seq<Entry>)
    requires ReviewSettled(x)
    ensures ReviewSettled(Updates(x, f, entries))
    ensures Updates(x, f, entries).requiresHumanReview <==> x.requiresHumanReview && forall e | e in entries ::
      !Clears(f, e)
    decreases |entries|
  {
    if entries != [] {
      var init, last := entries[..|entries| - 1], entries[|entries| - 1];
      assert entries == init + [last];
      ClearedOrKept(x, f, init);
      ClearStep(Updates(x, f, init), f, last);
      assert (forall e | e in entries :: !Clears(f, e)) <==>
        (forall e | e in init :: !Clears(f, e)) && !Clears(f, last) by {
        assert forall e :: e in entries <==> e in init || e == last;
        hide Clears;
      }
      hide Apply1, Clears, ReviewSettled;
    }
  }

  lemma ClearStep(x: Fact, f: FactId, entry: Entry)
    requires ReviewSettled(x)
    ensures ReviewSettled(Apply1(x, f, entry))
    ensures Apply1(x, f, entry).requiresHumanReview <==> x.requiresHumanReview && !Clears(f, entry)
  {}

  lemma {:induction false} ReasonTwice(r: Option<string>, f: FactId, entries: seq<Entry>)
    ensures LastReason(LastReason(r, f, entries), f, entries) == LastReason(r, f, entries)
    decreases |entries|
  {
    if entries != [] {
      var init := entries[..|entries| - 1];
      ReasonSettles(r, LastReason(r, f, init), f, init);
    }
  }

  lemma {:induction false} ReasonSettles(r: Option<string>, q: Option<string>, f: FactId, entries: seq<Entry>)
    ensures Settles(r, q, LastReason(r, f, entries), LastReason(q, f, entries))
    decreases |entries|
  {
    if entries != [] {
      ReasonSettles(r, q, f, entries[..|entries| - 1]);
    }
  }

  /** Running the same entries again over their own result changes nothing. */
  lemma UpdatesTwice(x: Fact, f: FactId, entries: seq<Entry>)
    requires ReviewSettled(x)
    ensures Updates(Updates(x, f, entries), f, entries) == Updates(x, f, entries)
  {
    var y := Updates(x, f, entries);
    var z := Updates(y, f, entries);
    PartsTwice(x, y, f, entries);
    ReviewsTwice(x, y, f, entries);
    ClearedOrKept(x, f, entries);
    ClearedOrKept(y, f, entries);
    if OnlyReviews(f, entries, y.review.status) {
      SameReviewIsKept(y, f, entries);
    }
    hide Updates, OnlyReviews, NoReviews;
    assert z.review == y.review;
    assert z.verification == y.verification;
  }

  // ---- Overlapping replay --------------------------------------------------------------------------------

  lemma StepSettled(b: Base, entry: Entry)
    requires SettledBase(b) && SettledEntry(entry)
    ensures SettledBase(Step(b, entry))
  {
    var b' := Step(b, entry);
    forall f | f in b'.facts ensures ReviewSettled(b'.facts[f]) {
      if f in b.facts {
        ClearStep(b.facts[f], f, entry);
      }
    }
  }

  lemma {:induction false} FoldSettled(b: Base, entries: seq<Entry>)
    requires SettledBase(b) && forall e | e in entries :: SettledEntry(e)
    ensures SettledBase(Fold(b, entries))
    decreases |entries|
  {
    hide SettledBase, SettledEntry, Step;
    if entries != [] {
      StepSettled(b, entries[0]);
      FoldSettled(Step(b, entries[0]), entries[1..]);
    }
  }

  lemma {:induction false} CellFoldKeepsFact(c: Cell, f: FactId, entries: seq<Entry>)
    requires c.fact.Some?
    ensures CellFold(c, f, entries).fact.Some?
    decreases |entries|
  {
    if entries != [] {
      CellFoldKeepsFact(CellStep(c, f, entries[0]), f, entries[1..]);
    }
  }

  /** Replaying entries over their own result changes nothing, fact by fact. */
  lemma {:induction false} CellTwice(b: Base, entries: seq<Entry>, f: FactId)
    requires AllSucceed(b, entries) && SettledBase(b) && forall e | e in entries :: SettledEntry(e)
    ensures var c := CellFold(CellOf(b, f), f, entries); CellFold(c, f, entries) == c
    decreases |entries|
  {
    var c0 := CellOf(b, f);
    var c := CellFold(c0, f, entries);
    if c0.fact.Some? {
      CellFoldIs(c0, f, entries);
      CellFoldIs(c, f, entries);
      UpdatesTwice(c0.fact.value, f, entries);
      ReasonTwice(c0.reason, f, entries);
    } else if entries != [] {
      var first, rest := entries[0], entries[1..];
      FirstFits(b, entries);
      StepCell(b, first, f);
      StepSettled(b, first);
      CellTwice(Step(b, first), rest, f);
      UntouchedByFirst(b, first, rest, f);
    }
  }

  lemma FirstFits(b: Base, entries: seq<Entry>)
    requires entries != [] && AllSucceed(b, entries)
    ensures entries[0].event.AssertEvent? && entries[0].id !in b.facts ==> entries[0].id in Step(b, entries[0]).facts
  {
    SuccessFits(b, entries);
  }

  /** The entry that came first for a fact not there yet has nothing to do the second time. */
  lemma UntouchedByFirst(b: Base, first: Entry, rest: seq<Entry>, f: FactId)
    requires Succeeds(b, first) && f !in b.facts
    ensures var c := CellFold(CellStep(CellOf(b, f), f, first), f, rest); CellStep(c, f, first) == c
  {
    var c1 := CellStep(CellOf(b, f), f, first);
    if c1.fact.Some? {
      CellFoldKeepsFact(c1, f, rest);
    }
    assert first.id == f ==> first.event.AssertEvent? || first.event.OtherEvent? || first.event.ConfidenceEvent?;
  }

  lemma {:induction false} SucceededAreKnown(b: Base, entries: seq<Entry>)
    requires AllSucceed(b, entries)
    ensures b.facts.Keys <= Fold(b, entries).facts.Keys
    ensures forall k | 0 <= k < |entries| && entries[k].event.AssertEvent? :: entries[k].id in Fold(b, entries).facts
    decreases |entries|
  {
    if entries != [] {
      var b' := Step(b, entries[0]);
      FirstFits(b, entries);
      SucceededAreKnown(b', entries[1..]);
      assert b.facts.Keys <= b'.facts.Keys;
      assert entries[0].event.AssertEvent? ==> entries[0].id in b'.facts;
      forall k | 0 <= k < |entries| && entries[k].event.AssertEvent? ensures entries[k].id in Fold(b, entries).facts {
        if k > 0 {
          assert entries[k] == entries[1..][k - 1];
        }
      }
    }
  }

  lemma SameCellsSameBase(a: Base, b: Base)
    requires forall f :: CellOf(a, f) == CellOf(b, f)
    ensures a == b
  {
    forall f ensures (f in a.facts <==> f in b.facts) && (f in a.retracted <==> f in b.retracted) {
      assert CellOf(a, f) == CellOf(b, f);
    }
    forall f | f in a.facts ensures a.facts[f] == b.facts[f] {
      assert CellOf(a, f) == CellOf(b, f);
    }
    forall f | f in a.retracted ensures a.retracted[f] == b.retracted[f] {
      assert CellOf(a, f) == CellOf(b, f);
    }
    assert a.facts == b.facts && a.retracted == b.retracted;
  }

  /** Replaying a stretch of history over the state it led to changes nothing. */
  lemma FoldTwice(b: Base, entries: seq<Entry>)
    requires AllSucceed(b, entries) && SettledBase(b) && forall e | e in entries :: SettledEntry(e)
    ensures Fold(Fold(b, entries), entries) == Fold(b, entries)
  {
    var b1 := Fold(b, entries);
    SuccessFits(b, entries);
    SucceededAreKnown(b, entries);
    KnownFits(b1, entries);
    hide AllSucceed, SettledBase, SettledEntry, Fold, CellOf, AllFit;
    forall f ensures CellOf(Fold(b1, entries), f) == CellOf(b1, f) {
      FoldCell(b, entries, f);
      FoldCell(b1, entries, f);
      CellTwice(b, entries, f);
    }
    SameCellsSameBase(Fold(b1, entries), b1);
  }

  lemma ThreeParts(journal: seq<Entry>, i: nat, j: nat)
    requires i <= j <= |journal|
    ensures journal == journal[..i] + (journal[i..j] + journal[j..])
    ensures journal[..j] == journal[..i] + journal[i..j] && journal[i..] == journal[i..j] + journal[j..]
    ensures forall e | e in journal[..i] || e in journal[i..j] :: e in journal
  {}

  const NOTHING: Base := Base(map[], map[])

  /** Overlapping replay is harmless: restoring the state after the first j entries and replaying from any earlier
      entry i gives what one full replay gives. */
  lemma OverlappingReplay(journal: seq<Entry>, i: nat, j: nat)
    requires i <= j <= |journal| && AllSucceed(NOTHING, journal) && forall e: Entry | e in journal :: SettledEntry(e)
    ensures Fold(Fold(NOTHING, journal[..j]), journal[i..]) == Fold(NOTHING, journal)
  {
    var before, overlap, after := journal[..i], journal[i..j], journal[j..];
    var b := Fold(NOTHING, before);
    assert SettledBase(NOTHING);
    hide *;
    ThreeParts(journal, i, j);
    SucceedConcat(NOTHING, before, overlap + after);
    SucceedConcat(b, overlap, after);
    FoldSettled(NOTHING, before);
    FoldConcat(NOTHING, before, overlap + after);
    FoldConcat(NOTHING, before, overlap);
    FoldConcat(b, overlap, after);
    FoldConcat(Fold(b, overlap), overlap, after);
    FoldTwice(b, overlap);
  }

  // ---- When overlap does harm ----------------------------------------------------------------------------

  /** The history so far, the assertion of one more fact, and what came after it. */
  ghost function Continued(before: seq<Entry>, id: FactId, x: Fact, t: int, tail: seq<Entry>): seq<Entry> {
    before + ([Entry(id, AssertEvent(x), t)] + tail)
  }

  /** A successful continuation of the history, asserting no other unsettled fact, that an overlapping replay does not
      reproduce. */
  ghost predicate Diverges(before: seq<Entry>, id: FactId, x: Fact, t: int, tail: seq<Entry>, i: nat, j: nat) {
    var journal := Continued(before, id, x, t, tail);
    AllSucceed(NOTHING, journal) && (forall e | e in tail :: SettledEntry(e)) && i <= j <= |journal| &&
    Fold(Fold(NOTHING, journal[..j]), journal[i..]) != Fold(NOTHING, journal)
  }

  /** x is a new fact that the engine takes after this history. */
  ghost predicate Admissible(before: seq<Entry>, id: FactId, x: Fact) {
    AllSucceed(NOTHING, before) && (forall e | e in before :: SettledEntry(e)) &&
    id !in Fold(NOTHING, before).facts && |Fold(NOTHING, before).facts| < MAX_FACTS &&
    Assertable(Fold(NOTHING, before).facts, x)
  }

  /** The condition on asserted facts is exactly what it takes: whatever came before, a new fact breaks some overlapping
      replay precisely when it is asserted as cleared by a review and as still requiring one. */
  lemma HarmlessExactly(before: seq<Entry>, id: FactId, x: Fact, t: int)
    requires Admissible(before, id, x)
    ensures ReviewSettled(x) <==> forall tail, i, j :: !Diverges(before, id, x, t, tail, i, j)
  {
    if ReviewSettled(x) {
      forall tail, i, j ensures !Diverges(before, id, x, t, tail, i, j) {
        if Diverges(before, id, x, t, tail, i, j) {
          SettledNeverDiverges(before, id, x, t, tail, i, j);
        }
      }
    } else {
      UnsettledDiverges(before, id, x, t);
    }
  }

  lemma SettledNeverDiverges(before: seq<Entry>, id: FactId, x: Fact, t: int, tail: seq<Entry>, i: nat, j: nat)
    requires ReviewSettled(x) && forall e | e in before :: SettledEntry(e)
    ensures !Diverges(before, id, x, t, tail, i, j)
  {
    if Diverges(before, id, x, t, tail, i, j) {
      var journal := Continued(before, id, x, t, tail);
      hide AllSucceed, Fold;
      forall e | e in journal ensures SettledEntry(e) {
        assert e in before || e == Entry(id, AssertEvent(x), t) || e in tail;
      }
      OverlappingReplay(journal, i, j);
    }
  }

  ghost function ApproveThenReopen(id: FactId, x: Fact): seq<Entry> {
    [Entry(id, ReviewEvent(x.review.status, "", 2), 2), Entry(id, ReviewEvent(Pending, "", 3), 3)]
  }

  lemma UnsettledDiverges(before: seq<Entry>, id: FactId, x: Fact, t: int)
    requires Admissible(before, id, x) && !ReviewSettled(x)
    ensures Diverges(before, id, x, t, ApproveThenReopen(id, x), |before| + 1, |before| + 3)
  {
    var first, tail := Entry(id, AssertEvent(x), t), ApproveThenReopen(id, x);
    var journal, b := Continued(before, id, x, t, tail), Fold(NOTHING, before);
    var b1 := Step(b, first);
    Reopened(b, id, x, t);
    hide *;
    JournalParts(before, first, tail);
    OneThenTail(b, first, tail);
    FoldConcat(NOTHING, before, [first] + tail);
    SucceedJoin(NOTHING, before, [first] + tail);
  }

  lemma JournalParts(before: seq<Entry>, first: Entry, tail: seq<Entry>)
    requires |tail| == 2
    ensures var journal := before + ([first] + tail);
      |journal| == |before| + 3 && journal[..|before| + 3] == journal && journal[|before| + 1..] == tail
  {}

  lemma OneThenTail(b: Base, first: Entry, tail: seq<Entry>)
    ensures Fold(b, [first] + tail) == Fold(Step(b, first), tail)
    ensures Succeeds(b, first) && AllSucceed(Step(b, first), tail) ==> AllSucceed(b, [first] + tail)
  {
    assert ([first] + tail)[1..] == tail;
  }

  /** Approving a fact that already counts as approved does nothing the first time, but clears it once it was
      reopened. */
  lemma Reopened(b: Base, id: FactId, x: Fact, t: int)
    requires id !in b.facts && |b.facts| < MAX_FACTS && Assertable(b.facts, x) && !ReviewSettled(x)
    ensures var first, tail := Entry(id, AssertEvent(x), t), ApproveThenReopen(id, x);
      Succeeds(b, first) && AllSucceed(Step(b, first), tail) && (forall e | e in tail :: SettledEntry(e)) &&
      Fold(Fold(Step(b, first), tail), tail) != Fold(Step(b, first), tail)
  {
    var first, tail := Entry(id, AssertEvent(x), t), ApproveThenReopen(id, x);
    var b1 := Step(b, first);
    assert b1.facts == b.facts[id := x];
    hide Assertable;
    assert Step(b1, tail[0]) == b1;
    var b3 := Step(b1, tail[1]);
    Fold2(b1, tail[0], tail[1]);
    Succeed2(b1, tail[0], tail[1]);
    Fold2(b3, tail[0], tail[1]);
    assert b3.facts[id].requiresHumanReview;
    assert !Step(b3, tail[0]).facts[id].requiresHumanReview;
    assert !Step(Step(b3, tail[0]), tail[1]).facts[id].requiresHumanReview;
  }

  lemma Fold2(b: Base, e1: Entry, e2: Entry)
    ensures Fold(b, [e1, e2]) == Step(Step(b, e1), e2)
  {
    hide Step;
    var b1 := Step(b, e1);
    assert [e1, e2][1..] == [e2] && [e2][1..] == [];
    assert Fold(Step(b1, e2), []) == Step(b1, e2);
    assert Fold(b1, [e2]) == Step(b1, e2);
  }

  lemma Succeed2(b: Base, e1: Entry, e2: Entry)
    requires Succeeds(b, e1) && Succeeds(Step(b, e1), e2)
    ensures AllSucceed(b, [e1, e2])
  {
    hide Step, Succeeds;
    var b1 := Step(b, e1);
    assert [e1, e2][1..] == [e2] && [e2][1..] == [];
    assert AllSucceed(Step(b1, e2), []);
    assert AllSucceed(b1, [e2]);
  }

  // ---- Rebuilding an engine ------------------------------------------------------------------------------

  /** A zero time in an entry means the time of replay. */
  ghost function Stamp(entry: Entry, now: int): Entry {
    match entry.event
    case AssertEvent(fact) => entry.(event := AssertEvent(Timed(fact, now)))
    case ReviewEvent(_, _, at) => entry.(event := entry.event.(reviewedAt := if at == 0 then now else at))
    case VerificationEvent(_, _, _, _, at) => entry.(event := entry.event.(verifiedAt := if at == 0 then now else at))
    case _ => entry
  }

  ghost function StampAll(entries: seq<Entry>, now: int): seq<Entry> {
    seq(|entries|, i requires 0 <= i < |entries| => Stamp(entries[i], now))
  }

  /** The journal recorded every time it needs. */
  ghost predicate Stamped(entry: Entry) {
    match entry.event
    case AssertEvent(fact) => fact.assertedAt != 0
    case ReviewEvent(_, _, at) => at != 0
    case VerificationEvent(_, _, _, _, at) => at != 0
    case _ => true
  }

  /** Which records leave their replay no time to fill in: assertions that carry one, reviews whose recorded time is not
      zero, and otherwise records that carry a time of their own. */
  ghost predicate TimesWritten(r: Record) {
    match r
    case Plain(entry) => Stamped(entry)
    case RetractRecord(_, _, _) => true
    case ReviewRecord(_, _, _, at, t) => (at == None && t != 0) || (at.Some? && at.value != 0)
    case VerificationRecord(_, _, _, _, _, at, t) => t != 0 || (at.Some? && at.value > 0)
  }

  /** Decoding fills in the record's time, so a replay reads the clock exactly for the other records. */
  lemma DecodedIsStamped(records: seq<Record>, now: int)
    requires now != 0
    ensures (forall r | r in records :: TimesWritten(r)) <==> StampAll(Decoded(records), now) == Decoded(records)
  {
    var entries := Decoded(records);
    forall i | 0 <= i < |records| ensures Stamp(entries[i], now) == entries[i] <==> TimesWritten(records[i]) {}
    hide Stamp, TimesWritten, Decode;
    if StampAll(entries, now) == entries {
      forall r | r in records ensures TimesWritten(r) {
        var i :| 0 <= i < |records| && records[i] == r;
        assert StampAll(entries, now)[i] == Stamp(entries[i], now);
      }
    }
  }

  lemma StampedAlready(entries: seq<Entry>, now: int)
    requires forall e | e in entries :: Stamped(e)
    ensures StampAll(entries, now) == entries
  {
    forall i | 0 <= i < |entries| ensures Stamp(entries[i], now) == entries[i] {
      assert entries[i] in entries;
    }
  }

  method ApplyEntry(e: Engine, entry: Entry, now: int)
    requires e.Valid() && e.clock <= now
    modifies e
    ensures e.Valid() && e.clock <= now && BaseOf(e) == Step(old(BaseOf(e)), Stamp(entry, now))
  {
    hide Engine.Valid, Reviewed, Reverified, Assertable, SameContent, Offered, Kept, Untouched;
    match entry.event
    case AssertEvent(fact) =>
      Offer(e, entry.id, fact, now);
    case InvalidateEvent =>
      var _ := e.InvalidateRoot(entry.id, now);
    case RetractEvent(reason) =>
      var _ := e.RetractFact(entry.id, reason, now);
    case ReviewEvent(status, reason, at) =>
      var _ := e.SetFactReview(entry.id, status, reason, at, now);
    case ExpiredEvent =>
      if entry.id != "" {
        var _ := e.RetractFact(entry.id, "expired", now);
      }
    case VerificationEvent(verdict, method_, sourceRef, why, at) =>
      if entry.id != "" {
        var _ := e.SetFactVerification(entry.id, verdict, method_, sourceRef, why, at, now);
      }
    case ConfidenceEvent(_) =>
    case OtherEvent =>
  }

  /** The records written after the given time; all of them if that is not positive. */
  method HistoryAfter(records: seq<Record>, after: int) returns (filtered: seq<Record>)
    ensures Decoded(filtered) == After(Decoded(records), after)
    ensures forall r | r in filtered :: r in records
  {
    if after <= 0 {
      return records;
    }
    filtered := [];
    ghost var journal := Decoded(records);
    for k := 0 to |records|
      invariant Decoded(filtered) == Later(journal[..k], after)
      invariant forall r | r in filtered :: r in records
    {
      assert journal[..k + 1][..k] == journal[..k];
      if Decode(records[k]).timestamp > after {
        DecodedMore(filtered, records[k]);
        filtered := filtered + [records[k]];
      }
    }
    assert journal[..|journal|] == journal;
  }

  lemma DecodedMore(records: seq<Record>, r: Record)
    ensures Decoded(records + [r]) == Decoded(records) + [Decode(r)]
  {}

  ghost function After(journal: seq<Entry>, after: int): seq<Entry> {
    if after <= 0 then journal else Later(journal, after)
  }

  ghost function Later(journal: seq<Entry>, after: int): seq<Entry>
    decreases |journal|
  {
    if journal == [] then []
    else
      var last := journal[|journal| - 1];
      Later(journal[..|journal| - 1], after) + (if last.timestamp > after then [last] else [])
  }

  ghost predicate InTime(journal: seq<Entry>) {
    forall k, l | 0 <= k < l < |journal| :: journal[k].timestamp <= journal[l].timestamp
  }

  /** In a journal written in order, the filter drops a prefix: all entries up to the given time. */
  lemma {:induction false} LaterIsSuffix(journal: seq<Entry>, after: int) returns (i: nat)
    requires InTime(journal)
    ensures i <= |journal| && Later(journal, after) == journal[i..]
    ensures forall k | 0 <= k < |journal| :: k < i <==> journal[k].timestamp <= after
    decreases |journal|
  {
    if journal == [] {
      i := 0;
    } else if journal[|journal| - 1].timestamp <= after {
      i := |journal|;
      forall k | 0 <= k < |journal| ensures journal[k].timestamp <= after {
        assert k < |journal| - 1 ==> journal[k].timestamp <= journal[|journal| - 1].timestamp;
      }
      LaterOfNone(journal, after);
    } else {
      var init, last := journal[..|journal| - 1], journal[|journal| - 1];
      assert Later(journal, after) == Later(init, after) + [last];
      assert forall k | 0 <= k < |init| :: init[k] == journal[k];
      hide Later;
      i := LaterIsSuffix(init, after);
      assert journal[i..] == init[i..] + [last];
    }
  }

  lemma {:induction false} LaterOfNone(journal: seq<Entry>, after: int)
    requires forall k | 0 <= k < |journal| :: journal[k].timestamp <= after
    ensures Later(journal, after) == []
    decreases |journal|
  {
    if journal != [] {
      LaterOfNone(journal[..|journal| - 1], after);
    }
  }

  /** The filter overlaps the snapshot exactly when nothing written after it carries its time or an earlier one; then
      the restored state is that of the whole journal. */
  lemma FilteredReplay(journal: seq<Entry>, j: nat, after: int)
    requires j <= |journal| && InTime(journal) && AllSucceed(NOTHING, journal)
    requires forall e: Entry | e in journal :: SettledEntry(e)
    requires after <= 0 || forall k | j <= k < |journal| :: journal[k].timestamp > after
    ensures Fold(Fold(NOTHING, journal[..j]), After(journal, after)) == Fold(NOTHING, journal)
  {
    if after <= 0 {
      assert journal[0..] == journal;
      hide *;
      OverlappingReplay(journal, 0, j);
    } else {
      var i := LaterIsSuffix(journal, after);
      assert j < |journal| ==> journal[j].timestamp > after;
      hide *;
      OverlappingReplay(journal, i, j);
    }
  }

  ghost function TimesOf(journal: seq<Entry>): seq<int> {
    seq(|journal|, i requires 0 <= i < |journal| => journal[i].timestamp)
  }

  /** A snapshot of the first j entries, taken at `after`, restores every successful settled journal with these
      times. */
  ghost predicate AlwaysRestored(times: seq<int>, j: nat, after: int) {
    forall journal: seq<Entry> | TimesOf(journal) == times && AllSucceed(NOTHING, journal) &&
        (forall e: Entry | e in journal :: SettledEntry(e)) ::
      RestoredRight(journal, j, after)
  }

  ghost predicate RestoredRight(journal: seq<Entry>, j: nat, after: int) {
    j <= |journal| && Fold(Fold(NOTHING, journal[..j]), After(journal, after)) == Fold(NOTHING, journal)
  }

  /** Exactly which schedules a snapshot survives: those in which every entry it does not hold is later than it. An
      entry written in the snapshot's own tick, or earlier, is lost. A snapshot without a positive time is followed by
      the whole journal, so it loses nothing. */
  lemma ScheduleExactly(times: seq<int>, j: nat, after: int)
    requires j <= |times| && forall k, l | 0 <= k < l < |times| :: times[k] <= times[l]
    ensures AlwaysRestored(times, j, after) <==> after <= 0 || forall k | j <= k < |times| :: times[k] > after
  {
    if after <= 0 || forall k | j <= k < |times| :: times[k] > after {
      forall journal: seq<Entry> | TimesOf(journal) == times && AllSucceed(NOTHING, journal) &&
          (forall e: Entry | e in journal :: SettledEntry(e))
        ensures RestoredRight(journal, j, after)
      {
        assert forall k | 0 <= k < |journal| :: journal[k].timestamp == TimesOf(journal)[k];
        hide Fold, AllSucceed, SettledEntry, After;
        FilteredReplay(journal, j, after);
      }
    } else {
      var k :| j <= k < |times| && times[k] <= after;
      LateAssertIsLost(times, j, after, k);
    }
  }

  ghost function Lone(times: seq<int>, k: nat): seq<Entry> {
    seq(|times|, i requires 0 <= i < |times| => Entry("a", if i == k then AssertEvent(ROOT) else OtherEvent, times[i]))
  }

  lemma LateAssertIsLost(times: seq<int>, j: nat, after: int, k: nat)
    requires j <= k < |times| && times[k] <= after && forall k, l | 0 <= k < l < |times| :: times[k] <= times[l]
    requires after > 0
    ensures !AlwaysRestored(times, j, after)
  {
    LoneRun(times, k);
    LoneIsPlain(times, k);
    LoneIsLost(times, j, after, k);
    hide Fold, AllSucceed, Later, RestoredRight, Lone, SettledEntry;
    assert AllSucceed(NOTHING, Lone(times, k));
  }

  lemma LoneIsPlain(times: seq<int>, k: nat)
    ensures TimesOf(Lone(times, k)) == times && forall e: Entry | e in Lone(times, k) :: SettledEntry(e)
  {}

  lemma LoneIsLost(times: seq<int>, j: nat, after: int, k: nat)
    requires j <= k < |times| && times[k] <= after && forall k, l | 0 <= k < l < |times| :: times[k] <= times[l]
    requires after > 0
    ensures !RestoredRight(Lone(times, k), j, after)
  {
    var journal := Lone(times, k);
    LoneRun(times, k);
    var i := LaterIsSuffix(journal, after);
    assert journal[k].timestamp <= after;
    assert k < i;
    hide Fold, AllSucceed, Later;
    OthersDoNothing(NOTHING, journal[..j]);
    OthersDoNothing(NOTHING, journal[i..]);
  }

  lemma {:induction false} OthersDoNothing(b: Base, entries: seq<Entry>)
    requires forall e | e in entries :: e.event.OtherEvent?
    ensures Fold(b, entries) == b && AllSucceed(b, entries)
    decreases |entries|
  {
    if entries != [] {
      assert entries[0] in entries;
      assert Step(b, entries[0]) == b by { OtherDoesNothing(b, entries[0]); }
      hide Step;
      OthersDoNothing(b, entries[1..]);
    }
  }

  lemma OtherDoesNothing(b: Base, entry: Entry)
    requires entry.event.OtherEvent?
    ensures Step(b, entry) == b
  {
    if entry.id in b.facts {
      assert b.facts[entry.id := b.facts[entry.id]] == b.facts;
    }
  }

  lemma LoneRun(times: seq<int>, k: nat)
    requires k < |times|
    ensures AllSucceed(NOTHING, Lone(times, k)) && Fold(NOTHING, Lone(times, k)) != NOTHING
  {
    var journal := Lone(times, k);
    var before, first, after := journal[..k], journal[k], journal[k + 1..];
    var b := Step(NOTHING, first);
    assert journal == before + ([first] + after);
    assert |NOTHING.facts| == 0;
    assert Succeeds(NOTHING, first) && "a" in b.facts;
    OthersDoNothing(NOTHING, before);
    OthersDoNothing(b, after);
    hide Fold, AllSucceed, Step, Succeeds;
    OneThenTail(NOTHING, first, after);
    FoldConcat(NOTHING, before, [first] + after);
    SucceedJoin(NOTHING, before, [first] + after);
  }

  /** A snapshot in storage, with the time it was taken. */
  datatype Saved = Saved(state: Snapshot, takenAt: int, ghost rank: map<FactId, nat>, ghost stamp: map<SetId, int>,
                         ghost clock: int)

  /** A stored snapshot that restoring accepts is one an engine saved. Others may be damaged in any way. */
  ghost predicate Restorable(saved: Option<Saved>, now: int) {
    Accepted(saved) ==>
      (SoundSnapshot(saved.value.state, saved.value.rank, saved.value.stamp, saved.value.clock) &&
       saved.value.clock <= now)
  }

  ghost predicate Accepted(saved: Option<Saved>) {
    saved.Some? && Acceptable(saved.value.state)
  }

  ghost function StartOf(saved: Option<Saved>): Base {
    if Accepted(saved) then Base(saved.value.state.facts, saved.value.state.retracted) else NOTHING
  }

  ghost function HistoryFor(saved: Option<Saved>, journal: seq<Entry>): seq<Entry> {
    if Accepted(saved) then After(journal, saved.value.takenAt) else journal
  }

  /** Boots a session: the snapshot, if there is one and it is accepted, then the records after it; else all records.
      When the records have their times, the clock does not matter. */
  method GetEngine(saved: Option<Saved>, records: seq<Record>, now: nat) returns (e: Engine)
    requires Restorable(saved, now)
    ensures fresh(e) && e.Valid() && e.clock <= now
    ensures BaseOf(e) == Fold(StartOf(saved), StampAll(HistoryFor(saved, Decoded(records)), now))
    ensures (forall r | r in records :: TimesWritten(r)) ==>
      BaseOf(e) == Fold(StartOf(saved), HistoryFor(saved, Decoded(records)))
  {
    hide Engine.Valid, SoundSnapshot, Acceptable;
    e := new Engine();
    var lastSnapshotTS := 0;
    if saved.Some? {
      var snap := saved.value;
      var r := e.FromSnapshot(snap.state, snap.rank, snap.stamp, snap.clock);
      if r.Restored? {
        lastSnapshotTS := snap.takenAt;
      }
    }
    var history := HistoryAfter(records, lastSnapshotTS);
    ReplayHistory(e, history, now);
    hide *;
    if forall r | r in records :: TimesWritten(r) {
      WrittenIsStamped(history, now);
    }
  }

  lemma WrittenIsStamped(records: seq<Record>, now: int)
    requires forall r | r in records :: TimesWritten(r)
    ensures (forall e | e in Decoded(records) :: Stamped(e)) && StampAll(Decoded(records), now) == Decoded(records)
  {
    forall e | e in Decoded(records) ensures Stamped(e) {
      var i :| 0 <= i < |records| && Decoded(records)[i] == e;
      assert records[i] in records;
    }
    hide Decode, TimesWritten, Stamped;
    StampedAlready(Decoded(records), now);
  }

  method ReplayHistory(e: Engine, history: seq<Record>, now: int)
    requires e.Valid() && e.clock <= now
    modifies e
    ensures e.Valid() && e.clock <= now && BaseOf(e) == Fold(old(BaseOf(e)), StampAll(Decoded(history), now))
  {
    hide Engine.Valid, Step, Fold, BaseOf, Decode;
    ghost var b, stamped := BaseOf(e), StampAll(Decoded(history), now);
    FoldNothing(b);
    for k := 0 to |history|
      invariant e.Valid() && e.clock <= now && BaseOf(e) == Fold(b, stamped[..k])
    {
      FoldNext(b, stamped, k);
      ApplyEntry(e, Decode(history[k]), now);
    }
    assert stamped[..|history|] == stamped;
  }

  lemma FoldNothing(b: Base)
    ensures forall entries: seq<Entry> :: Fold(b, entries[..0]) == b
  {}

  lemma FoldNext(b: Base, entries: seq<Entry>, k: nat)
    requires k < |entries|
    ensures Fold(b, entries[..k + 1]) == Step(Fold(b, entries[..k]), entries[k])
  {
    var s := Fold(b, entries[..k]);
    assert entries[..k + 1] == entries[..k] + [entries[k]];
    FoldConcat(b, entries[..k], [entries[k]]);
    assert [entries[k]][1..] == [];
    assert Fold(Step(s, entries[k]), []) == Step(s, entries[k]);
    hide Step;
  }

  /** An engine restored from a snapshot of the first j entries holds the same facts, retractions and statuses as one
      rebuilt from the whole journal. */
  method RestoreBothWays(saved: Saved, records: seq<Record>, j: nat, now: nat) returns (full: Engine, restored: Engine)
    requires Restorable(Some(saved), now) && Acceptable(saved.state) && j <= |records|
    requires StartOf(Some(saved)) == Fold(NOTHING, Decoded(records)[..j])
    requires AllSucceed(NOTHING, Decoded(records)) && InTime(Decoded(records))
    requires (forall e: Entry | e in Decoded(records) :: SettledEntry(e)) && forall r | r in records :: TimesWritten(r)
    requires saved.takenAt <= 0 || forall k | j <= k < |records| :: Decode(records[k]).timestamp > saved.takenAt
    ensures full.Valid() && restored.Valid()
    ensures restored.facts == full.facts && restored.retracted == full.retracted
    ensures Quiet(full.W(), now) ==> forall f | f in full.facts ::
      f in full.derived && f in restored.derived && restored.derived[f] == full.derived[f]
  {
    hide Engine.Valid, Fold, SoundSnapshot, AllSucceed, InTime, After, SettledEntry, Quiet, Acceptable, Decode,
         TimesWritten;
    full := GetEngine(None, records, now);
    restored := GetEngine(Some(saved), records, now);
    FilteredReplay(Decoded(records), j, saved.takenAt);
    if Quiet(full.W(), now) {
      SameEverywhere(full, restored, now);
    }
  }

  lemma SameEverywhere(a: Engine, b: Engine, now: int)
    requires a.Valid() && b.Valid() && a.clock <= now && b.clock <= now && a.facts == b.facts
    requires a.retracted == b.retracted
    requires Quiet(a.W(), now)
    ensures forall f | f in a.facts :: f in a.derived && f in b.derived && b.derived[f] == a.derived[f]
  {
    SameQuiet(a, b, now);
    hide *;
    ValidIsExact(a, now);
    ValidIsExact(b, now);
    forall f | f in a.facts ensures f in a.derived && f in b.derived && b.derived[f] == a.derived[f] {
      SameFactsSameStatuses(a.W(), b.W(), now, f);
    }
  }

  lemma SameQuiet(a: Engine, b: Engine, now: int)
    requires Quiet(a.W(), now) && a.facts == b.facts && a.retracted == b.retracted
    ensures Quiet(b.W(), now) && a.W().facts == a.facts && b.W().facts == b.facts
    ensures a.W().retracted == b.W().retracted
    ensures forall f | f in a.facts :: SameLogic(a.W().facts[f], b.W().facts[f])
  {}

  lemma ValidIsExact(e: Engine, now: int)
    requires e.Valid() && e.clock <= now && Quiet(e.W(), now)
    ensures Ranked(e.W()) && forall f | f in e.facts :: f in e.derived && e.derived[f] == Truth(e.W(), now, f)
  {
    assert e.Consistent();
    hide *;
    ExactEverywhere(e, now);
  }

  // ---- What a journal of operations restores --------------------------------------------------------------

  ghost function OperationsOf(journal: seq<Entry>): (ops: seq<Op>)
    ensures |ops| == |journal|
  {
    seq(|journal|, i requires 0 <= i < |journal| => OperationOf(journal[i]))
  }

  /** What the entries say of a fact's confidence: what an assertion or invalidation gave it last, and what the
      confidence entries since then made of it. */
  datatype Manual = Manual(root: bool, given: Status, taken: Option<Status>)

  ghost function ManualAfter(m: Option<Manual>, event: Event): Option<Manual> {
    match m
    case None => if event.AssertEvent? then Some(Manual(event.fact.isRoot, event.fact.manual, None)) else None
    case Some(old_) =>
      if !old_.root then m
      else if event.InvalidateEvent? then Some(Manual(true, INVALID, None))
      else if event.ConfidenceEvent? then Some(old_.(taken := Some(event.confidence)))
      else m
  }

  ghost function ManualOf(f: FactId, journal: seq<Entry>): Option<Manual>
    decreases |journal|
  {
    if journal == [] then None
    else
      var before, last := ManualOf(f, journal[..|journal| - 1]), journal[|journal| - 1];
      if last.id == f then ManualAfter(before, last.event) else before
  }

  /** The last confidence entry since the fact was given a confidence says something else. */
  ghost predicate Lost(f: FactId, journal: seq<Entry>) {
    var m := ManualOf(f, journal);
    m.Some? && m.value.taken.Some? && m.value.taken.value != m.value.given
  }

  /** The replayed record of a fact has the given confidence; the live one has the confidence last taken; otherwise they
      are equal. */
  ghost predicate Tracks(m: Option<Manual>, live: Fact, replayed: Fact) {
    m.Some? && replayed.isRoot == m.value.root && replayed.manual == m.value.given &&
    live == replayed.(manual := Or(m.value.taken, m.value.given))
  }

  ghost predicate AllTrack(journal: seq<Entry>, live: Base, replayed: Base) {
    live.retracted == replayed.retracted && live.facts.Keys == replayed.facts.Keys &&
    (forall f :: f in replayed.facts <==> ManualOf(f, journal).Some?) &&
    forall f | f in replayed.facts :: Tracks(ManualOf(f, journal), live.facts[f], replayed.facts[f])
  }

  lemma TrackedFact(m: Option<Manual>, live: Fact, replayed: Fact, event: Event)
    requires Tracks(m, live, replayed) && !event.ConfidenceEvent?
    ensures Tracks(ManualAfter(m, event), Updated(live, event), Updated(replayed, event))
  {}

  lemma ManualNext(init: seq<Entry>, last: Entry, f: FactId)
    ensures ManualOf(f, init + [last]) ==
            if f == last.id then ManualAfter(ManualOf(f, init), last.event) else ManualOf(f, init)
  {
    assert (init + [last])[..|init|] == init;
    hide ManualAfter;
  }

  /** At most the fact with this id has changed. */
  ghost predicate OnlyAt(id: FactId, before: map<FactId, Fact>, after: map<FactId, Fact>) {
    forall f | f != id :: (f in after <==> f in before) && (f in before ==> after[f] == before[f])
  }

  lemma TracksAt(init: seq<Entry>, last: Entry, live: Base, replayed: Base, live': Base, replayed': Base)
    requires AllTrack(init, live, replayed) && live'.retracted == replayed'.retracted
    requires OnlyAt(last.id, live.facts, live'.facts) && OnlyAt(last.id, replayed.facts, replayed'.facts)
    requires var m := ManualAfter(ManualOf(last.id, init), last.event);
      (last.id in live'.facts <==> m.Some?) && (last.id in replayed'.facts <==> m.Some?) &&
      (m.Some? ==> Tracks(m, live'.facts[last.id], replayed'.facts[last.id]))
    ensures AllTrack(init + [last], live', replayed')
  {
    hide ManualOf, ManualAfter, Tracks;
    forall f ensures ManualOf(f, init + [last]) ==
                     if f == last.id then ManualAfter(ManualOf(f, init), last.event) else ManualOf(f, init)
    {
      ManualNext(init, last, f);
    }
    assert live'.facts.Keys == replayed'.facts.Keys;
  }

  /** What the engine takes depends on the facts it holds, not on their confidences. */
  lemma TakenAlike(a: map<FactId, Fact>, b: map<FactId, Fact>, id: FactId, fact: Fact)
    requires a.Keys == b.Keys && id !in a && Assertable(b, fact) && |b| < MAX_FACTS
    ensures Offered(a, id, fact) == a[id := fact]
  {
    assert |a| == |a.Keys| == |b.Keys| == |b|;
    assert Assertable(a, fact);
  }

  lemma AssertStep(b: Base, entry: Entry)
    requires entry.event.AssertEvent?
    ensures Step(b, entry) == b.(facts := Offered(b.facts, entry.id, entry.event.fact))
    ensures entry.id in b.facts ==> Step(b, entry) == b
  {
    hide Assertable;
  }

  lemma Added(facts: map<FactId, Fact>, id: FactId, fact: Fact)
    ensures OnlyAt(id, facts, facts[id := fact]) && OnlyAt(id, facts, facts)
  {}

  lemma TracksAssert(init: seq<Entry>, last: Entry, live: Base, replayed: Base)
    requires AllTrack(init, live, replayed) && Fits(replayed, last) && last.event.AssertEvent?
    ensures AllTrack(init + [last], Step(live, last), Step(replayed, last))
  {
    var id, fact := last.id, last.event.fact;
    var m := ManualOf(id, init);
    assert (id in replayed.facts <==> m.Some?) && live.facts.Keys == replayed.facts.Keys;
    assert live.retracted == replayed.retracted;
    assert id in replayed.facts ==> Tracks(m, live.facts[id], replayed.facts[id]) && ManualAfter(m, last.event) == m;
    assert id !in replayed.facts ==> Assertable(replayed.facts, fact) && |replayed.facts| < MAX_FACTS;
    assert id !in replayed.facts ==> Tracks(ManualAfter(None, last.event), fact, fact);
    hide *;
    AssertStep(live, last);
    AssertStep(replayed, last);
    Added(live.facts, id, fact);
    Added(replayed.facts, id, fact);
    if id !in replayed.facts {
      TakenAlike(live.facts, replayed.facts, id, fact);
      TakenAlike(replayed.facts, replayed.facts, id, fact);
    }
    TracksAt(init, last, live, replayed, Step(live, last), Step(replayed, last));
  }

  lemma TracksUpdate(init: seq<Entry>, last: Entry, live: Base, replayed: Base)
    requires AllTrack(init, live, replayed) && !Skipped(last) && !last.event.AssertEvent?
    requires !last.event.ConfidenceEvent?
    ensures AllTrack(init + [last], Step(live, last), Step(replayed, last))
  {
    var id, m := last.id, ManualOf(last.id, init);
    assert (id in replayed.facts <==> m.Some?) && live.facts.Keys == replayed.facts.Keys;
    assert live.retracted == replayed.retracted && (ManualAfter(m, last.event).Some? <==> m.Some?);
    assert id in replayed.facts ==> Tracks(m, live.facts[id], replayed.facts[id]);
    hide *;
    UpdateStep(live, last);
    UpdateStep(replayed, last);
    if id in replayed.facts {
      TrackedFact(m, live.facts[id], replayed.facts[id], last.event);
      Added(live.facts, id, Updated(live.facts[id], last.event));
      Added(replayed.facts, id, Updated(replayed.facts[id], last.event));
    } else {
      Added(live.facts, id, ROOT);
      Added(replayed.facts, id, ROOT);
    }
    TracksAt(init, last, live, replayed, Step(live, last), Step(replayed, last));
  }

  lemma UpdateStep(b: Base, entry: Entry)
    requires !Skipped(entry) && !entry.event.AssertEvent?
    ensures entry.id !in b.facts ==> Step(b, entry) == b
    ensures entry.id in b.facts ==>
      Step(b, entry).facts == b.facts[entry.id := Updated(b.facts[entry.id], entry.event)]
    ensures entry.id in b.facts ==>
      (Step(b, entry).retracted == if RetractsWith(entry.event).None? then b.retracted
                                   else b.retracted[entry.id := RetractsWith(entry.event).value])
  {
    hide Updated;
  }

  lemma TracksConfidence(init: seq<Entry>, last: Entry, live: Base, replayed: Base, now: int)
    requires AllTrack(init, live, replayed) && last.event.ConfidenceEvent?
    ensures AllTrack(init + [last], AfterOp(live, OperationOf(last), now), replayed)
  {
    var m := ManualOf(last.id, init);
    assert last.id in replayed.facts <==> m.Some?;
    assert last.id in replayed.facts ==> Tracks(m, live.facts[last.id], replayed.facts[last.id]);
    hide ManualOf, AllTrack;
    TracksAt(init, last, live, replayed, AfterOp(live, OperationOf(last), now), replayed);
  }

  /** Live operations against the replay of their journal: only confidences can differ, and only as the journal says. */
  lemma {:induction false} RecordedState(journal: seq<Entry>, times: seq<nat>)
    requires |times| == |journal| && AllFit(NOTHING, journal) && forall e | e in journal :: Stamped(e) && !Skipped(e)
    ensures AllTrack(journal, AfterOps(OperationsOf(journal), times), Fold(NOTHING, journal))
    decreases |journal|
  {
    if journal == [] {
      NothingTracks(journal, times);
    } else {
      hide *;
      var n := |journal| - 1;
      var init, last := journal[..n], journal[n];
      assert journal == init + [last] && last in journal && forall e | e in init :: e in journal;
      FitConcat(NOTHING, init, [last]);
      RecordedState(init, times[..n]);
      LastFits(Fold(NOTHING, init), last);
      OneMoreRecorded(journal, times);
      RecordedStep(init, last, AfterOps(OperationsOf(init), times[..n]), Fold(NOTHING, init), times[n]);
    }
  }

  lemma NothingTracks(journal: seq<Entry>, times: seq<nat>)
    requires journal == [] && times == []
    ensures AllTrack(journal, AfterOps(OperationsOf(journal), times), Fold(NOTHING, journal))
  {}

  lemma OneMoreRecorded(journal: seq<Entry>, times: seq<nat>)
    requires |times| == |journal| && journal != []
    ensures var n := |journal| - 1;
      AfterOps(OperationsOf(journal), times) ==
        AfterOp(AfterOps(OperationsOf(journal[..n]), times[..n]), OperationOf(journal[n]), times[n]) &&
      Fold(NOTHING, journal) == Step(Fold(NOTHING, journal[..n]), journal[n])
  {
    var n := |journal| - 1;
    assert OperationsOf(journal)[..n] == OperationsOf(journal[..n]);
    assert journal[..n + 1] == journal;
    FoldNext(NOTHING, journal, n);
    hide AfterOp, Step, Fold, OperationOf;
  }

  lemma LastFits(b: Base, last: Entry)
    requires AllFit(b, [last])
    ensures Fits(b, last)
  {}

  lemma RecordedStep(init: seq<Entry>, last: Entry, live: Base, replayed: Base, now: int)
    requires AllTrack(init, live, replayed) && Fits(replayed, last) && !Skipped(last) && Stamped(last)
    ensures AllTrack(init + [last], AfterOp(live, OperationOf(last), now), Step(replayed, last))
  {
    hide AllTrack, Step, AfterOp, Fits;
    StepIsOperation(live, last, now);
    StepIsOperation(replayed, last, now);
    if last.event.AssertEvent? {
      TracksAssert(init, last, live, replayed);
    } else if last.event.ConfidenceEvent? {
      TracksConfidence(init, last, live, replayed, now);
    } else {
      TracksUpdate(init, last, live, replayed);
    }
  }

  /** Exactly which histories a replay restores: those in which no confidence entry is the last word on a root's
      confidence, unless it repeats what the root had been given. */
  lemma ReplayedExactly(journal: seq<Entry>, times: seq<nat>)
    requires |times| == |journal| && AllFit(NOTHING, journal) && forall e | e in journal :: Stamped(e) && !Skipped(e)
    ensures Fold(NOTHING, journal) == AfterOps(OperationsOf(journal), times) <==>
            forall f :: !Lost(f, journal)
  {
    hide *;
    RecordedState(journal, times);
    LostIsDifference(journal, AfterOps(OperationsOf(journal), times), Fold(NOTHING, journal));
  }

  lemma LostIsDifference(journal: seq<Entry>, live: Base, replayed: Base)
    requires AllTrack(journal, live, replayed)
    ensures live == replayed <==> forall f :: !Lost(f, journal)
  {
    hide ManualOf;
    forall f ensures Lost(f, journal) <==> f in live.facts && live.facts[f] != replayed.facts[f] {
      if f in replayed.facts {
        assert Tracks(ManualOf(f, journal), live.facts[f], replayed.facts[f]);
      }
    }
    assert live.retracted == replayed.retracted && live.facts.Keys == replayed.facts.Keys;
    hide AllTrack, Lost, Tracks;
    if forall f :: !Lost(f, journal) {
      forall f | f in live.facts ensures live.facts[f] == replayed.facts[f] {
        assert !Lost(f, journal);
      }
      assert live.facts == replayed.facts;
    } else {
      var f :| Lost(f, journal);
      assert f in live.facts && live.facts[f] != replayed.facts[f];
      assert live.facts != replayed.facts;
    }
  }
}
