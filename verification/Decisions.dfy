/** Decisions that depend on facts: the check that says whether one may be executed now. */
module Decisions {
  import opened Facts
  import opened Strings
  import opened Digraph
  import opened Semantics
  import opened Pruning
  import opened Engines
  import Closure
  import Consistency
  import Cycles

  type DecisionId = string

  // ---- The check --------------------------------------------------------------------------------------

  datatype Dependency = Dependency(factID: FactId, sourceRef: string, reviewRequired: bool)

  /** An organisation's demands on where facts come from. */
  datatype Controls = Controls(allowedSourceTypes: set<string>, requireVerified: bool, maxAgeSeconds: int)

  datatype DependencyState = DependencyState(
    dep: Dependency, status: Status, sourceType: string, verification: VerificationStatus, assertedAt: int)

  datatype Reason =
    | DependencyInvalid | DependencyMissingOrInvalid | UntrustedSource | UnverifiedDependency | DependencyTooOld
    | HumanReviewRequired | QuorumNotMet

  datatype Blocker = Blocker(factID: FactId, reason: Reason)

  datatype Claims = Claims(session: string, decision: DecisionId, org: string, decisionVersion: int,
                           sessionVersion: nat, checkTimestamp: int, expiresAt: int)

  datatype Check = Check(executable: bool, blockedBy: seq<Blocker>, checkedAt: int, states: seq<DependencyState>,
                         sessionVersion: nat, decisionVersion: int, token: Option<Claims>)

  /** The fact waits for a person: a review of it is pending, or it asks for one and none has cleared it. */
  ghost predicate AwaitsReview(fact: Fact) {
    fact.review.status == Pending || (fact.requiresHumanReview && fact.review.status in {NoReview, Refused})
  }

  predicate RequiresHumanReview(fact: Fact)
    ensures RequiresHumanReview(fact) <==> AwaitsReview(fact)
  {
    if fact.requiresHumanReview then fact.review.status != Approved && fact.review.status != Waived
    else fact.review.status == Pending
  }

  /** Provenance matters for roots, for facts that ask for verification and for facts that name a source. */
  ghost predicate GroundingRelevant(facts: map<FactId, Fact>, s: DependencyState) {
    s.dep.factID in facts &&
    (facts[s.dep.factID].isRoot || facts[s.dep.factID].verification.required || s.sourceType != "")
  }

  /** Whether this reason stands against the dependency. A dependency below the threshold is not examined further. */
  ghost predicate Blocks(reason: Reason, facts: map<FactId, Fact>, s: DependencyState, controls: Controls, now: int) {
    match reason
    case DependencyMissingOrInvalid => s.status == INVALID
    case DependencyInvalid => s.status < THRESHOLD && s.status != INVALID
    case UntrustedSource =>
      s.status >= THRESHOLD && GroundingRelevant(facts, s) && controls.allowedSourceTypes != {} &&
      s.sourceType !in controls.allowedSourceTypes
    case UnverifiedDependency =>
      s.status >= THRESHOLD && GroundingRelevant(facts, s) && controls.requireVerified && s.verification != Verified
    case DependencyTooOld =>
      s.status >= THRESHOLD && GroundingRelevant(facts, s) && controls.maxAgeSeconds > 0 && s.assertedAt > 0 &&
      now - s.assertedAt > controls.maxAgeSeconds * 1000
    case HumanReviewRequired => s.status >= THRESHOLD && s.dep.reviewRequired
    case QuorumNotMet => false
  }

  /** What it takes for a dependency to raise no objection. */
  ghost predicate Passes(facts: map<FactId, Fact>, s: DependencyState, controls: Controls, now: int) {
    s.status >= THRESHOLD && !s.dep.reviewRequired &&
    (GroundingRelevant(facts, s) ==>
      (controls.allowedSourceTypes == {} || s.sourceType in controls.allowedSourceTypes) &&
      (controls.requireVerified ==> s.verification == Verified) &&
      !(controls.maxAgeSeconds > 0 && s.assertedAt > 0 && now - s.assertedAt > controls.maxAgeSeconds * 1000))
  }

  lemma PassesUnlessBlocked(facts: map<FactId, Fact>, s: DependencyState, controls: Controls, now: int)
    ensures Passes(facts, s, controls, now) <==> forall reason :: !Blocks(reason, facts, s, controls, now)
  {
    if forall reason :: !Blocks(reason, facts, s, controls, now) {
      assert !Blocks(DependencyInvalid, facts, s, controls, now) &&
             !Blocks(DependencyMissingOrInvalid, facts, s, controls, now);
      assert !Blocks(UntrustedSource, facts, s, controls, now) &&
             !Blocks(UnverifiedDependency, facts, s, controls, now);
      assert !Blocks(DependencyTooOld, facts, s, controls, now) &&
             !Blocks(HumanReviewRequired, facts, s, controls, now);
    }
  }

  /** The objections to one dependency. */
  method Assess(facts: map<FactId, Fact>, s: DependencyState, controls: Controls, now: int)
    returns (blockers: seq<Blocker>)
    ensures forall b :: b in blockers <==> b.factID == s.dep.factID && Blocks(b.reason, facts, s, controls, now)
  {
    blockers := [];
    var f := s.dep.factID;
    if s.status < THRESHOLD {
      return [Blocker(f, if s.status == INVALID then DependencyMissingOrInvalid else DependencyInvalid)];
    }
    var groundingRelevant := f in facts && (facts[f].isRoot || facts[f].verification.required || s.sourceType != "");
    if groundingRelevant && controls.allowedSourceTypes != {} && s.sourceType !in controls.allowedSourceTypes {
      blockers := blockers + [Blocker(f, UntrustedSource)];
    }
    if groundingRelevant && controls.requireVerified && s.verification != Verified {
      blockers := blockers + [Blocker(f, UnverifiedDependency)];
    }
    if groundingRelevant && controls.maxAgeSeconds > 0 && s.assertedAt > 0 &&
        now - s.assertedAt > controls.maxAgeSeconds * 1000 {
      blockers := blockers + [Blocker(f, DependencyTooOld)];
    }
    if s.dep.reviewRequired {
      blockers := blockers + [Blocker(f, HumanReviewRequired)];
    }
  }

  /** The state shows the fact as it is: known facts with their provenance, and never as valid unless they are. */
  ghost predicate Shows(w: World, derived: map<FactId, Status>, now: int, s: DependencyState) {
    var f := s.dep.factID;
    if f in w.facts && f in derived then
      s.sourceType == w.facts[f].sourceType && s.verification == w.facts[f].verification.status &&
      s.assertedAt == w.facts[f].assertedAt &&
      (s.status != INVALID ==> s.status == Read(w, f, derived[f], now) >= THRESHOLD) &&
      (Conjunctive(w) && Read(w, f, derived[f], now) >= THRESHOLD ==> s.status >= THRESHOLD)
    else s.status == INVALID && s.sourceType == "" && s.verification == Unknown && s.assertedAt == 0
  }

  method LookAt(e: Engine, dep: Dependency, now: int) returns (s: DependencyState)
    requires e.Valid()
    modifies e`dirty, e.dominators
    ensures e.Valid() && s.dep == dep && Shows(e.W(), e.derived, now, s)
  {
    hide Engine.Valid, Conjunctive, Pruned, Read, Shows;
    Consistency.EngineKeys(e);
    var f := dep.factID;
    var status := e.GetStatus(f, now);
    if f !in e.facts {
      s := DependencyState(dep, INVALID, "", Unknown, 0);
    } else {
      var fact := e.facts[f];
      s := DependencyState(dep, status, fact.sourceType, fact.verification.status, fact.assertedAt);
    }
    ShownIs(e, e.W(), now, s);
  }

  lemma ShownIs(e: Engine, w: World, now: int, s: DependencyState)
    requires w == World(e.facts, e.retracted, e.rank) && e.derived.Keys == e.facts.Keys
    requires var f := s.dep.factID;
      if f in e.facts then
        s == DependencyState(s.dep, s.status, e.facts[f].sourceType, e.facts[f].verification.status,
                             e.facts[f].assertedAt) &&
        s.status == Pruned(e.dominators.idom, e.rank, e.collapsed, f, Read(w, f, e.derived[f], now)) &&
        (Conjunctive(w) ==> s.status == if Read(w, f, e.derived[f], now) < THRESHOLD then INVALID
         else Read(w, f, e.derived[f], now))
      else s == DependencyState(s.dep, INVALID, "", Unknown, 0)
    ensures Shows(w, e.derived, now, s)
  {
    hide Conjunctive, Read;
  }

  // ---- Quorum -------------------------------------------------------------------------------------------

  /** The fact is a verified one with this claim key, and this is its source: the reference recorded with the
      dependency, for want of that the one its verification names, for want of both the type of its source. */
  ghost predicate Vouches(facts: map<FactId, Fact>, f: FactId, recorded: string, claimKey: string, source: string) {
    f in facts && facts[f].verification.status == Verified && facts[f].payload.claimKey == claimKey &&
    (source == recorded || recorded == "") &&
    (source == facts[f].verification.sourceRef || recorded != "" || facts[f].verification.sourceRef == "") &&
    (source == facts[f].sourceType || recorded != "" || facts[f].verification.sourceRef != "")
  }

  /** Recorded dependencies with this claim key name at least n different sources. */
  ghost predicate EnoughSources(facts: map<FactId, Fact>, deps: seq<Dependency>, claimKey: string, n: int) {
    exists sources :: |sources| >= n && AllNamed(facts, deps, claimKey, sources)
  }

  ghost predicate AllNamed(facts: map<FactId, Fact>, deps: seq<Dependency>, claimKey: string, sources: set<string>) {
    forall x | x in sources :: Named(facts, deps, claimKey, x)
  }

  ghost predicate Named(facts: map<FactId, Fact>, deps: seq<Dependency>, claimKey: string, source: string) {
    exists d :: d in deps && Vouches(facts, d.factID, d.sourceRef, claimKey, source)
  }

  /** A quorum asks for more than one source of a claim. */
  ghost predicate QuorumMet(facts: map<FactId, Fact>, deps: seq<Dependency>, quorum: map<string, int>,
                            claimKey: string) {
    claimKey in quorum && claimKey != "" && quorum[claimKey] > 1 ==>
      EnoughSources(facts, deps, claimKey, quorum[claimKey])
  }

  /** The state shows of its fact what a quorum looks at. */
  ghost predicate ShowsOrigin(facts: map<FactId, Fact>, s: DependencyState) {
    s.dep.factID in facts ==> s.verification == facts[s.dep.factID].verification.status &&
                              s.sourceType == facts[s.dep.factID].sourceType
  }

  /** The recorded dependencies, and for each of them a state that shows its origin. */
  ghost predicate Origins(facts: map<FactId, Fact>, deps: seq<Dependency>, states: seq<DependencyState>) {
    |states| == |deps| && forall i | 0 <= i < |deps| :: states[i].dep == deps[i] && ShowsOrigin(facts, states[i])
  }

  method CountSources(facts: map<FactId, Fact>, states: seq<DependencyState>, claimKey: string,
                      ghost deps: seq<Dependency>)
    returns (n: nat)
    requires Origins(facts, deps, states)
    ensures forall k: int :: EnoughSources(facts, deps, claimKey, k) <==> n >= k
  {
    var refs: set<string> := {};
    for i := 0 to |states|
      invariant forall x :: x in refs <==> Named(facts, deps[..i], claimKey, x)
    {
      var s := states[i];
      ghost var refs0 := refs;
      if s.verification == Verified && s.dep.factID in facts && facts[s.dep.factID].payload.claimKey == claimKey {
        var ref := s.dep.sourceRef;
        if ref == "" {
          ref := facts[s.dep.factID].verification.sourceRef;
        }
        if ref == "" {
          ref := s.sourceType;
        }
        refs := refs + {ref};
      }
      OneMoreSource(facts, deps, i, claimKey, refs0, refs);
    }
    assert deps[..|states|] == deps;
    n := |refs|;
    MostSources(facts, deps, claimKey, refs);
  }

  lemma OneMoreSource(facts: map<FactId, Fact>, deps: seq<Dependency>, i: nat, claimKey: string, refs: set<string>,
                      refs': set<string>)
    requires i < |deps| && forall x :: x in refs <==> Named(facts, deps[..i], claimKey, x)
    requires forall x :: x in refs' <==> x in refs || Vouches(facts, deps[i].factID, deps[i].sourceRef, claimKey, x)
    ensures forall x :: x in refs' <==> Named(facts, deps[..i + 1], claimKey, x)
  {
    hide Vouches;
    forall x ensures x in refs' <==> Named(facts, deps[..i + 1], claimKey, x) {
      assert forall d :: d in deps[..i + 1] <==> d in deps[..i] || d == deps[i] by {
        assert deps[..i + 1] == deps[..i] + [deps[i]];
      }
    }
  }

  lemma MostSources(facts: map<FactId, Fact>, deps: seq<Dependency>, claimKey: string, refs: set<string>)
    requires forall x :: x in refs <==> Named(facts, deps, claimKey, x)
    ensures forall k: int :: EnoughSources(facts, deps, claimKey, k) <==> |refs| >= k
  {
    hide Named;
    forall k: int ensures EnoughSources(facts, deps, claimKey, k) <==> |refs| >= k {
      if EnoughSources(facts, deps, claimKey, k) {
        var sources :| |sources| >= k && AllNamed(facts, deps, claimKey, sources);
        assert sources <= refs;
        SubsetCardinality(sources, refs);
      }
      assert AllNamed(facts, deps, claimKey, refs);
    }
  }

  /** One objection for each quorum that is not met. */
  method QuorumBlockers(facts: map<FactId, Fact>, states: seq<DependencyState>, quorum: map<string, int>,
                        decisionFact: FactId, ghost deps: seq<Dependency>)
    returns (blockers: seq<Blocker>)
    requires Origins(facts, deps, states)
    ensures |blockers| == |set k | k in quorum && !QuorumMet(facts, deps, quorum, k)|
    ensures forall b | b in blockers :: b == Blocker(decisionFact, QuorumNotMet)
  {
    hide EnoughSources, Origins;
    blockers := [];
    var todo := quorum.Keys;
    while todo != {}
      invariant todo <= quorum.Keys
      invariant |blockers| == |set k | k in quorum && k !in todo && !QuorumMet(facts, deps, quorum, k)|
      invariant forall b | b in blockers :: b == Blocker(decisionFact, QuorumNotMet)
    {
      var claimKey :| claimKey in todo;
      ghost var before := set k | k in quorum && k !in todo && !QuorumMet(facts, deps, quorum, k);
      todo := todo - {claimKey};
      ghost var after := set k | k in quorum && k !in todo && !QuorumMet(facts, deps, quorum, k);
      assert after == if QuorumMet(facts, deps, quorum, claimKey) then before else before + {claimKey};
      if claimKey != "" && quorum[claimKey] > 1 {
        var have := CountSources(facts, states, claimKey, deps);
        if have < quorum[claimKey] {
          blockers := blockers + [Blocker(decisionFact, QuorumNotMet)];
        }
      }
    }
    assert (set k | k in quorum && k !in todo && !QuorumMet(facts, deps, quorum, k)) ==
           (set k | k in quorum && !QuorumMet(facts, deps, quorum, k));
  }

  /** Exactly when a decision may be executed. */
  ghost predicate MayExecute(facts: map<FactId, Fact>, deps: seq<Dependency>, states: seq<DependencyState>,
                             quorum: map<string, int>, controls: Controls, now: int) {
    (forall s | s in states :: Passes(facts, s, controls, now)) &&
    forall k | k in quorum :: QuorumMet(facts, deps, quorum, k)
  }

  /** The objections to a decision: the reasons that stand against its dependencies, and a quorum that is not met. */
  ghost predicate Objects(facts: map<FactId, Fact>, deps: seq<Dependency>, states: seq<DependencyState>,
                          quorum: map<string, int>, decisionFact: FactId, controls: Controls, now: int, b: Blocker) {
    BlocksAny(facts, states, controls, now, b) ||
    (b == Blocker(decisionFact, QuorumNotMet) && exists k :: k in quorum && !QuorumMet(facts, deps, quorum, k))
  }

  ghost predicate BlocksAny(facts: map<FactId, Fact>, states: seq<DependencyState>, controls: Controls, now: int,
                            b: Blocker) {
    exists s :: s in states && b.factID == s.dep.factID && Blocks(b.reason, facts, s, controls, now)
  }

  /** The states of these dependencies, as looked up. */
  ghost predicate LookedUp(w: World, derived: map<FactId, Status>, now: int,
                           deps: seq<Dependency>, states: seq<DependencyState>) {
    |states| == |deps| && forall i | 0 <= i < |deps| :: states[i].dep == deps[i] && Shows(w, derived, now, states[i])
  }

  lemma LookedUpOrigins(w: World, derived: map<FactId, Status>, now: int, deps: seq<Dependency>,
                        states: seq<DependencyState>)
    requires LookedUp(w, derived, now, deps, states) && derived.Keys == w.facts.Keys
    ensures Origins(w.facts, deps, states)
  {
    hide Conjunctive, Read;
  }

  method AssessAll(e: Engine, deps: seq<Dependency>, controls: Controls, now: int)
    returns (states: seq<DependencyState>, blockers: seq<Blocker>)
    requires e.Valid()
    modifies e`dirty, e.dominators
    ensures e.Valid() && LookedUp(e.W(), e.derived, now, deps, states)
    ensures forall b :: b in blockers <==> BlocksAny(e.facts, states, controls, now, b)
  {
    hide Engine.Valid, Shows, Blocks;
    states, blockers := [], [];
    for i := 0 to |deps|
      invariant e.Valid() && LookedUp(e.W(), e.derived, now, deps[..i], states)
      invariant forall b :: b in blockers <==> BlocksAny(e.facts, states, controls, now, b)
    {
      var s := LookAt(e, deps[i], now);
      var more := Assess(e.facts, s, controls, now);
      OneMoreState(e.facts, states, s, controls, now, blockers, more);
      assert deps[..i + 1] == deps[..i] + [deps[i]];
      states := states + [s];
      blockers := blockers + more;
    }
    assert deps[..|deps|] == deps;
  }

  lemma OneMoreState(facts: map<FactId, Fact>, states: seq<DependencyState>, s: DependencyState, controls: Controls,
                     now: int, blockers: seq<Blocker>, more: seq<Blocker>)
    requires forall b :: b in blockers <==> BlocksAny(facts, states, controls, now, b)
    requires forall b :: b in more <==> b.factID == s.dep.factID && Blocks(b.reason, facts, s, controls, now)
    ensures forall b :: b in blockers + more <==> BlocksAny(facts, states + [s], controls, now, b)
  {
    hide Blocks;
    forall b ensures b in blockers + more <==> BlocksAny(facts, states + [s], controls, now, b) {
      assert s in states + [s] && forall t :: t in states + [s] <==> t in states || t == s;
    }
  }

  /** What the check is blocked by is exactly what there is to object. */
  ghost predicate Objections(facts: map<FactId, Fact>, blockers: seq<Blocker>, states: seq<DependencyState>,
                             deps: seq<Dependency>, quorum: map<string, int>, decisionFact: FactId, controls: Controls,
                             now: int) {
    forall b :: b in blockers <==> Objects(facts, deps, states, quorum, decisionFact, controls, now, b)
  }

  /** No objection stands exactly when every dependency passes and every quorum is met. */
  lemma NoObjection(facts: map<FactId, Fact>,
                    deps: seq<Dependency>, states: seq<DependencyState>, quorum: map<string, int>, decisionFact: FactId,
                    controls: Controls, now: int, blockers: seq<Blocker>)
    requires forall b :: b in blockers <==> Objects(facts, deps, states, quorum, decisionFact, controls, now, b)
    ensures blockers == [] <==> MayExecute(facts, deps, states, quorum, controls, now)
  {
    hide Blocks, QuorumMet, Passes;
    forall s | s in states
      ensures Passes(facts, s, controls, now) <==> forall reason :: !Blocks(reason, facts, s, controls, now)
    {
      PassesUnlessBlocked(facts, s, controls, now);
    }
    if blockers != [] {
      assert blockers[0] in blockers;
    }
    if s :| s in states && !Passes(facts, s, controls, now) {
      var reason :| Blocks(reason, facts, s, controls, now);
      assert BlocksAny(facts, states, controls, now, Blocker(s.dep.factID, reason));
      assert Blocker(s.dep.factID, reason) in blockers;
    } else if k :| k in quorum && !QuorumMet(facts, deps, quorum, k) {
      assert Blocker(decisionFact, QuorumNotMet) in blockers;
    }
  }

  /** Looks at every dependency, then at the quorums. */
  method ComputeDecisionCheck(e: Engine, deps: seq<Dependency>, quorum: map<string, int>, decisionFact: FactId,
                              controls: Controls, now: int)
    returns (check: Check)
    requires e.Valid()
    modifies e`dirty, e.dominators
    ensures e.Valid() && check.checkedAt == now && check.token == None
    ensures LookedUp(e.W(), e.derived, now, deps, check.states)
    ensures check.executable <==> MayExecute(e.facts, deps, check.states, quorum, controls, now)
    ensures Objections(e.facts, check.blockedBy, check.states, deps, quorum, decisionFact, controls, now)
  {
    hide Engine.Valid, LookedUp, BlocksAny, MayExecute, QuorumMet;
    var states, blockers := AssessAll(e, deps, controls, now);
    EngineView(e);
    LookedUpOrigins(e.W(), e.derived, now, deps, states);
    var more := QuorumBlockers(e.facts, states, quorum, decisionFact, deps);
    AllObjections(e.facts, deps, states, quorum, decisionFact, controls, now, blockers, more);
    NoObjection(e.facts, deps, states, quorum, decisionFact, controls, now, blockers + more);
    check := Check(blockers + more == [], blockers + more, now, states, 0, 0, None);
  }

  lemma EngineView(e: Engine)
    requires e.Valid()
    ensures e.derived.Keys == e.facts.Keys && e.W() == World(e.facts, e.retracted, e.rank)
  {}

  lemma AllObjections(facts: map<FactId, Fact>, deps: seq<Dependency>, states: seq<DependencyState>,
                      quorum: map<string, int>, decisionFact: FactId, controls: Controls, now: int,
                      blockers: seq<Blocker>, more: seq<Blocker>)
    requires forall b :: b in blockers <==> BlocksAny(facts, states, controls, now, b)
    requires |more| == |set k | k in quorum && !QuorumMet(facts, deps, quorum, k)|
    requires forall b | b in more :: b == Blocker(decisionFact, QuorumNotMet)
    ensures forall b :: b in blockers + more <==>
              Objects(facts, deps, states, quorum, decisionFact, controls, now, b)
  {
    hide BlocksAny, QuorumMet;
    var unmet := set k | k in quorum && !QuorumMet(facts, deps, quorum, k);
    if k :| k in quorum && !QuorumMet(facts, deps, quorum, k) {
      assert k in unmet && more[0] in more;
    } else {
      assert unmet == {};
    }
  }

  /** A check says yes only if every dependency is known and at or above the threshold as the engine has it. */
  lemma ExecutableMeansValid(w: World, derived: map<FactId, Status>, now: int,
                             deps: seq<Dependency>, states: seq<DependencyState>, quorum: map<string, int>,
                             controls: Controls, dep: Dependency)
    requires LookedUp(w, derived, now, deps, states) && MayExecute(w.facts, deps, states, quorum, controls, now)
    requires dep in deps
    ensures dep.factID in w.facts && dep.factID in derived && Read(w, dep.factID, derived[dep.factID], now) >= THRESHOLD
    ensures !dep.reviewRequired
  {
    var i :| 0 <= i < |deps| && deps[i] == dep;
    assert states[i] in states;
    assert Passes(w.facts, states[i], controls, now) && Shows(w, derived, now, states[i]);
  }

  // ---- Recorded dependencies -----------------------------------------------------------------------------

  /** All named facts are known, or, when none is named, the decision's own fact is. */
  ghost predicate Recordable(facts: map<FactId, Fact>, decisionFact: FactId, named: seq<FactId>) {
    if named == [] then decisionFact == "" || decisionFact in facts else forall f | f in named :: f == "" || f in facts
  }

  /** The facts a decision depends on. */
  ghost predicate Wanted(facts: map<FactId, Fact>, decisionFact: FactId, named: seq<FactId>, f: FactId) {
    f != "" &&
    if named != [] then f in named
    else decisionFact != "" && f in facts && Reaches(Cycles.DependencyEdges(facts), f, decisionFact)
  }

  /** The reference a fact gives to its source, blank when it gives none. */
  ghost function RefOf(sourceRefs: map<FactId, string>, f: FactId): string {
    if f in sourceRefs then sourceRefs[f] else ""
  }

  /** These are the dependencies to record, in order and each once: with the reference to its source, and with its need
      for a review as it is now. */
  ghost predicate RecordsFor(facts: map<FactId, Fact>, sourceRefs: map<FactId, string>, decisionFact: FactId,
                             named: seq<FactId>, deps: seq<Dependency>) {
    (forall f :: Wanted(facts, decisionFact, named, f) <==> exists d :: d in deps && d.factID == f) &&
    (forall d | d in deps :: d.factID in facts && d.sourceRef == RefOf(sourceRefs, d.factID) &&
                             (d.reviewRequired <==> AwaitsReview(facts[d.factID]))) &&
    forall i, j | 0 <= i < j < |deps| :: deps[i].factID != deps[j].factID && StringLe(deps[i].factID, deps[j].factID)
  }

  /** The dependencies a decision records: those named, or everything the decision's fact rests on. An id the engine
      does not know makes the request fail before anything is saved. */
  method BuildDecisionDependencies(e: Engine, decisionFact: FactId, named: seq<FactId>, sourceRefs: map<FactId, string>)
    returns (r: Result<seq<Dependency>, string>)
    requires e.Valid()
    ensures r.Success? <==> Recordable(e.facts, decisionFact, named)
    ensures r.Success? ==> RecordsFor(e.facts, sourceRefs, decisionFact, named, r.value)
  {
    assert e.Consistent();
    hide Engine.Valid, Engine.Consistent, Reaches, Cycles.DependencyEdges, RecordsFor, Recordable, Sorted, Distinct;
    var ids := named;
    if decisionFact != "" && |named| == 0 {
      var closure := Closure.DependencyIDs(e, decisionFact, true);
      if closure.Failure? {
        UnknownDecisionFact(e.facts, decisionFact, named);
        return Failure(closure.error);
      }
      ids := closure.value;
    }
    var unique := Consistency.UniqueSortedFactIDs(ids);
    r := RecordDependencies(e.facts, unique, sourceRefs);
    RecordedRight(e.facts, sourceRefs, decisionFact, named, unique, r);
  }

  lemma UnknownDecisionFact(facts: map<FactId, Fact>, decisionFact: FactId, named: seq<FactId>)
    requires decisionFact != "" && decisionFact !in facts && named == []
    ensures !Recordable(facts, decisionFact, named)
  {}

  /** One dependency for each id, as its fact is now. */
  ghost predicate RecordedAs(facts: map<FactId, Fact>, sourceRefs: map<FactId, string>, f: FactId, d: Dependency) {
    f in facts && d.factID == f && d.sourceRef == RefOf(sourceRefs, f) && (d.reviewRequired <==> AwaitsReview(facts[f]))
  }

  lemma RecordedRight(facts: map<FactId, Fact>, sourceRefs: map<FactId, string>, decisionFact: FactId,
                      named: seq<FactId>, ids: seq<FactId>, r: Result<seq<Dependency>, string>)
    requires forall f :: f in ids <==> Wanted(facts, decisionFact, named, f)
    requires Sorted(ids) && Distinct(ids)
    requires named == [] && decisionFact != "" ==> decisionFact in facts
    requires r.Success? <==> forall f | f in ids :: f in facts
    requires r.Success? ==> |r.value| == |ids| && forall k | 0 <= k < |ids| ::
               RecordedAs(facts, sourceRefs, ids[k], r.value[k])
    ensures r.Success? <==> Recordable(facts, decisionFact, named)
    ensures r.Success? ==> RecordsFor(facts, sourceRefs, decisionFact, named, r.value)
  {
    hide AwaitsReview, RefOf, StringLe;
    if named != [] {
      assert forall f :: f in ids <==> f != "" && f in named;
    }
    hide Wanted;
    if r.Success? {
      forall f ensures f in ids <==> exists d :: d in r.value && d.factID == f {
        if f in ids {
          var k :| 0 <= k < |ids| && ids[k] == f;
          assert RecordedAs(facts, sourceRefs, ids[k], r.value[k]) && r.value[k] in r.value;
        }
        if d :| d in r.value && d.factID == f {
          var k :| 0 <= k < |ids| && r.value[k] == d;
          assert RecordedAs(facts, sourceRefs, ids[k], r.value[k]);
        }
      }
      forall d | d in r.value
        ensures d.factID in facts && d.sourceRef == RefOf(sourceRefs, d.factID)
        ensures d.reviewRequired <==> AwaitsReview(facts[d.factID])
      {
        var k :| 0 <= k < |ids| && r.value[k] == d;
        assert RecordedAs(facts, sourceRefs, ids[k], r.value[k]);
      }
      forall i, j | 0 <= i < j < |ids|
        ensures r.value[i].factID != r.value[j].factID && StringLe(r.value[i].factID, r.value[j].factID)
      {
        assert RecordedAs(facts, sourceRefs, ids[i], r.value[i]) && RecordedAs(facts, sourceRefs, ids[j], r.value[j]);
      }
    }
  }

  method RecordDependencies(facts: map<FactId, Fact>, ids: seq<FactId>, sourceRefs: map<FactId, string>)
    returns (r: Result<seq<Dependency>, string>)
    ensures r.Success? <==> forall f | f in ids :: f in facts
    ensures r.Success? ==> |r.value| == |ids| && forall k | 0 <= k < |ids| ::
              RecordedAs(facts, sourceRefs, ids[k], r.value[k])
  {
    hide AwaitsReview;
    var deps: seq<Dependency> := [];
    for i := 0 to |ids|
      invariant |deps| == i && forall k | 0 <= k < i :: RecordedAs(facts, sourceRefs, ids[k], deps[k])
    {
      var f := ids[i];
      if f !in facts {
        return Failure("unknown fact");
      }
      deps := deps + [Dependency(f, if f in sourceRefs then sourceRefs[f] else "", RequiresHumanReview(facts[f]))];
    }
    assert forall f | f in ids :: f in facts by {
      forall f | f in ids ensures f in facts {
        var k :| 0 <= k < |ids| && ids[k] == f;
        assert RecordedAs(facts, sourceRefs, ids[k], deps[k]);
      }
    }
    r := Success(deps);
  }

  // ---- What a new check says of the facts ----------------------------------------------------------------

  /** Some reference, blank or not, vouched for by a fact the decision depends on. */
  ghost predicate SourceFor(facts: map<FactId, Fact>, sourceRefs: map<FactId, string>, decisionFact: FactId,
                            named: seq<FactId>, claimKey: string, source: string) {
    exists f :: Wanted(facts, decisionFact, named, f) && Vouches(facts, f, RefOf(sourceRefs, f), claimKey, source)
  }

  /** The facts a decision depends on name at least n different sources of a claim. */
  ghost predicate SourcesFor(facts: map<FactId, Fact>, sourceRefs: map<FactId, string>, decisionFact: FactId,
                             named: seq<FactId>, claimKey: string, n: int) {
    exists sources :: |sources| >= n && AllSourcesFor(facts, sourceRefs, decisionFact, named, claimKey, sources)
  }

  ghost predicate AllSourcesFor(facts: map<FactId, Fact>, sourceRefs: map<FactId, string>, decisionFact: FactId,
                                named: seq<FactId>, claimKey: string, sources: set<string>) {
    forall x | x in sources :: SourceFor(facts, sourceRefs, decisionFact, named, claimKey, x)
  }

  /** Right after recording, a quorum counts the sources of the facts themselves. */
  lemma QuorumOfFacts(facts: map<FactId, Fact>, sourceRefs: map<FactId, string>, decisionFact: FactId,
                      named: seq<FactId>, deps: seq<Dependency>, claimKey: string, n: int)
    requires RecordsFor(facts, sourceRefs, decisionFact, named, deps)
    ensures EnoughSources(facts, deps, claimKey, n) <==>
            SourcesFor(facts, sourceRefs, decisionFact, named, claimKey, n)
  {
    hide Wanted, Vouches, RefOf, AwaitsReview, StringLe;
    forall x ensures Named(facts, deps, claimKey, x) <==>
                     SourceFor(facts, sourceRefs, decisionFact, named, claimKey, x)
    {
      if Named(facts, deps, claimKey, x) {
        var d :| d in deps && Vouches(facts, d.factID, d.sourceRef, claimKey, x);
        assert Wanted(facts, decisionFact, named, d.factID);
      }
      if SourceFor(facts, sourceRefs, decisionFact, named, claimKey, x) {
        var f :| Wanted(facts, decisionFact, named, f) && Vouches(facts, f, RefOf(sourceRefs, f), claimKey, x);
        var d :| d in deps && d.factID == f;
      }
    }
    hide Named, SourceFor, RecordsFor;
    forall sources ensures AllNamed(facts, deps, claimKey, sources) <==>
                           AllSourcesFor(facts, sourceRefs, decisionFact, named, claimKey, sources) {}
  }

  /** What a decision asks of a fact it depends on, whose effective status is given. */
  ghost predicate FactPasses(fact: Fact, status: Status, controls: Controls, now: int) {
    status >= THRESHOLD && !AwaitsReview(fact) &&
    (fact.isRoot || fact.verification.required || fact.sourceType != "" ==>
       (controls.allowedSourceTypes != {} ==> fact.sourceType in controls.allowedSourceTypes) &&
       (controls.requireVerified ==> fact.verification.status == Verified) &&
       (controls.maxAgeSeconds <= 0 || fact.assertedAt <= 0 ||
        now <= fact.assertedAt + 1000 * controls.maxAgeSeconds))
  }

  ghost predicate FactsPass(w: World, derived: map<FactId, Status>, decisionFact: FactId, named: seq<FactId>,
                            controls: Controls, now: int) {
    forall f | Wanted(w.facts, decisionFact, named, f) ::
      f in w.facts && f in derived && FactPasses(w.facts[f], Read(w, f, derived[f], now), controls, now)
  }

  ghost predicate SourcesSuffice(facts: map<FactId, Fact>, sourceRefs: map<FactId, string>, decisionFact: FactId,
                                 named: seq<FactId>, quorum: map<string, int>) {
    forall k | k in quorum && k != "" && quorum[k] > 1 ::
      SourcesFor(facts, sourceRefs, decisionFact, named, k, quorum[k])
  }

  /** A check of dependencies just recorded, in terms of the facts: it says yes only if every fact the decision depends
      on passes and every quorum has its sources, and on conjunctive graphs whenever that is so. */
  lemma CheckOfFacts(w: World, derived: map<FactId, Status>, now: int, deps: seq<Dependency>,
                     states: seq<DependencyState>, quorum: map<string, int>, controls: Controls,
                     sourceRefs: map<FactId, string>, decisionFact: FactId, named: seq<FactId>)
    requires LookedUp(w, derived, now, deps, states) && derived.Keys == w.facts.Keys
    requires RecordsFor(w.facts, sourceRefs, decisionFact, named, deps)
    ensures var allowed := MayExecute(w.facts, deps, states, quorum, controls, now);
      var passing := FactsPass(w, derived, decisionFact, named, controls, now);
      var sourced := SourcesSuffice(w.facts, sourceRefs, decisionFact, named, quorum);
      (allowed ==> passing && sourced) && (Conjunctive(w) && passing && sourced ==> allowed) &&
      (Objects(w.facts, deps, states, quorum, decisionFact, controls, now, Blocker(decisionFact, QuorumNotMet)) <==>
       !sourced)
  {
    forall k, n ensures EnoughSources(w.facts, deps, k, n) <==>
                        SourcesFor(w.facts, sourceRefs, decisionFact, named, k, n)
    {
      QuorumOfFacts(w.facts, sourceRefs, decisionFact, named, deps, k, n);
    }
    assert SourcesSuffice(w.facts, sourceRefs, decisionFact, named, quorum) <==>
           forall k | k in quorum :: QuorumMet(w.facts, deps, quorum, k);
    hide SourcesSuffice, EnoughSources, SourcesFor, QuorumMet;
    PassingFacts(w, derived, now, deps, states, controls, sourceRefs, decisionFact, named);
  }

  /** On the state a lookup shows, a recorded dependency passes only if its fact does. */
  lemma PassingFact(w: World, derived: map<FactId, Status>, now: int, s: DependencyState, controls: Controls)
    requires Shows(w, derived, now, s) && derived.Keys == w.facts.Keys
    requires s.dep.factID in w.facts && (s.dep.reviewRequired <==> AwaitsReview(w.facts[s.dep.factID]))
    ensures var f := s.dep.factID;
      var passes := FactPasses(w.facts[f], Read(w, f, derived[f], now), controls, now);
      (Passes(w.facts, s, controls, now) ==> passes) && (Conjunctive(w) && passes ==> Passes(w.facts, s, controls, now))
  {
    hide AwaitsReview, Conjunctive, Read;
  }

  lemma PassingFacts(w: World, derived: map<FactId, Status>, now: int, deps: seq<Dependency>,
                     states: seq<DependencyState>, controls: Controls, sourceRefs: map<FactId, string>,
                     decisionFact: FactId, named: seq<FactId>)
    requires LookedUp(w, derived, now, deps, states) && derived.Keys == w.facts.Keys
    requires RecordsFor(w.facts, sourceRefs, decisionFact, named, deps)
    ensures (forall s | s in states :: Passes(w.facts, s, controls, now)) ==>
              FactsPass(w, derived, decisionFact, named, controls, now)
    ensures Conjunctive(w) && FactsPass(w, derived, decisionFact, named, controls, now) ==>
              forall s | s in states :: Passes(w.facts, s, controls, now)
  {
    hide Wanted, AwaitsReview, Conjunctive, Read, RefOf, StringLe, Passes, FactPasses, Shows;
    forall i | 0 <= i < |deps|
      ensures var f := deps[i].factID;
        states[i] in states && f in w.facts && f in derived && Wanted(w.facts, decisionFact, named, f) &&
        (Passes(w.facts, states[i], controls, now) ==>
           FactPasses(w.facts[f], Read(w, f, derived[f], now), controls, now)) &&
        (Conjunctive(w) && FactPasses(w.facts[f], Read(w, f, derived[f], now), controls, now) ==>
           Passes(w.facts, states[i], controls, now))
    {
      assert deps[i] in deps;
      PassingFact(w, derived, now, states[i], controls);
    }
    forall f | Wanted(w.facts, decisionFact, named, f) ensures exists i :: 0 <= i < |deps| && deps[i].factID == f {
      var d :| d in deps && d.factID == f;
    }
    forall s | s in states ensures exists i :: 0 <= i < |deps| && states[i] == s {}
    hide RecordsFor, LookedUp;
  }

  /** The check speaks of the facts the decision depends on: it passes only if they do and name the sources asked for,
      on conjunctive graphs whenever they do, and it misses a quorum exactly when sources are wanting. */
  ghost predicate ChecksFacts(w: World, derived: map<FactId, Status>, sourceRefs: map<FactId, string>, check: Check,
                              decisionFact: FactId, named: seq<FactId>, quorum: map<string, int>, controls: Controls,
                              now: int) {
    var passing := FactsPass(w, derived, decisionFact, named, controls, now);
    var sourced := SourcesSuffice(w.facts, sourceRefs, decisionFact, named, quorum);
    (check.executable ==> passing && sourced) && (Conjunctive(w) && passing && sourced ==> check.executable) &&
    (Blocker(decisionFact, QuorumNotMet) in check.blockedBy <==> !sourced)
  }

  lemma NewCheckIsOfFacts(e: Engine, deps: seq<Dependency>, check: Check, decisionFact: FactId, named: seq<FactId>,
                          sourceRefs: map<FactId, string>, quorum: map<string, int>, controls: Controls, now: int)
    requires e.Valid() && RecordsFor(e.facts, sourceRefs, decisionFact, named, deps)
    requires LookedUp(e.W(), e.derived, now, deps, check.states)
    requires check.executable <==> MayExecute(e.facts, deps, check.states, quorum, controls, now)
    requires Objections(e.facts, check.blockedBy, check.states, deps, quorum, decisionFact, controls, now)
    ensures ChecksFacts(e.W(), e.derived, sourceRefs, check, decisionFact, named, quorum, controls, now)
  {
    EngineView(e);
    hide Engine.Valid, LookedUp, MayExecute, RecordsFor, FactsPass, SourcesSuffice, Objects, Conjunctive, Engine.W;
    CheckOfFacts(e.W(), e.derived, now, deps, check.states, quorum, controls, sourceRefs, decisionFact, named);
  }
}
