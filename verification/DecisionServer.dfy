/** The handlers around decisions and execution tokens, and every run of them. */
module DecisionServers {
  import opened Facts
  import opened Semantics
  import opened Engines
  import opened Exactness
  import opened Decisions
  import opened Ledgers

  datatype ExecuteAnswer =
    | NoSuchDecision | AlreadyExecuted | BadToken | WrongDecision | StaleSession | StaleDecision | NowBlocked | Executes

  /** What an execution request is tested for, in this order. */
  const TESTS: seq<ExecuteAnswer> :=
    [NoSuchDecision, AlreadyExecuted, BadToken, WrongDecision, StaleSession, StaleDecision]

  lemma TestsAre()
    ensures |TESTS| == 6 && TESTS[0] == NoSuchDecision && TESTS[1] == AlreadyExecuted && TESTS[2] == BadToken
    ensures TESTS[3] == WrongDecision && TESTS[4] == StaleSession && TESTS[5] == StaleDecision
  {}

  /** A decision as it is first saved. */
  ghost function NewDecision(decisionFact: FactId, quorum: map<string, int>, executable: bool, now: int,
                             checkedAt: int): Decision {
    Decision(decisionFact, quorum, if executable then Active else IsBlocked,
             if executable then PendingExecution else BlockedExecution, now, now, checkedAt, 0)
  }

  /** What a check makes of a decision: one that was executed stays so only if it passes. */
  ghost function AfterCheck(d: Decision, executable: bool, checkedAt: int, now: int): Decision {
    if !executable then d.(status := IsBlocked, executionStatus := BlockedExecution, lastCheckedAt := checkedAt,
                           updatedAt := now)
    else if d.executionStatus == Executed then d.(status := IsExecuted, lastCheckedAt := checkedAt, updatedAt := now)
    else d.(status := Active, executionStatus := PendingExecution, lastCheckedAt := checkedAt, updatedAt := now)
  }

  ghost function AfterExecution(d: Decision, executed: bool, checkedAt: int, now: int): Decision {
    if executed then d.(status := IsExecuted, executionStatus := Executed, lastCheckedAt := checkedAt, updatedAt := now,
                        executedAt := now)
    else d.(status := IsBlocked, executionStatus := BlockedExecution, lastCheckedAt := checkedAt, updatedAt := now)
  }

  ghost function FactOr(fact: FactId, otherwise: FactId): FactId {
    if fact != "" then fact else otherwise
  }

  /** One session of the server. Each handler is one step, and is given the times at which it reads the clock. */
  class DecisionServer {
    const session: string
    const org: string
    const engine: Engine
    var controls: Controls
    var sourceRefs: map<FactId, string>
    var decisions: map<DecisionId, Decision>
    var dependencies: map<DecisionId, seq<Dependency>>
    var checks: map<DecisionId, Check>
    var sessionVersion: nat
    /** Every token this server has signed for the session. */
    var issued: set<Claims>
    ghost var executions: seq<Execution>
    /** The times of all handlers so far. */
    ghost var log: seq<Tick>
    ghost var issuedAt: map<Claims, nat>
    ghost var savedAt: map<DecisionId, nat>

    ghost function L(): Ledger
      reads this
    {
      Ledger(session, org, decisions, checks, issued, executions, sessionVersion, log, issuedAt, savedAt)
    }

    ghost predicate Sound()
      reads this
    {
      Lawful(L()) && dependencies.Keys == decisions.Keys && issuedAt.Keys == issued
    }

    ghost predicate Valid()
      reads this, engine, engine.dominators
    {
      Sound() && engine.Valid() && engine.clock <= Clock(log)
    }

    constructor (session: string, org: string, controls: Controls, sourceRefs: map<FactId, string>)
      ensures Valid() && decisions == map[] && dependencies == map[] && issued == {} && executions == [] && log == []
      ensures sessionVersion == 0 && this.session == session && this.org == org && this.controls == controls
      ensures fresh(engine) && fresh(engine.dominators)
    {
      this.session, this.org, this.controls, this.sourceRefs := session, org, controls, sourceRefs;
      engine := new Engine();
      decisions, dependencies, checks, sessionVersion, issued := map[], map[], map[], 0, {};
      executions, log, issuedAt, savedAt := [], [], map[], map[];
      new;
      hide *;
      FreshIsValid();
    }

    lemma FreshIsValid()
      requires decisions == map[] && dependencies == map[] && checks == map[] && issued == {} && executions == []
      requires sessionVersion == 0
      requires log == [] && issuedAt == map[] && savedAt == map[] && engine.Valid() && engine.clock == 0
      ensures Valid()
    {
      hide Lawful, Engine.Valid;
      NothingYet(session, org);
    }

    // ---- What handlers share ---------------------------------------------------------------------------

    /** How every fact of the engine reads at this time. */
    ghost function View(now: int): map<FactId, Status>
      reads engine
    {
      map f | f in engine.facts && f in engine.derived :: Read(engine.W(), f, engine.derived[f], now)
    }

    /** The saved check of a decision is the outcome of looking at its recorded dependencies at that time. */
    ghost predicate CheckedAt(id: DecisionId, now: int)
      reads this, engine
    {
      id in decisions && id in dependencies && id in checks && checks[id].checkedAt == now &&
      LookedUp(engine.W(), engine.derived, now, dependencies[id], checks[id].states) &&
      (checks[id].executable <==>
       MayExecute(engine.facts, dependencies[id], checks[id].states, decisions[id].quorum, controls, now)) &&
      Objections(engine.facts, checks[id].blockedBy, checks[id].states, dependencies[id], decisions[id].quorum,
                 decisions[id].factID, controls, now)
    }

    ghost predicate InTime(first: int, last: int)
      reads this
    {
      NextTick(L(), Tick(first, last))
    }

    /** Runs the check on recorded dependencies, as every handler does. */
    method Recheck(deps: seq<Dependency>, quorum: map<string, int>, decisionFact: FactId, now: int)
      returns (check: Check)
      requires engine.Valid()
      modifies engine`dirty, engine.dominators
      ensures engine.Valid() && check.checkedAt == now && check.token == None
      ensures LookedUp(engine.W(), engine.derived, now, deps, check.states)
      ensures check.executable <==> MayExecute(engine.facts, deps, check.states, quorum, controls, now)
      ensures Objections(engine.facts, check.blockedBy, check.states, deps, quorum, decisionFact, controls, now)
    {
      check := ComputeDecisionCheck(engine, deps, quorum, decisionFact, controls, now);
    }

    /** A handler that ends without saving anything. */
    method Wait(first: int, last: int)
      requires Sound() && InTime(first, last)
      modifies this`log
      ensures Sound() && log == old(log) + [Tick(first, last)]
    {
      hide Lawful, NextTick;
      WaitingIsLawful(L(), Tick(first, last), sessionVersion);
      log := log + [Tick(first, last)];
    }

    /** Saves a decision with its check and dependencies. */
    method Save(id: DecisionId, d: Decision, deps: seq<Dependency>, check: Check, first: int, last: int)
      requires Sound() && InTime(first, last) && SavedIn(d, Tick(first, last))
      modifies this`decisions, this`dependencies, this`checks, this`log, this`savedAt
      ensures Sound() && log == old(log) + [Tick(first, last)] && savedAt == old(savedAt)[id := |old(log)|]
      ensures decisions == old(decisions)[id := d] && dependencies == old(dependencies)[id := deps]
      ensures checks == old(checks)[id := check]
    {
      hide Lawful, NextTick, SavedIn, Follows;
      SavingIsLawful(L(), id, d, check, Tick(first, last));
      decisions, dependencies, checks := decisions[id := d], dependencies[id := deps], checks[id := check];
      savedAt := savedAt[id := |log|];
      log := log + [Tick(first, last)];
    }

    lemma Stored(id: DecisionId)
      requires Sound() && id in decisions
      ensures 0 < decisions[id].createdAt <= decisions[id].updatedAt && id in dependencies && log != []
      ensures decisions[id].updatedAt <= Clock(log) && DecisionVersion(decisions[id]) == decisions[id].updatedAt
    {
      hide InOrder, Ticking, ReuseWindow, Repeats, TokenSound, ExecutionSound, LatestOnly;
      assert DecisionSound(L(), id);
      assert log[savedAt[id]].last <= Clock(log) by { LogEnds(log, savedAt[id]); }
    }

    lemma Unmoved<K, V>(m: map<K, V>, k: K)
      requires k in m
      ensures m[k := m[k]] == m
    {}

    lemma LogEnds(log: seq<Tick>, k: nat)
      requires k < |log| && Lawful(L()) && log == this.log
      ensures log[k].last <= Clock(log)
    {
      assert InOrder(log);
      if k < |log| - 1 {
        assert log[k].last <= log[|log| - 1].first;
      }
    }

    // ---- Handlers ----------------------------------------------------------------------------------------

    /** Creates a decision, or replaces one of the same id. */
    method CreateDecision(id: DecisionId, decisionFact: FactId, named: seq<FactId>, quorum: map<string, int>, now: int,
                          checkedAt: int)
      returns (ok: bool)
      requires Valid() && InTime(now, checkedAt)
      modifies this`decisions, this`dependencies, this`checks, this`log, this`savedAt, engine`dirty, engine.dominators
      ensures Valid() && log == old(log) + [Tick(now, checkedAt)]
      ensures ok <==> Recordable(engine.facts, decisionFact, named)
      ensures !ok ==> decisions == old(decisions) && dependencies == old(dependencies) && checks == old(checks)
      ensures ok ==> CheckedAt(id, checkedAt) && checks[id].token == None
      ensures ok ==> RecordsFor(engine.facts, sourceRefs, decisionFact, named, dependencies[id])
      ensures ok ==> ChecksFacts(engine.W(), engine.derived, sourceRefs, checks[id], decisionFact, named, quorum,
                                 controls, checkedAt)
      ensures ok ==> decisions ==
                     old(decisions)[id := NewDecision(decisionFact, quorum, checks[id].executable, now, checkedAt)]
      ensures ok ==> dependencies == old(dependencies)[id := dependencies[id]]
      ensures ok ==> checks == old(checks)[id := checks[id]]
    {
      hide Lawful, Engine.Valid, LookedUp, MayExecute, RecordsFor, Recordable, Engine.W, Objections, ChecksFacts;
      var built := BuildDecisionDependencies(engine, decisionFact, named, sourceRefs);
      if built.Failure? {
        Wait(now, checkedAt);
        return false;
      }
      var check := Recheck(built.value, quorum, decisionFact, checkedAt);
      NewCheckIsOfFacts(engine, built.value, check, decisionFact, named, sourceRefs, quorum, controls, checkedAt);
      var status := StatusFromCheck(check.executable, PendingExecution);
      var d := Decision(decisionFact, quorum, status.0, status.1, now, now, checkedAt, 0);
      Save(id, d, built.value, check, now, checkedAt);
      ok := true;
    }

    /** Records dependencies afresh and checks again; an executed decision whose check fails is blocked. */
    method RecomputeDecision(id: DecisionId, fact: FactId, named: seq<FactId>, checkedAt: int, now: int)
      returns (ok: bool)
      requires Valid() && InTime(checkedAt, now)
      modifies this`decisions, this`dependencies, this`checks, this`log, this`savedAt, engine`dirty, engine.dominators
      ensures Valid() && log == old(log) + [Tick(checkedAt, now)]
      ensures ok <==> id in old(decisions) && Recordable(engine.facts, FactOr(fact, old(decisions)[id].factID), named)
      ensures !ok ==> decisions == old(decisions) && dependencies == old(dependencies) && checks == old(checks)
      ensures ok ==> CheckedAt(id, checkedAt) && checks[id].token == None
      ensures ok ==> RecordsFor(engine.facts, sourceRefs, FactOr(fact, old(decisions)[id].factID), named,
                               dependencies[id])
      ensures ok ==> ChecksFacts(engine.W(), engine.derived, sourceRefs, checks[id],
                                 FactOr(fact, old(decisions)[id].factID), named, old(decisions)[id].quorum, controls,
                                 checkedAt)
      ensures ok ==> decisions == old(decisions)[id := AfterCheck(
                old(decisions)[id].(factID := FactOr(fact, old(decisions)[id].factID)), checks[id].executable,
                checkedAt, now)]
      ensures ok ==> dependencies == old(dependencies)[id := dependencies[id]]
      ensures ok ==> checks == old(checks)[id := checks[id]]
    {
      hide Lawful, Engine.Valid, LookedUp, MayExecute, RecordsFor, Recordable, Engine.W, Objections, ChecksFacts;
      if id !in decisions {
        Wait(checkedAt, now);
        return false;
      }
      Stored(id);
      var d := decisions[id];
      var decisionFact := if fact != "" then fact else d.factID;
      var built := BuildDecisionDependencies(engine, decisionFact, named, sourceRefs);
      if built.Failure? {
        Wait(checkedAt, now);
        return false;
      }
      var check := Recheck(built.value, d.quorum, decisionFact, checkedAt);
      NewCheckIsOfFacts(engine, built.value, check, decisionFact, named, sourceRefs, d.quorum, controls, checkedAt);
      var status := StatusFromCheck(check.executable, d.executionStatus);
      d := d.(factID := decisionFact, lastCheckedAt := checkedAt, status := status.0, executionStatus := status.1,
              updatedAt := now);
      Save(id, d, built.value, check, checkedAt, now);
      ok := true;
    }

    /** Checks a decision, and hands out a token when the check passes. */
    method ExecuteDecisionCheck(id: DecisionId, checkedAt: int, now: int) returns (answer: Option<Check>)
      requires Valid() && InTime(checkedAt, now)
      modifies this`decisions, this`dependencies, this`checks, this`log, this`savedAt, this`issued, this`issuedAt,
          engine`dirty, engine.dominators
      ensures Valid() && log == old(log) + [Tick(checkedAt, now)]
      ensures answer.Some? <==> id in old(decisions)
      ensures answer.None? ==>
        decisions == old(decisions) && dependencies == old(dependencies) && issued == old(issued) &&
        checks == old(checks)
      ensures answer.Some? ==> CheckedAt(id, checkedAt)
      ensures answer.Some? ==> answer.value.sessionVersion == sessionVersion && answer.value.decisionVersion == now
      ensures answer.Some? ==> answer.value.token == if answer.value.executable then Some(TokenFor(id, checkedAt, now))
        else None
      ensures answer.Some? ==> issued == old(issued) + if answer.value.executable then {TokenFor(id, checkedAt, now)}
        else {}
      ensures answer.Some? ==> dependencies == old(dependencies) && checks == old(checks)[id := answer.value]
      ensures answer.Some? ==>
        decisions == old(decisions)[id := AfterCheck(old(decisions)[id], answer.value.executable, checkedAt, now)]
    {
      hide Lawful, Engine.Valid, CheckedAt, AfterCheck;
      if id !in decisions {
        Wait(checkedAt, now);
        return None;
      }
      var check := CheckKnown(id, checkedAt, now);
      answer := Some(check);
    }

    /** The part of a check after the decision was found. */
    method CheckKnown(id: DecisionId, checkedAt: int, now: int) returns (check: Check)
      requires Valid() && InTime(checkedAt, now) && id in decisions
      modifies this`decisions, this`dependencies, this`checks, this`log, this`savedAt, this`issued, this`issuedAt,
          engine`dirty, engine.dominators
      ensures Valid() && log == old(log) + [Tick(checkedAt, now)] && CheckedAt(id, checkedAt)
      ensures check.sessionVersion == sessionVersion && check.decisionVersion == now
      ensures check.token == if check.executable then Some(TokenFor(id, checkedAt, now)) else None
      ensures issued == old(issued) + if check.executable then {TokenFor(id, checkedAt, now)} else {}
      ensures dependencies == old(dependencies) && checks == old(checks)[id := check]
      ensures decisions == old(decisions)[id := AfterCheck(old(decisions)[id], check.executable, checkedAt, now)]
    {
      hide Lawful, Engine.Valid, LookedUp, MayExecute, Engine.W, Objections;
      Stored(id);
      Unmoved(dependencies, id);
      check := Recheck(dependencies[id], decisions[id].quorum, decisions[id].factID, checkedAt);
      var status := StatusFromCheck(check.executable, decisions[id].executionStatus);
      var d := decisions[id].(lastCheckedAt := checkedAt, status := status.0, executionStatus := status.1,
                              updatedAt := now);
      check := check.(sessionVersion := sessionVersion, decisionVersion := DecisionVersion(d));
      if check.executable {
        check := check.(token := Some(Claims(session, id, org, check.decisionVersion, check.sessionVersion,
                                             check.checkedAt, check.checkedAt + TOKEN_TTL)));
      }
      Save(id, d, dependencies[id], check, checkedAt, now);
      if check.executable {
        Sign(check.token.value);
      }
    }

    ghost function TokenFor(id: DecisionId, checkedAt: int, now: int): Claims
      reads this`sessionVersion
    {
      Claims(session, id, org, now, sessionVersion, checkedAt, checkedAt + TOKEN_TTL)
    }

    method Sign(c: Claims)
      requires Sound() && c.decision in decisions && c.decision in checks && checks[c.decision].token == Some(c)
      requires c.session == session && c.org == org && c.sessionVersion == sessionVersion
      requires c.expiresAt == c.checkTimestamp + TOKEN_TTL
      requires c.decision in savedAt && 1 <= savedAt[c.decision] < |log|
      requires log[savedAt[c.decision]] == Tick(c.checkTimestamp, c.decisionVersion)
      modifies this`issued, this`issuedAt
      ensures Sound() && issued == old(issued) + {c}
    {
      hide Lawful;
      SigningIsLawful(L(), c);
      issuedAt := if c in issuedAt then issuedAt else issuedAt[c := savedAt[c.decision]];
      issued := issued + {c};
    }

    /** A token counts as signed when this server signed it, for this session or another. */
    ghost predicate IsSigned(c: Claims)
      reads this`issued
    {
      c in issued || c.session != session || c.org != org
    }

    /** All that is asked of a request before the dependencies are looked at once more. */
    ghost predicate Accepts(id: DecisionId, token: Option<Claims>, arrived: int)
      reads this
    {
      id in decisions && decisions[id].executionStatus != Executed &&
      token.Some? && IsSigned(token.value) && InForce(token.value, arrived) &&
      token.value.session == session && token.value.decision == id && token.value.org == org &&
      token.value.sessionVersion == sessionVersion &&
      token.value.decisionVersion == decisions[id].updatedAt &&
      token.value.checkTimestamp == decisions[id].lastCheckedAt
    }

    /** Whether the request fails the test that this answer reports. */
    ghost predicate Fails(answer: ExecuteAnswer, id: DecisionId, token: Option<Claims>, arrived: int)
      reads this
    {
      match answer
      case NoSuchDecision => id !in decisions
      case AlreadyExecuted => id in decisions && decisions[id].executionStatus == Executed
      case BadToken => token.None? || !IsSigned(token.value) || !InForce(token.value, arrived)
      case WrongDecision =>
        token.Some? && (token.value.session != session || token.value.decision != id || token.value.org != org)
      case StaleSession => token.Some? && token.value.sessionVersion != sessionVersion
      case StaleDecision => id in decisions && token.Some? &&
        (token.value.decisionVersion != decisions[id].updatedAt ||
         token.value.checkTimestamp != decisions[id].lastCheckedAt)
      case _ => false
    }

    /** The answer reports the first test that fails. */
    ghost predicate FirstToFail(answer: ExecuteAnswer, id: DecisionId, token: Option<Claims>, arrived: int)
      reads this
    {
      exists n :: 0 <= n < |TESTS| && answer == TESTS[n] && Fails(answer, id, token, arrived) &&
                  forall k | 0 <= k < n :: !Fails(TESTS[k], id, token, arrived)
    }

    /** The entry an execution leaves: its token, the dependencies on record, and the engine's facts as they read at its
        check. */
    ghost function Entry(id: DecisionId, c: Claims, checkedAt: int, now: int): Execution
      reads this, engine
      requires id in dependencies
    {
      Execution(c, now, sessionVersion, dependencies[id], View(checkedAt), id in checks && checks[id].token == Some(c),
                |log|)
    }

    /** Executes a decision on the strength of a token, or blocks it when the dependencies no longer allow it. */
    method ExecuteDecision(id: DecisionId, token: Option<Claims>, arrived: int, checkedAt: int, now: int)
      returns (answer: ExecuteAnswer)
      requires Valid() && InTime(arrived, now) && arrived <= checkedAt <= now
      modifies this`decisions, this`dependencies, this`checks, this`log, this`savedAt, this`executions, engine`dirty,
          engine.dominators
      ensures Valid() && log == old(log) + [Tick(arrived, now)] && dependencies == old(dependencies)
      ensures answer.Executes? || answer.NowBlocked? <==> old(Accepts(id, token, arrived))
      ensures answer.Executes? || answer.NowBlocked? || old(FirstToFail(answer, id, token, arrived))
      ensures answer.Executes? || answer.NowBlocked? || (decisions == old(decisions) && checks == old(checks))
      ensures answer.Executes? || answer.NowBlocked? ==>
        CheckedAt(id, checkedAt) && (answer.Executes? <==> checks[id].executable) && token.Some? &&
        checks[id].sessionVersion == sessionVersion && checks[id].decisionVersion == token.value.decisionVersion
      ensures answer.Executes? || answer.NowBlocked? ==> id in old(decisions)
      ensures answer.Executes? || answer.NowBlocked? ==>
                decisions == old(decisions)[id := AfterExecution(old(decisions)[id], answer.Executes?, checkedAt, now)]
      ensures answer.Executes? ==> id in old(dependencies) && token.Some?
      ensures answer.Executes? ==> executions == old(executions) + [old(Entry(id, token.value, checkedAt, now))]
      ensures answer.Executes? ==> Held(executions[|old(executions)|])
      ensures !answer.Executes? ==> executions == old(executions)
    {
      hide Lawful, Engine.Valid, Held, LookedUp, MayExecute;
      answer := Refusal(id, token, arrived);
      if answer.Executes? {
        answer := CheckAndExecute(id, token.value, arrived, checkedAt, now);
      } else {
        Wait(arrived, now);
      }
    }

    /** The checks of a request in their order; Executes when all of them pass. */
    method Refusal(id: DecisionId, token: Option<Claims>, arrived: int) returns (answer: ExecuteAnswer)
      requires Sound()
      ensures answer.Executes? <==> Accepts(id, token, arrived)
      ensures answer.Executes? || FirstToFail(answer, id, token, arrived)
    {
      hide Lawful, InForce;
      TestsAre();
      if id !in decisions {
        return NoSuchDecision;
      }
      Stored(id);
      if decisions[id].executionStatus == Executed {
        return AlreadyExecuted;
      }
      if token.None? || (token.value !in issued && token.value.session == session && token.value.org == org) ||
          !InForce(token.value, arrived) {
        return BadToken;
      }
      var claims := token.value;
      if claims.session != session || claims.decision != id || claims.org != org {
        return WrongDecision;
      }
      if claims.sessionVersion != sessionVersion {
        return StaleSession;
      }
      if claims.decisionVersion != DecisionVersion(decisions[id]) ||
          claims.checkTimestamp != decisions[id].lastCheckedAt {
        return StaleDecision;
      }
      answer := Executes;
    }

    /** The part of an execution after the token was accepted. */
    method CheckAndExecute(id: DecisionId, claims: Claims, arrived: int, checkedAt: int, now: int)
      returns (answer: ExecuteAnswer)
      requires Valid() && InTime(arrived, now) && arrived <= checkedAt <= now && Accepts(id, Some(claims), arrived)
      modifies this`decisions, this`dependencies, this`checks, this`log, this`savedAt, this`executions, engine`dirty,
          engine.dominators
      ensures Valid() && log == old(log) + [Tick(arrived, now)] && dependencies == old(dependencies)
      ensures (answer.Executes? || answer.NowBlocked?) && CheckedAt(id, checkedAt)
      ensures answer.Executes? <==> checks[id].executable
      ensures checks[id].sessionVersion == sessionVersion && checks[id].decisionVersion == claims.decisionVersion
      ensures id in old(decisions) && id in old(dependencies)
      ensures decisions == old(decisions)[id := AfterExecution(old(decisions)[id], answer.Executes?, checkedAt, now)]
      ensures answer.Executes? ==> executions == old(executions) + [old(Entry(id, claims, checkedAt, now))]
      ensures answer.Executes? ==> Held(executions[|old(executions)|])
      ensures !answer.Executes? ==> executions == old(executions)
    {
      hide Lawful, Engine.Valid, LookedUp, MayExecute, Held, Objections;
      Stored(id);
      Unmoved(dependencies, id);
      var d := decisions[id];
      ghost var entry := Entry(id, claims, checkedAt, now);
      var check := Recheck(dependencies[id], d.quorum, d.factID, checkedAt);
      check := check.(sessionVersion := sessionVersion, decisionVersion := claims.decisionVersion);
      if !check.executable {
        d := d.(status := IsBlocked, executionStatus := BlockedExecution, lastCheckedAt := checkedAt, updatedAt := now);
        Save(id, d, dependencies[id], check, arrived, now);
        return NowBlocked;
      }
      AllHeld(dependencies[id], check, d.quorum, entry);
      d := d.(status := IsExecuted, executionStatus := Executed, lastCheckedAt := checkedAt, executedAt := now,
              updatedAt := now);
      RecordExecution(id, entry, d, check, arrived, now);
      answer := Executes;
    }

    lemma AllHeld(deps: seq<Dependency>, check: Check, quorum: map<string, int>, x: Execution)
      requires LookedUp(engine.W(), engine.derived, check.checkedAt, deps, check.states)
      requires MayExecute(engine.facts, deps, check.states, quorum, controls, check.checkedAt)
      requires x.deps == deps && x.view == View(check.checkedAt)
      ensures Held(x)
    {
      forall dep | dep in deps ensures dep.factID in x.view && x.view[dep.factID] >= THRESHOLD && !dep.reviewRequired {
        ExecutableMeansValid(engine.W(), engine.derived, check.checkedAt, deps, check.states, quorum, controls, dep);
      }
    }

    method RecordExecution(id: DecisionId, ghost x: Execution, d: Decision, check: Check, first: int, last: int)
      requires Sound() && InTime(first, last) && Usable(L(), x.claims, Tick(first, last)) && Held(x)
      requires x.claims.decision == id && id in dependencies
      requires x.at == last && x.step == |log| && x.sessionVersion == sessionVersion && SavedIn(d, Tick(first, last))
      requires (x.latest <==> id in checks && checks[id].token == Some(x.claims)) && d.executionStatus == Executed
      modifies this`decisions, this`checks, this`log, this`savedAt, this`executions
      ensures Sound() && log == old(log) + [Tick(first, last)] && executions == old(executions) + [x]
      ensures decisions == old(decisions)[id := d] && checks == old(checks)[id := check]
    {
      hide Lawful, NextTick, SavedIn, Usable, Held;
      ExecutingIsLawful(L(), x, d, check, Tick(first, last));
      decisions, checks := decisions[id := d], checks[id := check];
      executions := executions + [x];
      savedAt := savedAt[id := |log|];
      log := log + [Tick(first, last)];
    }

    // ---- Changes to the engine ------------------------------------------------------------------------------

    /** A change to the engine that is journaled: the store counts it. */
    method JournaledMutation(op: Op, now: int, last: int)
      requires Valid() && InTime(now, last)
      modifies this`sessionVersion, this`log, engine, engine.dominators
      ensures Valid() && log == old(log) + [Tick(now, last)] && sessionVersion == old(sessionVersion) + 1
      ensures BaseOf(engine) == AfterOp(old(BaseOf(engine)), op, now)
    {
      hide Lawful, Engine.Valid, AfterOp;
      Apply(engine, op, now);
      WaitingIsLawful(L(), Tick(now, last), sessionVersion + 1);
      sessionVersion := sessionVersion + 1;
      log := log + [Tick(now, last)];
    }

    /** A change that is not: a global fact that arrives, or an expiry whose journal entry could not be written. */
    method UnjournaledChange(op: Op, now: int, last: int)
      requires Valid() && InTime(now, last)
      modifies this`log, engine, engine.dominators
      ensures Valid() && log == old(log) + [Tick(now, last)]
      ensures BaseOf(engine) == AfterOp(old(BaseOf(engine)), op, now)
    {
      hide Lawful, Engine.Valid, AfterOp;
      Apply(engine, op, now);
      Wait(now, last);
    }
  }

  // ---- Whole runs ----------------------------------------------------------------------------------------

  datatype Request =
    | Create(id: DecisionId, fact: FactId, named: seq<FactId>, quorum: map<string, int>)
    | Recompute(id: DecisionId, fact: FactId, named: seq<FactId>)
    | CheckRequest(id: DecisionId)
    | ExecuteRequest(id: DecisionId, token: Option<Claims>)
    | Mutate(op: Op)
    | Drift(op: Op)

  /** A request and the times at which its handler reads the clock. */
  datatype Arrival = Arrival(request: Request, first: int, second: int, third: int)

  ghost function TicksOf(arrivals: seq<Arrival>): seq<Tick> {
    seq(|arrivals|, i requires 0 <= i < |arrivals| => Tick(arrivals[i].first, arrivals[i].third))
  }

  method Serve(server: DecisionServer, a: Arrival)
    requires server.Valid() && server.InTime(a.first, a.third) && a.first <= a.second <= a.third
    modifies server, server.engine, server.engine.dominators
    ensures server.Valid() && server.log == old(server.log) + [Tick(a.first, a.third)]
  {
    hide DecisionServer.Valid, DecisionServer.Accepts, DecisionServer.CheckedAt, Held, AfterOp, RecordsFor, Recordable;
    match a.request
    case Create(id, fact, named, quorum) => var _ := server.CreateDecision(id, fact, named, quorum, a.first, a.third);
    case Recompute(id, fact, named) => var _ := server.RecomputeDecision(id, fact, named, a.first, a.third);
    case CheckRequest(id) => var _ := server.ExecuteDecisionCheck(id, a.first, a.third);
    case ExecuteRequest(id, token) => var _ := server.ExecuteDecision(id, token, a.first, a.second, a.third);
    case Mutate(op) => server.JournaledMutation(op, a.first, a.third);
    case Drift(op) => server.UnjournaledChange(op, a.first, a.third);
  }

  /** Each execution used a token signed at the session version it found, and every dependency on record was known,
      at or above the threshold and not recorded as awaiting a review. */
  ghost predicate Honest(executions: seq<Execution>) {
    forall x | x in executions :: x.claims.sessionVersion == x.sessionVersion && Held(x)
  }

  /** Every interleaving of handlers and mutations: executions are honest; a token is used twice only if three
      handlers in a row fall into one tick; and when the clock ticks between handlers, each execution used the token
      of its decision's latest saved check and none was used twice. */
  method Run(session: string, org: string, controls: Controls, sourceRefs: map<FactId, string>, arrivals: seq<Arrival>)
    returns (server: DecisionServer)
    requires InOrder(TicksOf(arrivals)) && forall a | a in arrivals :: a.first <= a.second <= a.third
    ensures server.Valid() && server.log == TicksOf(arrivals) && Honest(server.executions)
    ensures Repeats(server.executions) ==> ReuseWindow(TicksOf(arrivals))
    ensures Ticking(TicksOf(arrivals)) ==> !Repeats(server.executions) && forall x | x in server.executions :: x.latest
  {
    server := new DecisionServer(session, org, controls, sourceRefs);
    ghost var ticks := TicksOf(arrivals);
    hide DecisionServer.Valid, Honest, InOrder, Ticking, Repeats, ReuseWindow;
    for n := 0 to |arrivals|
      invariant server.Valid() && fresh(server) && fresh(server.engine) && fresh(server.engine.dominators)
      invariant server.log == ticks[..n]
    {
      assert arrivals[n] in arrivals;
      NextInOrder(ticks, n);
      Serve(server, arrivals[n]);
    }
    assert ticks[..|arrivals|] == ticks;
    RunIsHonest(server);
  }

  lemma NextInOrder(ticks: seq<Tick>, n: nat)
    requires InOrder(ticks) && n < |ticks|
    ensures Clock(ticks[..n]) <= ticks[n].first && 0 < ticks[n].first <= ticks[n].last
    ensures ticks[..n + 1] == ticks[..n] + [ticks[n]]
  {
    assert n > 0 ==> ticks[n - 1].last <= ticks[n].first;
  }

  lemma RunIsHonest(server: DecisionServer)
    requires server.Valid()
    ensures Honest(server.executions) && (Repeats(server.executions) ==> ReuseWindow(server.log))
    ensures Ticking(server.log) ==> !Repeats(server.executions) && forall x | x in server.executions :: x.latest
  {
    hide Held, ReuseWindow, Repeats, LatestOnly, TokenSound, DecisionSound;
    forall x | x in server.executions ensures x.claims.sessionVersion == x.sessionVersion && Held(x) {
      assert ExecutionSound(server.L(), x);
    }
    if Ticking(server.log) {
      TickingHasNoWindow(server.log);
    }
  }

  // ---- When a token can be used twice --------------------------------------------------------------------

  /** The only decision is "d", which rests on no facts and was last touched at these times. */
  ghost predicate Stage(server: DecisionServer, status: ExecutionStatus, updated: int, checked: int)
    reads server, server.engine, server.engine.dominators
  {
    server.Valid() && server.decisions.Keys == {"d"} && "d" in server.dependencies && server.dependencies["d"] == [] &&
    server.decisions["d"].quorum == map[] && server.decisions["d"].executionStatus == status &&
    server.decisions["d"].updatedAt == updated && server.decisions["d"].lastCheckedAt == checked
  }

  /** A decision that rests on nothing is always executable. */
  lemma NothingObjects(server: DecisionServer, now: int)
    requires server.CheckedAt("d", now) && server.dependencies["d"] == [] && server.decisions["d"].quorum == map[]
    ensures server.checks["d"].executable
  {
    assert server.checks["d"].states == [];
  }

  method Place(server: DecisionServer, t: Tick)
    requires server.Valid() && server.InTime(t.first, t.last) && server.decisions.Keys <= {"d"}
    modifies server`decisions, server`dependencies, server`checks, server`log, server`savedAt, server.engine`dirty,
        server.engine.dominators
    ensures Stage(server, PendingExecution, t.first, t.last) && server.log == old(server.log) + [t]
  {
    hide DecisionServer.Valid, DecisionServer.CheckedAt;
    var ok := server.CreateDecision("d", "", [], map[], t.first, t.last);
    NothingRecorded(server.engine.facts, server.sourceRefs, server.dependencies["d"]);
    NothingObjects(server, t.last);
  }

  lemma NothingRecorded(facts: map<FactId, Fact>, sourceRefs: map<FactId, string>, deps: seq<Dependency>)
    requires RecordsFor(facts, sourceRefs, "", [], deps)
    ensures deps == []
  {
    assert deps == [] || deps[0] in deps;
    assert forall d | d in deps :: Wanted(facts, "", [], d.factID);
  }

  method Obtain(server: DecisionServer, t: Tick, ghost updated: int, ghost checked: int)
    requires Stage(server, PendingExecution, updated, checked) && server.InTime(t.first, t.last)
    modifies server`decisions, server`dependencies, server`checks, server`log, server`savedAt, server`issued,
        server`issuedAt,
             server.engine`dirty, server.engine.dominators
    ensures Stage(server, PendingExecution, t.last, t.first) && server.log == old(server.log) + [t]
    ensures server.TokenFor("d", t.first, t.last) in server.issued
  {
    hide DecisionServer.Valid, DecisionServer.CheckedAt;
    var _ := server.ExecuteDecisionCheck("d", t.first, t.last);
    NothingObjects(server, t.first);
  }

  method Spend(server: DecisionServer, t: Tick, c: Claims)
    requires Stage(server, PendingExecution, c.decisionVersion, c.checkTimestamp) && server.InTime(t.first, t.last)
    requires c in server.issued
    requires c == Claims(server.session, "d", server.org, c.decisionVersion, server.sessionVersion, c.checkTimestamp,
                         c.expiresAt)
    requires InForce(c, t.first) && 0 < c.decisionVersion
    modifies server`decisions, server`dependencies, server`checks, server`log, server`savedAt, server`executions,
             server.engine`dirty, server.engine.dominators
    ensures Stage(server, Executed, t.last, t.last) && server.log == old(server.log) + [t]
    ensures |server.executions| == |old(server.executions)| + 1 && old(server.executions) < server.executions
    ensures server.executions[|old(server.executions)|].claims == c
  {
    hide DecisionServer.Valid, DecisionServer.CheckedAt, Held, InForce, DecisionServer.View;
    var _ := server.ExecuteDecision("d", Some(c), t.first, t.last, t.last);
    NothingObjects(server, t.last);
  }

  method Pass(server: DecisionServer, t: Tick)
    requires server.Valid() && server.InTime(t.first, t.last) && server.decisions.Keys <= {"d"}
    modifies server`decisions, server`dependencies, server`checks, server`log, server`savedAt, server`issued,
        server`issuedAt,
             server.engine`dirty, server.engine.dominators
    ensures server.Valid() && server.log == old(server.log) + [t] && server.issued == old(server.issued)
    ensures server.decisions == old(server.decisions) && server.dependencies == old(server.dependencies)
  {
    hide DecisionServer.Valid, DecisionServer.CheckedAt;
    var _ := server.ExecuteDecisionCheck("?", t.first, t.last);
  }

  /** Three handlers in one tick: a check, an execution, and the same decision created anew. */
  method OneTickThrice(server: DecisionServer, v: int, ghost updated: int, ghost checked: int) returns (c: Claims)
    requires Stage(server, PendingExecution, updated, checked) && server.InTime(v, v)
    modifies server, server.engine`dirty, server.engine.dominators
    ensures Stage(server, PendingExecution, v, v)
    ensures server.log == old(server.log) + [Tick(v, v), Tick(v, v), Tick(v, v)]
    ensures c == Claims(server.session, "d", server.org, v, server.sessionVersion, v, v + TOKEN_TTL)
    ensures c in server.issued
    ensures |server.executions| == |old(server.executions)| + 1
    ensures server.executions[|old(server.executions)|].claims == c
    ensures server.sessionVersion == old(server.sessionVersion)
  {
    hide DecisionServer.Valid, ReuseWindow;
    Obtain(server, Tick(v, v), updated, checked);
    c := Claims(server.session, "d", server.org, v, server.sessionVersion, v, v + TOKEN_TTL);
    Spend(server, Tick(v, v), c);
    Place(server, Tick(v, v));
  }

  /** The condition is exact: on any schedule with such a window, some run from a new server uses a token twice. */
  method ReuseOnSchedule(session: string, org: string, controls: Controls, ticks: seq<Tick>, p: int)
    returns (server: DecisionServer)
    requires InOrder(ticks) && WindowAt(ticks, p)
    ensures server.Valid() && server.log == ticks && Repeats(server.executions)
  {
    server := new DecisionServer(session, org, controls, map[]);
    hide DecisionServer.Valid, Repeats, InOrder;
    WindowTimes(ticks, p);
    NextInOrder(ticks, 0);
    Place(server, ticks[0]);
    for n := 1 to p
      invariant Stage(server, PendingExecution, ticks[0].first, ticks[0].last) && server.log == ticks[..n]
      invariant server.executions == [] && server.sessionVersion == 0
      invariant fresh(server) && fresh(server.engine) && fresh(server.engine.dominators)
    {
      NextInOrder(ticks, n);
      Pass(server, ticks[n]);
    }
    NextInOrder(ticks, p);
    var c := OneTickThrice(server, ticks[p].first, ticks[0].first, ticks[0].last);
    NextInOrder(ticks, p + 3);
    Spend(server, ticks[p + 3], c);
    for n := p + 4 to |ticks|
      invariant server.Valid() && server.log == ticks[..n] && server.decisions.Keys <= {"d"}
      invariant |server.executions| == 2 && server.executions[0].claims == server.executions[1].claims
      invariant fresh(server) && fresh(server.engine) && fresh(server.engine.dominators)
    {
      NextInOrder(ticks, n);
      Pass(server, ticks[n]);
    }
    assert ticks[..|ticks|] == ticks;
    TwiceIsRepeat(server.executions);
  }

  lemma TwiceIsRepeat(executions: seq<Execution>)
    requires |executions| == 2 && executions[0].claims == executions[1].claims
    ensures Repeats(executions)
  {}

  /** The three handlers of a window all read one time, at which its token is in force until the next one. */
  lemma WindowTimes(ticks: seq<Tick>, p: int)
    requires InOrder(ticks) && WindowAt(ticks, p)
    ensures var v := ticks[p].first;
      0 < v && ticks[p] == Tick(v, v) && ticks[p + 1] == Tick(v, v) && ticks[p + 2] == Tick(v, v) &&
      WholeSeconds(v) <= v < WholeSeconds(v + TOKEN_TTL) && v <= ticks[p + 3].first
    ensures ticks[..p + 3] == ticks[..p] + [ticks[p], ticks[p + 1], ticks[p + 2]]
  {
    assert ticks[p].last <= ticks[p + 1].first && ticks[p + 1].last <= ticks[p + 2].first &&
           ticks[p + 2].last <= ticks[p + 3].first;
  }
}
