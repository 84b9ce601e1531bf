/** The protocol of execution tokens, as values: what the server stores, what it has signed, and what was executed. */
module Ledgers {
  import opened Facts
  import opened Decisions

  datatype DecisionStatus = Active | IsBlocked | IsExecuted
  datatype ExecutionStatus = PendingExecution | BlockedExecution | Executed

  datatype Decision = Decision(factID: FactId, quorum: map<string, int>, status: DecisionStatus,
                               executionStatus: ExecutionStatus,
                               createdAt: int, updatedAt: int, lastCheckedAt: int, executedAt: int)

  function DecisionVersion(d: Decision): int {
    if d.updatedAt > 0 then d.updatedAt else d.createdAt
  }

  /** A failing check reopens even an executed decision; a passing one leaves it executed. */
  function StatusFromCheck(executable: bool, existing: ExecutionStatus): (r: (DecisionStatus, ExecutionStatus))
    ensures r.1 == Executed <==> executable && existing == Executed
    ensures r.1 == BlockedExecution <==> !executable
    ensures (r.0 == IsExecuted <==> r.1 == Executed) && (r.0 == IsBlocked <==> r.1 == BlockedExecution)
  {
    if executable then if existing == Executed then (IsExecuted, Executed) else (Active, PendingExecution)
    else (IsBlocked, BlockedExecution)
  }

  const TOKEN_TTL: int := 30000

  function WholeSeconds(ms: int): int {
    ms - ms % 1000
  }

  /** Token times are kept in whole seconds. */
  predicate InForce(c: Claims, now: int) {
    WholeSeconds(c.checkTimestamp) <= now < WholeSeconds(c.expiresAt)
  }

  /** A token lives for thirty seconds, counted in whole seconds from the second of its check. */
  lemma TokenLifetime(c: Claims, now: int)
    requires c.expiresAt == c.checkTimestamp + TOKEN_TTL
    ensures InForce(c, now) <==> c.checkTimestamp / 1000 <= now / 1000 < c.checkTimestamp / 1000 + 30
  {}

  // ---- Time ---------------------------------------------------------------------------------------------

  /** The first and the last time a handler reads. */
  datatype Tick = Tick(first: int, last: int)

  ghost function Clock(log: seq<Tick>): int {
    if log == [] then 0 else log[|log| - 1].last
  }

  ghost predicate InOrder(log: seq<Tick>) {
    (forall k | 0 <= k < |log| :: 0 < log[k].first <= log[k].last) &&
    forall k, l | 0 <= k < l < |log| :: log[k].last <= log[l].first
  }

  /** The clock ticks between handlers. */
  ghost predicate Ticking(log: seq<Tick>) {
    forall k, l | 0 <= k < l < |log| :: log[k].last < log[l].first
  }

  /** Three handlers in a row fall into one tick, with one before them and one after them in time for a token of that
      tick. */
  ghost predicate ReuseWindow(log: seq<Tick>) {
    exists p :: WindowAt(log, p)
  }

  ghost predicate WindowAt(log: seq<Tick>, p: int) {
    1 <= p && p + 3 < |log| && log[p].first == log[p + 2].last &&
    log[p + 3].first < WholeSeconds(log[p].first + TOKEN_TTL)
  }

  lemma WindowStays(log: seq<Tick>, t: Tick)
    requires ReuseWindow(log)
    ensures ReuseWindow(log + [t])
  {
    var p :| WindowAt(log, p);
    assert WindowAt(log + [t], p);
  }

  lemma TickingHasNoWindow(log: seq<Tick>)
    requires Ticking(log) && InOrder(log)
    ensures !ReuseWindow(log)
  {
    forall p ensures !WindowAt(log, p) {
      assert 1 <= p && p + 3 < |log| ==> log[p].last < log[p + 2].first;
    }
  }

  lemma LogGrows(log: seq<Tick>, t: Tick)
    requires InOrder(log) && Clock(log) <= t.first && 0 < t.first <= t.last
    ensures InOrder(log + [t]) && Clock(log + [t]) == t.last
    ensures Ticking(log + [t]) ==> Ticking(log) && forall k | 0 <= k < |log| :: log[k].last < t.first
    ensures forall k | 0 <= k < |log| :: log[k].last <= t.first
  {
    var more := log + [t];
    forall k | 0 <= k < |log| ensures log[k].last <= t.first {
      assert k < |log| - 1 ==> log[k].last <= log[|log| - 1].first;
    }
    if Ticking(more) {
      forall k, l | 0 <= k < l < |log| ensures log[k].last < log[l].first {
        assert more[k] == log[k] && more[l] == log[l];
      }
      forall k | 0 <= k < |log| ensures log[k].last < t.first {
        assert more[k] == log[k] && more[|log|] == t;
      }
    }
  }

  // ---- The ledger ----------------------------------------------------------------------------------------

  /** One execution: the token it used, when and at which session version, the dependencies on record, how the
      engine's facts read at that moment, whether the token was that of the decision's latest saved check, and its
      place in the log. */
  datatype Execution = Execution(claims: Claims, at: int, sessionVersion: nat,
                                 deps: seq<Dependency>, view: map<FactId, Status>,
                                 latest: bool, step: nat)

  datatype Ledger = Ledger(session: string, org: string, decisions: map<DecisionId, Decision>,
                           checks: map<DecisionId, Check>, issued: set<Claims>,
                           executions: seq<Execution>, sessionVersion: nat, log: seq<Tick>,
                           issuedAt: map<Claims, nat>, savedAt: map<DecisionId, nat>)

  /** The decision was last saved by the handler at its place in the log. */
  ghost predicate DecisionSound(l: Ledger, id: DecisionId) {
    id in l.decisions && id in l.savedAt && l.savedAt[id] < |l.log| && SavedIn(l.decisions[id], l.log[l.savedAt[id]])
  }

  ghost predicate SavedIn(d: Decision, t: Tick) {
    0 < d.createdAt <= d.updatedAt && t.first <= d.updatedAt <= t.last && t.first <= d.lastCheckedAt <= t.last &&
    (d.updatedAt == t.last || d.lastCheckedAt == t.last)
  }

  /** A token was issued by a handler that was not the first, for a decision not saved earlier than that. */
  ghost predicate TokenSound(l: Ledger, c: Claims) {
    c.session == l.session && c.org == l.org && c.sessionVersion <= l.sessionVersion &&
    c.expiresAt == c.checkTimestamp + TOKEN_TTL &&
    c.decision in l.decisions && c in l.issuedAt && 1 <= l.issuedAt[c] < |l.log| &&
    l.log[l.issuedAt[c]] == Tick(c.checkTimestamp, c.decisionVersion) && c.decision in l.savedAt &&
    l.issuedAt[c] <= l.savedAt[c.decision]
  }

  /** Every recorded dependency is known, at or above the threshold, and was not recorded as awaiting a review. */
  ghost predicate Held(x: Execution) {
    forall dep | dep in x.deps :: dep.factID in x.view && x.view[dep.factID] >= THRESHOLD && !dep.reviewRequired
  }

  ghost predicate ExecutionSound(l: Ledger, x: Execution) {
    x.claims in l.issued && x.claims in l.issuedAt && x.claims.sessionVersion == x.sessionVersion && Held(x) &&
    l.issuedAt[x.claims] < x.step < |l.log| && x.at == l.log[x.step].last &&
    x.claims.decision in l.decisions && x.claims.decision in l.savedAt && x.step <= l.savedAt[x.claims.decision] &&
    (x.step == l.savedAt[x.claims.decision] ==> l.decisions[x.claims.decision].executionStatus == Executed)
  }

  ghost predicate Repeats(executions: seq<Execution>) {
    exists i, k :: 0 <= i < k < |executions| && executions[i].claims == executions[k].claims
  }

  /** A token that would still be accepted is the one of the decision's latest saved check. */
  ghost predicate LatestOnly(l: Ledger) {
    forall c | c in l.issued && c.decision in l.decisions && c.decisionVersion == l.decisions[c.decision].updatedAt ::
      c.decision in l.checks && l.checks[c.decision].token == Some(c)
  }

  ghost predicate Lawful(l: Ledger) {
    InOrder(l.log) && (forall id | id in l.decisions :: DecisionSound(l, id)) &&
    (forall c | c in l.issued :: TokenSound(l, c)) &&
    (forall x | x in l.executions :: ExecutionSound(l, x)) && (Repeats(l.executions) ==> ReuseWindow(l.log)) &&
    (Ticking(l.log) ==> LatestOnly(l) && forall x | x in l.executions :: x.latest)
  }

  lemma NothingYet(session: string, org: string)
    ensures Lawful(Ledger(session, org, map[], map[], {}, [], 0, [], map[], map[]))
  {}

  // ---- What handlers do to it ----------------------------------------------------------------------------

  ghost predicate NextTick(l: Ledger, t: Tick) {
    Clock(l.log) <= t.first && 0 < t.first <= t.last
  }

  ghost function Waited(l: Ledger, t: Tick, sessionVersion: nat): Ledger {
    l.(log := l.log + [t], sessionVersion := sessionVersion)
  }

  ghost function Saved(l: Ledger, id: DecisionId, d: Decision, check: Check, t: Tick): Ledger {
    l.(decisions := l.decisions[id := d], checks := l.checks[id := check], log := l.log + [t],
       savedAt := l.savedAt[id := |l.log|])
  }

  ghost function Signed(l: Ledger, c: Claims): Ledger
    requires c.decision in l.savedAt
  {
    l.(issued := l.issued + {c},
       issuedAt := if c in l.issuedAt then l.issuedAt else l.issuedAt[c := l.savedAt[c.decision]])
  }

  /** One more handler has run: nothing signed or executed was forgotten, and each decision is as it was or was saved
      last. */
  ghost predicate Follows(l: Ledger, l': Ledger) {
    l'.session == l.session && l'.org == l.org && l.sessionVersion <= l'.sessionVersion && l'.issuedAt == l.issuedAt &&
    l'.issued == l.issued && |l'.log| == |l.log| + 1 && (forall k | 0 <= k < |l.log| :: l'.log[k] == l.log[k]) &&
    forall id | id in l.decisions && id in l.savedAt :: StillThere(l, l', id)
  }

  ghost predicate StillThere(l: Ledger, l': Ledger, id: DecisionId) {
    id in l'.decisions && id in l'.savedAt &&
    (l'.savedAt[id] == |l.log| ||
     (id in l.savedAt && id in l.decisions && l'.savedAt[id] == l.savedAt[id] && l'.decisions[id] == l.decisions[id]))
  }

  lemma TokenStays(l: Ledger, l': Ledger, c: Claims)
    requires Follows(l, l') && TokenSound(l, c)
    ensures TokenSound(l', c)
  {
    assert StillThere(l, l', c.decision);
  }

  lemma ExecutionStays(l: Ledger, l': Ledger, x: Execution)
    requires Follows(l, l') && ExecutionSound(l, x)
    ensures ExecutionSound(l', x)
  {
    hide Held;
    assert StillThere(l, l', x.claims.decision);
  }

  lemma AllStay(l: Ledger, l': Ledger)
    requires Lawful(l) && Follows(l, l')
    ensures forall c | c in l.issued :: TokenSound(l', c)
    ensures forall x | x in l.executions :: ExecutionSound(l', x)
  {
    hide Follows, TokenSound, ExecutionSound, InOrder, Ticking, ReuseWindow, Repeats, DecisionSound, LatestOnly;
    forall c | c in l.issued ensures TokenSound(l', c) { TokenStays(l, l', c); }
    forall x | x in l.executions ensures ExecutionSound(l', x) { ExecutionStays(l, l', x); }
  }

  lemma WindowsStay(l: Ledger, t: Tick)
    requires Lawful(l)
    ensures Repeats(l.executions) ==> ReuseWindow(l.log + [t])
  {
    hide TokenSound, ExecutionSound, InOrder, DecisionSound, LatestOnly, WindowAt;
    if ReuseWindow(l.log) { WindowStays(l.log, t); }
  }

  /** A handler that saves nothing, with or without a journaled mutation. */
  lemma WaitingIsLawful(l: Ledger, t: Tick, sessionVersion: nat)
    requires Lawful(l) && NextTick(l, t) && l.sessionVersion <= sessionVersion
    ensures Lawful(Waited(l, t, sessionVersion))
  {
    var l' := Waited(l, t, sessionVersion);
    forall id | id in l'.decisions ensures DecisionSound(l', id) &&
        StillThere(l, l', id) { assert DecisionSound(l, id); }
    assert Follows(l, l');
    hide Follows, TokenSound, ExecutionSound, InOrder, Ticking, ReuseWindow, Repeats, DecisionSound, StillThere;
    LogGrows(l.log, t);
    WindowsStay(l, t);
    AllStay(l, l');
  }

  /** Saving a decision voids its tokens, unless the clock stands still. */
  lemma SavingIsLawful(l: Ledger, id: DecisionId, d: Decision, check: Check, t: Tick)
    requires Lawful(l) && NextTick(l, t) && SavedIn(d, t)
    ensures Lawful(Saved(l, id, d, check, t))
    ensures Follows(l, Saved(l, id, d, check, t))
  {
    var l' := Saved(l, id, d, check, t);
    hide InOrder, Ticking, ReuseWindow, Repeats, TokenSound, ExecutionSound, LatestOnly, SavedIn;
    DecisionsAfterSave(l, id, d, check, t);
    hide Follows, DecisionSound, Saved;
    LogGrows(l.log, t);
    WindowsStay(l, t);
    AllStay(l, l');
    if Ticking(l'.log) { LatestAfterSave(l, id, d, check, t); }
    SavedParts(l, id, d, check, t);
  }

  lemma SavedParts(l: Ledger, id: DecisionId, d: Decision, check: Check, t: Tick)
    ensures var l' := Saved(l, id, d, check, t);
      l'.log == l.log + [t] && l'.issued == l.issued && l'.executions == l.executions &&
      l'.sessionVersion == l.sessionVersion
  {}

  lemma DecisionsAfterSave(l: Ledger, id: DecisionId, d: Decision, check: Check, t: Tick)
    requires Lawful(l) && SavedIn(d, t)
    ensures Follows(l, Saved(l, id, d, check, t))
    ensures forall i | i in Saved(l, id, d, check, t).decisions :: DecisionSound(Saved(l, id, d, check, t), i)
  {
    hide InOrder, Ticking, ReuseWindow, Repeats, TokenSound, ExecutionSound, LatestOnly, SavedIn;
    var l' := Saved(l, id, d, check, t);
    forall i | i in l'.decisions ensures DecisionSound(l', i) { assert i != id ==> DecisionSound(l, i); }
    forall i | i in l.decisions && i in l.savedAt ensures StillThere(l, l', i) {}
  }

  lemma LatestAfterSave(l: Ledger, id: DecisionId, d: Decision, check: Check, t: Tick)
    requires Lawful(l) && NextTick(l, t) && SavedIn(d, t) && Ticking(l.log + [t])
    ensures LatestOnly(Saved(l, id, d, check, t))
  {
    var l' := Saved(l, id, d, check, t);
    LogGrows(l.log, t);
    hide InOrder, Ticking, ReuseWindow, Repeats, ExecutionSound, DecisionSound;
    forall c | c in l'.issued && c.decision in l'.decisions && c.decisionVersion == l'.decisions[c.decision].updatedAt
      ensures c.decision in l'.checks && l'.checks[c.decision].token == Some(c)
    {
      assert TokenSound(l, c);
      assert l.log[l.issuedAt[c]].last < t.first;
    }
  }

  /** Signing the token of a check just saved. */
  lemma SigningIsLawful(l: Ledger, c: Claims)
    requires Lawful(l) && c.decision in l.decisions && c.decision in l.checks && l.checks[c.decision].token == Some(c)
    requires c.session == l.session && c.org == l.org && c.sessionVersion == l.sessionVersion
    requires c.expiresAt == c.checkTimestamp + TOKEN_TTL
    requires c.decision in l.savedAt && 1 <= l.savedAt[c.decision] < |l.log|
    requires l.log[l.savedAt[c.decision]] == Tick(c.checkTimestamp, c.decisionVersion)
    requires c in l.issuedAt ==> c in l.issued
    ensures Lawful(Signed(l, c))
  {
    var l' := Signed(l, c);
    hide InOrder, Ticking, ReuseWindow, Repeats;
    forall a | a in l'.issued ensures TokenSound(l', a) {
      assert a in l.issued ==> TokenSound(l, a);
    }
    forall i | i in l'.decisions ensures DecisionSound(l', i) { assert DecisionSound(l, i); }
    forall x | x in l'.executions ensures ExecutionSound(l', x) { assert ExecutionSound(l, x); }
  }

  /** What a token must satisfy to be used by a handler that begins at t.first. */
  ghost predicate Usable(l: Ledger, c: Claims, t: Tick) {
    c in l.issued && c.decision in l.decisions && l.decisions[c.decision].executionStatus != Executed &&
    c.decisionVersion == l.decisions[c.decision].updatedAt &&
    c.checkTimestamp == l.decisions[c.decision].lastCheckedAt &&
    c.sessionVersion == l.sessionVersion && InForce(c, t.first)
  }

  /** A token that was used before is usable again only within one tick: its check, its first use and the handler that
      reopened the decision all fell into it. */
  lemma SecondUseNeedsWindow(l: Ledger, x: Execution, t: Tick)
    requires Lawful(l) && NextTick(l, t) && x in l.executions && Usable(l, x.claims, t)
    ensures ReuseWindow(l.log + [t])
  {
    var c, log := x.claims, l.log + [t];
    assert ExecutionSound(l, x) && TokenSound(l, c) && DecisionSound(l, c.decision);
    var p, q, s := l.issuedAt[c], x.step, l.savedAt[c.decision];
    assert q < s;
    LogGrows(l.log, t);
    OneTick(l.log, p, q, s, l.decisions[c.decision], c.checkTimestamp, c.decisionVersion);
    assert log[p + 3].first <= t.first by {
      if p + 3 < |l.log| {
        assert l.log[p + 3].last <= t.first && log[p + 3] == l.log[p + 3];
      }
    }
    assert log[p] == l.log[p] && log[p + 2] == l.log[p + 2];
    assert WindowAt(log, p);
  }

  lemma OneTick(log: seq<Tick>, p: nat, q: nat, s: nat, d: Decision, checked: int, version: int)
    requires InOrder(log) && p < q < s < |log| && log[p] == Tick(checked, version)
    requires SavedIn(d, log[s]) && d.updatedAt == version && d.lastCheckedAt == checked
    ensures p + 2 < |log| && log[p].first == log[p + 2].last
  {
    assert log[p].last <= log[q].first && log[q].last <= log[s].first;
    assert log[s].first == version == checked && log[s].last == version;
    if p + 2 < s {
      assert log[p].last <= log[p + 2].first && log[p + 2].last <= log[s].first;
    }
  }

  /** Executing a decision with a usable token. */
  lemma ExecutingIsLawful(l: Ledger, x: Execution, d: Decision, check: Check, t: Tick)
    requires Lawful(l) && NextTick(l, t) && Usable(l, x.claims, t) && Held(x)
    requires x.at == t.last && x.step == |l.log| && x.sessionVersion == l.sessionVersion
    requires x.latest <==> x.claims.decision in l.checks && l.checks[x.claims.decision].token == Some(x.claims)
    requires SavedIn(d, t) && d.executionStatus == Executed
    ensures Lawful(Saved(l, x.claims.decision, d, check, t).(executions := l.executions + [x]))
  {
    var id := x.claims.decision;
    var l1 := Saved(l, id, d, check, t);
    var l' := l1.(executions := l.executions + [x]);
    ExecutionIsSound(l, x, d, check, t);
    if Repeats(l'.executions) {
      RepeatNeedsWindow(l, x, t);
    }
    LogGrows(l.log, t);
    assert Ticking(l.log + [t]) ==> x.latest by { UsableIsLatest(l, x, t); }
    hide InOrder, Ticking, ReuseWindow, Repeats, Held, TokenSound, ExecutionSound, DecisionSound, LatestOnly, SavedIn,
         Usable;
    SavingIsLawful(l, id, d, check, t);
    hide Saved, Follows;
    SavedParts(l, id, d, check, t);
    MoreExecutions(l1, x);
  }

  lemma UsableIsLatest(l: Ledger, x: Execution, t: Tick)
    requires Lawful(l) && Usable(l, x.claims, t)
    requires x.latest <==> x.claims.decision in l.checks && l.checks[x.claims.decision].token == Some(x.claims)
    ensures Ticking(l.log) ==> x.latest
  {}

  lemma ExecutionIsSound(l: Ledger, x: Execution, d: Decision, check: Check, t: Tick)
    requires Lawful(l) && Usable(l, x.claims, t) && Held(x) && x.at == t.last && x.step == |l.log|
    requires x.sessionVersion == l.sessionVersion
    requires d.executionStatus == Executed
    ensures ExecutionSound(Saved(l, x.claims.decision, d, check, t), x)
  {
    assert TokenSound(l, x.claims);
    hide Held, InOrder, Ticking, ReuseWindow, Repeats;
  }

  /** Adding an execution to a ledger in which it is sound. */
  lemma MoreExecutions(l: Ledger, x: Execution)
    requires Lawful(l) && ExecutionSound(l, x) && (Ticking(l.log) ==> x.latest)
    requires (Repeats(l.executions + [x]) ==> ReuseWindow(l.log))
    ensures Lawful(l.(executions := l.executions + [x]))
  {
    var l' := l.(executions := l.executions + [x]);
    hide InOrder, Ticking, ReuseWindow, Repeats, Held;
    forall c | c in l'.issued ensures TokenSound(l', c) { assert TokenSound(l, c); }
    forall i | i in l'.decisions ensures DecisionSound(l', i) { assert DecisionSound(l, i); }
    forall y | y in l'.executions ensures ExecutionSound(l', y) { assert ExecutionSound(l, y); }
  }

  lemma RepeatNeedsWindow(l: Ledger, x: Execution, t: Tick)
    requires Lawful(l) && NextTick(l, t) && Usable(l, x.claims, t) && Repeats(l.executions + [x])
    ensures ReuseWindow(l.log + [t])
  {
    var more := l.executions + [x];
    var i, k :| 0 <= i < k < |more| && more[i].claims == more[k].claims;
    if k < |l.executions| {
      assert l.executions[i].claims == l.executions[k].claims;
      assert Repeats(l.executions);
      WindowStays(l.log, t);
    } else {
      assert l.executions[i] in l.executions;
      SecondUseNeedsWindow(l, l.executions[i], t);
    }
  }
}
