/** The shared fact namespace: which sessions depend on which global facts, and who hears of a change. */
module GlobalTruths {
  import opened Facts
  import opened Strings
  import opened Digraph
  import opened Engines
  import opened Partitions
  import Cycles
  import Semantics

  type SessionId = string
  type DepIndex = map<FactId, set<SessionId>>
  type SessionDeps = map<SessionId, set<FactId>>

  // ---- The two indexes ---------------------------------------------------------------------------------

  function SessionsOf(index: DepIndex, f: FactId): set<SessionId> {
    if f in index then index[f] else {}
  }

  function DepsOf(deps: SessionDeps, s: SessionId): set<FactId> {
    if s in deps then deps[s] else {}
  }

  /** The two indexes say the same, and the first keeps no empty entries. */
  ghost predicate Inverse(index: DepIndex, deps: SessionDeps) {
    (forall f, s :: s in SessionsOf(index, f) <==> f in DepsOf(deps, s)) && forall f | f in index :: index[f] != {}
  }

  /** So each determines the other. */
  lemma InverseIsUnique(a: DepIndex, b: DepIndex, deps: SessionDeps)
    requires Inverse(a, deps) && Inverse(b, deps)
    ensures a == b
  {
    forall f ensures SessionsOf(a, f) == SessionsOf(b, f) {
      forall s ensures s in SessionsOf(a, f) <==> s in SessionsOf(b, f) {
        assert s in SessionsOf(a, f) <==> f in DepsOf(deps, s);
      }
    }
    forall f ensures f in a <==> f in b {
      assert SessionsOf(a, f) == SessionsOf(b, f);
    }
    forall f | f in a ensures a[f] == b[f] {
      assert SessionsOf(a, f) == SessionsOf(b, f);
    }
  }

  function AddEntry(index: DepIndex, f: FactId, s: SessionId): DepIndex {
    index[f := SessionsOf(index, f) + {s}]
  }

  /** Drops the pair, and the whole entry once it is empty. */
  function DropEntry(index: DepIndex, f: FactId, s: SessionId): DepIndex {
    if f !in index then index
    else if index[f] - {s} == {} then index - {f}
    else index[f := index[f] - {s}]
  }

  lemma AddKeepsInverse(index: DepIndex, deps: SessionDeps, f: FactId, s: SessionId)
    requires Inverse(index, deps)
    ensures Inverse(AddEntry(index, f, s), deps[s := DepsOf(deps, s) + {f}])
  {
    var index', deps' := AddEntry(index, f, s), deps[s := DepsOf(deps, s) + {f}];
    forall g, t ensures t in SessionsOf(index', g) <==> g in DepsOf(deps', t) {
      assert t in SessionsOf(index, g) <==> g in DepsOf(deps, t);
    }
  }

  lemma DropKeepsInverse(index: DepIndex, deps: SessionDeps, f: FactId, s: SessionId)
    requires Inverse(index, deps) && s in deps
    ensures Inverse(DropEntry(index, f, s), deps[s := deps[s] - {f}])
  {
    var index', deps' := DropEntry(index, f, s), deps[s := deps[s] - {f}];
    forall g, t ensures t in SessionsOf(index', g) <==> g in DepsOf(deps', t) {
      assert t in SessionsOf(index, g) <==> g in DepsOf(deps, t);
      assert t in SessionsOf(index, f) ==> t == s || t in SessionsOf(index, f) - {s};
    }
  }

  lemma EmptyDepsDropped(index: DepIndex, deps: SessionDeps, s: SessionId)
    requires Inverse(index, deps) && DepsOf(deps, s) == {}
    ensures Inverse(index, deps - {s}) && Inverse(index, deps[s := {}])
  {
    forall g, t ensures t in SessionsOf(index, g) <==> g in DepsOf(deps - {s}, t) {
      assert t in SessionsOf(index, g) <==> g in DepsOf(deps, t);
    }
    forall g, t ensures t in SessionsOf(index, g) <==> g in DepsOf(deps[s := {}], t) {
      assert t in SessionsOf(index, g) <==> g in DepsOf(deps, t);
    }
  }

  /** The global facts that some fact of an engine names. */
  ghost predicate NamedGlobal(held: map<FactId, Fact>, global: set<FactId>, p: FactId) {
    p != "" && p in global && exists f :: f in held && Names(held[f], p)
  }

  ghost function NamedGlobals(held: map<FactId, Fact>, global: set<FactId>): set<FactId> {
    set p | p in global && NamedGlobal(held, global, p)
  }

  ghost function NamedByFact(fact: Fact, global: set<FactId>): set<FactId> {
    set p | p in global && p != "" && Names(fact, p)
  }

  /** The global facts connected to f by dependencies among global facts. */
  ghost function Component(facts: map<FactId, Fact>, f: FactId): set<FactId> {
    {f} + set g | g in facts && Reaches(Links(facts), f, g)
  }

  /** The sessions concerned, subscribed or not. */
  ghost function ConcernedSessions(facts: map<FactId, Fact>, deps: SessionDeps, f: FactId): set<SessionId> {
    set s | s in deps && Concerned(facts, deps, f, s)
  }

  /** Who is told of a retraction: the subscribed sessions that are concerned when some session is concerned but fewer
      sessions than there are subscribers; else every subscriber. */
  ghost function TargetsOf(facts: map<FactId, Fact>, deps: SessionDeps,
                           subscribed: set<SessionId>, f: FactId): set<SessionId> {
    var concerned := ConcernedSessions(facts, deps, f);
    if 0 < |concerned| < |subscribed| then concerned * subscribed else subscribed
  }

  /** Who is told of an assertion: the subscribed sessions that are concerned when the fact was there before and there
      are such sessions; else every subscriber. */
  ghost function OfferedTo(existed: bool, facts: map<FactId, Fact>, deps: SessionDeps, subscribed: set<SessionId>,
                           f: FactId): set<SessionId> {
    var concerned := ConcernedSessions(facts, deps, f) * subscribed;
    if existed && concerned != {} then concerned else subscribed
  }

  /** Everyone concerned is told, but possibly nobody at all: when the concerned sessions are fewer than the subscribers
      and none of them subscribes. */
  lemma WhoIsTold(facts: map<FactId, Fact>, deps: SessionDeps, subscribed: set<SessionId>, f: FactId)
    ensures forall s | s in subscribed && Concerned(facts, deps, f, s) :: s in TargetsOf(facts, deps, subscribed, f)
    ensures subscribed != {} ==> (TargetsOf(facts, deps, subscribed, f) == {} <==>
              var concerned := ConcernedSessions(facts, deps, f);
              concerned != {} && |concerned| < |subscribed| && concerned !! subscribed)
  {
    hide Concerned;
    ConcernedAreIndexed(facts, deps, f);
  }

  /** Everyone concerned hears of an assertion, and somebody does if anybody subscribes; of a change to a fact that
      concerns some subscriber, only those it concerns. */
  lemma WhoIsOffered(existed: bool, facts: map<FactId, Fact>, deps: SessionDeps, subscribed: set<SessionId>, f: FactId)
    ensures var told := OfferedTo(existed, facts, deps, subscribed, f);
      (forall s | s in subscribed && Concerned(facts, deps, f, s) :: s in told) &&
      (told == {} <==> subscribed == {}) &&
      ((forall s | s in told :: Concerned(facts, deps, f, s)) <==>
       (existed && exists s :: s in subscribed && Concerned(facts, deps, f, s)) ||
       forall s | s in subscribed :: Concerned(facts, deps, f, s))
  {
    ConcernedAreIndexed(facts, deps, f);
    hide Concerned;
    var concerned := ConcernedSessions(facts, deps, f) * subscribed;
    if s :| s in subscribed && Concerned(facts, deps, f, s) {
      assert s in concerned;
    }
  }

  lemma ConcernedAreIndexed(facts: map<FactId, Fact>, deps: SessionDeps, f: FactId)
    ensures forall s :: s in ConcernedSessions(facts, deps, f) <==> Concerned(facts, deps, f, s)
  {
    forall s | Concerned(facts, deps, f, s) ensures s in deps {
      assert DepsOf(deps, s) != {};
    }
    hide Concerned;
  }

  /** A session depends on something in the component of f. */
  ghost predicate Concerned(facts: map<FactId, Fact>, deps: SessionDeps, f: FactId, s: SessionId) {
    DepsOf(deps, s) * Component(facts, f) != {}
  }

  // ---- In terms of dependencies --------------------------------------------------------------------------

  /** A global fact that some fact of an engine depends on. */
  ghost predicate DependedOn(held: map<FactId, Fact>, global: set<FactId>, p: FactId) {
    p in global && exists f :: f in held && Cycles.DependsOn(held[f], p)
  }

  /** A session that depends on f or on a global fact that dependencies connect with it. */
  ghost predicate ConnectedSession(facts: map<FactId, Fact>, deps: SessionDeps, f: FactId, s: SessionId) {
    exists g :: g in DepsOf(deps, s) && (g == f || (g in facts && Reaches(Connections(facts), f, g)))
  }

  lemma DependencyIsNamed(fact: Fact)
    requires Semantics.TokensParse(fact)
    ensures forall p :: p != "" && Names(fact, p) <==> Cycles.DependsOn(fact, p)
  {
    forall p ensures p != "" && Names(fact, p) <==> Cycles.DependsOn(fact, p) {
      NamesIsDependsOn(fact, p);
      NoBlankDependency(fact);
    }
  }

  lemma NoBlankDependency(fact: Fact)
    requires Semantics.TokensParse(fact)
    ensures !Cycles.DependsOn(fact, "")
  {}

  lemma NamedFactDependsOn(fact: Fact, global: set<FactId>)
    ensures Semantics.TokensParse(fact) ==>
              forall p :: p in NamedByFact(fact, global) <==> p in global && Cycles.DependsOn(fact, p)
  {
    if Semantics.TokensParse(fact) { DependencyIsNamed(fact); }
    hide Names, Cycles.DependsOn, Semantics.TokensParse;
  }

  lemma NamedGlobalsAreDependedOn(held: map<FactId, Fact>, global: set<FactId>)
    ensures AllTokensParse(held) ==> forall p :: p in NamedGlobals(held, global) <==> DependedOn(held, global, p)
  {
    if AllTokensParse(held) {
      forall f | f in held ensures forall p :: p != "" && Names(held[f], p) <==> Cycles.DependsOn(held[f], p) {
        DependencyIsNamed(held[f]);
      }
      hide Names, Cycles.DependsOn, AllTokensParse;
    }
  }

  lemma ConcernedAreConnected(facts: map<FactId, Fact>, deps: SessionDeps, f: FactId, s: SessionId)
    requires AllTokensParse(facts)
    ensures Concerned(facts, deps, f, s) <==> ConnectedSession(facts, deps, f, s)
  {
    LinksAreConnections(facts);
    hide Links, Connections, Reaches;
    if ConnectedSession(facts, deps, f, s) {
      var g :| g in DepsOf(deps, s) && (g == f || (g in facts && Reaches(Connections(facts), f, g)));
      assert g in DepsOf(deps, s) * Component(facts, f);
    }
    if Concerned(facts, deps, f, s) {
      var g :| g in DepsOf(deps, s) * Component(facts, f);
      assert g == f || (g in facts && Reaches(Connections(facts), f, g));
    }
  }

  lemma AllConnected(facts: map<FactId, Fact>, deps: SessionDeps, f: FactId)
    ensures AllTokensParse(facts) ==>
              forall s :: Concerned(facts, deps, f, s) <==> ConnectedSession(facts, deps, f, s)
  {
    hide AllTokensParse, Concerned, ConnectedSession;
    if AllTokensParse(facts) {
      forall s ensures Concerned(facts, deps, f, s) <==> ConnectedSession(facts, deps, f, s) {
        ConcernedAreConnected(facts, deps, f, s);
      }
    }
  }

  /** The global facts one fact names, collected token by token. */
  method CollectNamed(fact: Fact, global: set<FactId>) returns (named: set<FactId>)
    ensures named == NamedByFact(fact, global)
  {
    hide NamedBefore, NamedBy;
    NamedAtFirst(fact);
    named := {};
    for i := 0 to |fact.tokens|
      invariant forall p :: p in named <==> p in global && p != "" && NamedBefore(fact, p, i, 0)
    {
      for n := 0 to |fact.tokens[i]|
        invariant forall p :: p in named <==> p in global && p != "" && NamedBefore(fact, p, i, n)
      {
        var p := fact.tokens[i][n];
        if |p| > 0 && p[0] == '!' {
          p := p[1..];
        }
        NamesOne(fact.tokens[i][n], p);
        NamedOneMore(fact, i, n, p);
        if p != "" && p in global {
          named := named + {p};
        }
      }
      NamedOneRow(fact, i);
    }
    NamedThroughout(fact);
  }

  class GlobalTruth {
    var facts: map<FactId, Fact>
    var retracted: map<FactId, string>
    var version: nat
    var subscribers: map<SessionId, Engine>
    var depIndex: DepIndex
    var sessionDeps: SessionDeps

    ghost predicate Indexed()
      reads this
    {
      Inverse(depIndex, sessionDeps) && retracted.Keys <= facts.Keys
    }

    constructor ()
      ensures Indexed() && facts == map[] && subscribers == map[] && sessionDeps == map[] && version == 0
    {
      facts, retracted, version, subscribers, depIndex, sessionDeps := map[], map[], 0, map[], map[], map[];
    }

    // ---- Indexing ------------------------------------------------------------------------------------

    /** Forgets what a session depends on. */
    method RemoveSessionIndex(s: SessionId)
      requires Indexed()
      modifies this`depIndex, this`sessionDeps
      ensures Indexed() && sessionDeps == old(sessionDeps) - {s}
    {
      hide Inverse, DropEntry;
      ghost var left := sessionDeps;
      var todo := DepsOf(sessionDeps, s);
      if s !in sessionDeps {
        left := left[s := {}];
        EmptyDepsDropped(depIndex, sessionDeps, s);
      }
      sessionDeps := sessionDeps - {s};
      while todo != {}
        modifies this`depIndex
        invariant Inverse(depIndex, left) && s in left && left[s] == todo && left - {s} == sessionDeps
      {
        var f :| f in todo;
        DropKeepsInverse(depIndex, left, f, s);
        depIndex := DropEntry(depIndex, f, s);
        todo := todo - {f};
        left := left[s := todo];
      }
      EmptyDepsDropped(depIndex, left, s);
    }

    /** Indexes a session afresh from all the facts its engine holds. */
    method RebuildSessionIndex(s: SessionId, engine: Engine)
      requires Indexed()
      modifies this`depIndex, this`sessionDeps
      ensures Indexed()
      ensures sessionDeps == if NamedGlobals(engine.facts, facts.Keys) == {} then old(sessionDeps) - {s}
                             else old(sessionDeps)[s := NamedGlobals(engine.facts, facts.Keys)]
      ensures AllTokensParse(engine.facts) ==>
                forall p :: p in DepsOf(sessionDeps, s) <==> DependedOn(engine.facts, facts.Keys, p)
    {
      hide Inverse, NamedGlobals, DependedOn, AllTokensParse;
      NamedGlobalsAreDependedOn(engine.facts, facts.Keys);
      RemoveSessionIndex(s);
      var deps := EngineDeps(engine);
      if deps == {} {
        return;
      }
      EmptyDepsDropped(depIndex, sessionDeps, s);
      ghost var base := sessionDeps;
      sessionDeps := sessionDeps[s := deps];
      var todo := deps;
      ghost var done: set<FactId> := {};
      while todo != {}
        modifies this`depIndex
        invariant done + todo == deps && Inverse(depIndex, base[s := done])
      {
        var f :| f in todo;
        AddKeepsInverse(depIndex, base[s := done], f, s);
        assert base[s := done][s := done + {f}] == base[s := done + {f}];
        depIndex := AddEntry(depIndex, f, s);
        done := done + {f};
        todo := todo - {f};
      }
      assert done == deps;
    }

    method EngineDeps(engine: Engine) returns (deps: set<FactId>)
      ensures deps == NamedGlobals(engine.facts, facts.Keys)
    {
      hide Names;
      deps := {};
      var todo := engine.facts.Keys;
      while todo != {}
        invariant todo <= engine.facts.Keys
        invariant forall p :: p in deps <==>
          p in facts && p != "" && exists f :: f in engine.facts && f !in todo && Names(engine.facts[f], p)
      {
        var f :| f in todo;
        var named := CollectNamed(engine.facts[f], facts.Keys);
        deps := deps + named;
        todo := todo - {f};
      }
    }

    /** Records what one more fact of a session depends on. */
    method IndexFactDependencies(s: SessionId, fact: Fact)
      requires Indexed()
      modifies this`depIndex, this`sessionDeps
      ensures Indexed()
      ensures sessionDeps == if s == "" then old(sessionDeps)
                             else old(sessionDeps)[s := DepsOf(old(sessionDeps), s) + NamedByFact(fact, facts.Keys)]
      ensures s != "" && Semantics.TokensParse(fact) ==> forall p :: p in DepsOf(sessionDeps, s) <==>
                p in DepsOf(old(sessionDeps), s) || (p in facts && Cycles.DependsOn(fact, p))
    {
      NamedFactDependsOn(fact, facts.Keys);
      hide Semantics.TokensParse, Cycles.DependsOn;
      hide Inverse, NamedByFact;
      if s == "" {
        return;
      }
      if s !in sessionDeps {
        EmptyDepsDropped(depIndex, sessionDeps, s);
        sessionDeps := sessionDeps[s := {}];
      }
      var named := CollectNamed(fact, facts.Keys);
      ghost var base := sessionDeps;
      var todo := named;
      assert base[s] + (named - todo) == base[s];
      while todo != {}
        modifies this`depIndex, this`sessionDeps
        invariant todo <= named && Inverse(depIndex, sessionDeps)
        invariant sessionDeps == base[s := base[s] + (named - todo)]
      {
        var f :| f in todo;
        AddKeepsInverse(depIndex, sessionDeps, f, s);
        assert DepsOf(sessionDeps, s) + {f} == base[s] + (named - (todo - {f}));
        sessionDeps := sessionDeps[s := DepsOf(sessionDeps, s) + {f}];
        depIndex := AddEntry(depIndex, f, s);
        todo := todo - {f};
      }
      assert named - todo == named;
    }

    /** The sessions that depend on anything in the component of f, sorted. */
    method AffectedSubscribers(f: FactId) returns (out: seq<SessionId>)
      requires Indexed()
      ensures Sorted(out) && Distinct(out) && forall s :: s in out <==> Concerned(facts, sessionDeps, f, s)
      ensures AllTokensParse(facts) ==> forall s :: s in out <==> ConnectedSession(facts, sessionDeps, f, s)
    {
      AllConnected(facts, sessionDeps, f);
      hide AllTokensParse, ConnectedSession;
      var component := ComponentOf(f);
      hide Component, Inverse;
      var seen: set<SessionId> := {};
      var todo := component;
      while todo != {}
        invariant todo <= component
        invariant forall s :: s in seen <==> exists g :: g in component && g !in todo && s in SessionsOf(depIndex, g)
      {
        var g :| g in todo;
        seen := seen + SessionsOf(depIndex, g);
        todo := todo - {g};
      }
      SeenAreConcerned(f, component, seen);
      out := SortedSet(seen);
    }

    lemma SeenAreConcerned(f: FactId, component: set<FactId>, seen: set<SessionId>)
      requires Indexed() && component == Component(facts, f)
      requires forall s :: s in seen <==> exists g :: g in component && s in SessionsOf(depIndex, g)
      ensures forall s :: s in seen <==> Concerned(facts, sessionDeps, f, s)
    {
      hide Component;
      forall s ensures s in seen <==> Concerned(facts, sessionDeps, f, s) {
        if Concerned(facts, sessionDeps, f, s) {
          var g :| g in DepsOf(sessionDeps, s) * component;
          assert s in SessionsOf(depIndex, g);
        }
        if s in seen {
          var g :| g in component && s in SessionsOf(depIndex, g);
          assert g in DepsOf(sessionDeps, s) * component;
        }
      }
    }

    /** The component that holds f, or f alone. */
    method ComponentOf(f: FactId) returns (component: set<FactId>)
      ensures component == Component(facts, f)
    {
      hide Links, Partitioned, Reaches;
      var components := Partition(facts);
      hide Component;
      component := {f};
      for i := 0 to |components|
        invariant component == if exists k :: 0 <= k < i && f in components[k] then Component(facts, f) else {f}
      {
        if f in components[i] {
          component := set g | g in components[i];
          GroupIsWholeComponent(facts, components, f, i);
        }
      }
      if forall k | 0 <= k < |components| :: f !in components[k] {
        UngroupedIsAlone(facts, components, f);
      }
    }

    // ---- Fan-out ------------------------------------------------------------------------------------

    ghost predicate Ready(e: Engine, now: int)
      reads e, e.dominators
    {
      e.Valid() && e.clock <= now
    }

    /** Every subscribed engine is consistent and has read no time after now. */
    ghost predicate EnginesReady(now: int)
      reads this, subscribers.Values, set s | s in subscribers :: subscribers[s].dominators
    {
      forall s | s in subscribers :: Ready(subscribers[s], now)
    }

    ghost function Hearers(told: set<SessionId>): set<Engine>
      reads this
    {
      set s | s in told && s in subscribers :: subscribers[s]
    }

    /** Retracts a global fact, and tells either the sessions concerned or, when those are none or as many as all
        subscribers, everyone. */
    method RetractGlobal(f: FactId, reason: string, now: int)
      returns (r: Result<nat, string>, ghost told: set<SessionId>)
      requires Indexed() && EnginesReady(now)
      modifies this`retracted, this`version, subscribers.Values
      ensures Indexed() && EnginesReady(now)
      ensures r.Success? <==> f != "" && f in facts
      ensures r.Failure? ==> told == {} && retracted == old(retracted) && version == old(version)
      ensures r.Success? ==>
        r.value == version == old(version) + 1 && retracted == old(retracted)[f := ReasonOr(reason)]
      ensures r.Success? ==> told == TargetsOf(facts, sessionDeps, subscribers.Keys, f)
      ensures r.Success? && AllTokensParse(facts) ==>
                forall s | s in subscribers && ConnectedSession(facts, sessionDeps, f, s) :: s in told
      ensures forall e | e in subscribers.Values :: e.facts == old(e.facts) &&
                e.retracted == Heard(old(e.retracted), e.facts, f, ReasonOr(reason), e in Hearers(told))
    {
      hide Engine.Valid, Inverse, Concerned, AllTokensParse, ConnectedSession, TargetsOf;
      WhoIsTold(facts, sessionDeps, subscribers.Keys, f);
      AllConnected(facts, sessionDeps, f);
      told := {};
      if f == "" {
        return Failure("factID cannot be empty"), told;
      }
      if f !in facts {
        return Failure("global fact not found"), told;
      }
      var why := reason;
      if why == "" {
        why := "global_retract";
      }
      retracted := retracted[f := why];
      version := version + 1;
      var targets := SelectTargets(f);
      BroadcastRetraction(targets, f, why, now);
      told := targets;
      r := Success(version);
    }

    method SelectTargets(f: FactId) returns (targets: set<SessionId>)
      requires Indexed()
      ensures targets == TargetsOf(facts, sessionDeps, subscribers.Keys, f) && targets <= subscribers.Keys
    {
      hide Concerned, Inverse;
      targets := subscribers.Keys;
      var affected := AffectedSubscribers(f);
      ghost var concerned := ConcernedSessions(facts, sessionDeps, f);
      ConcernedAreIndexed(facts, sessionDeps, f);
      assert Elements(affected) == concerned;
      DistinctCardinality(affected);
      assert |subscribers| == |subscribers.Keys|;
      if 0 < |affected| < |subscribers| {
        targets := set s | s in affected && s in subscribers;
        assert targets == concerned * subscribers.Keys;
      }
    }

    method BroadcastRetraction(targets: set<SessionId>, f: FactId, why: string, now: int)
      requires targets <= subscribers.Keys && EnginesReady(now) && why != ""
      modifies subscribers.Values
      ensures EnginesReady(now)
      ensures forall e | e in subscribers.Values :: e.facts == old(e.facts) &&
                e.retracted == Heard(old(e.retracted), e.facts, f, why, e in Hearers(targets))
    {
      hide Engine.Valid;
      var todo := targets;
      while todo != {}
        invariant todo <= targets && EnginesReady(now)
        invariant forall e | e in subscribers.Values :: e.facts == old(e.facts) &&
                    e.retracted == Heard(old(e.retracted), e.facts, f, why, e in Hearers(targets - todo))
      {
        var s :| s in todo;
        var _ := subscribers[s].RetractFact(f, why, now);
        assert Hearers(targets - (todo - {s})) == Hearers(targets - todo) + {subscribers[s]};
        todo := todo - {s};
      }
      assert targets - todo == targets;
    }

    /** Adds or replaces a global fact. A new one is offered to every subscriber; a change only to those concerned, or
        to all when no subscriber is. */
    method AssertGlobal(id: FactId, fact: Fact, now: int) returns (v: nat, ghost told: set<SessionId>)
      requires Indexed() && EnginesReady(now)
      modifies this`facts, this`retracted, this`version, subscribers.Values
      ensures Indexed() && EnginesReady(now)
      ensures facts == old(facts)[id := fact] && retracted == old(retracted) - {id} && v == version == old(version) + 1
      ensures told == OfferedTo(id in old(facts), facts, sessionDeps, subscribers.Keys, id)
      ensures forall e | e in subscribers.Values :: e.retracted == old(e.retracted) &&
                e.facts == if e in Hearers(told) then Offered(old(e.facts), id, Timed(fact, now)) else old(e.facts)
    {
      hide Engine.Valid, Inverse, Concerned, Offered;
      var existed := id in facts;
      facts := facts[id := fact];
      retracted := retracted - {id};
      version := version + 1;
      var targets := subscribers.Keys;
      if existed {
        var affected := AffectedSubscribers(id);
        targets := set s | s in affected && s in subscribers;
        ConcernedAreIndexed(facts, sessionDeps, id);
        assert targets == ConcernedSessions(facts, sessionDeps, id) * subscribers.Keys;
        if targets == {} {
          targets := subscribers.Keys;
        }
      }
      BroadcastAssertion(targets, id, fact, now);
      told := targets;
      v := version;
    }

    method BroadcastAssertion(targets: set<SessionId>, id: FactId, fact: Fact, now: int)
      requires targets <= subscribers.Keys && EnginesReady(now)
      modifies subscribers.Values
      ensures EnginesReady(now)
      ensures forall e | e in subscribers.Values :: e.retracted == old(e.retracted) &&
                e.facts == if e in Hearers(targets) then Offered(old(e.facts), id, Timed(fact, now)) else old(e.facts)
    {
      hide Engine.Valid, Offered;
      var todo := targets;
      while todo != {}
        invariant todo <= targets && EnginesReady(now)
        invariant forall e | e in subscribers.Values :: e.retracted == old(e.retracted) &&
                    e.facts == if e in Hearers(targets - todo) then Offered(old(e.facts), id, Timed(fact, now))
                      else old(e.facts)
      {
        var s :| s in todo;
        OfferedTwice(old(subscribers[s].facts), id, Timed(fact, now));
        Offer(subscribers[s], id, fact, now);
        assert Hearers(targets - (todo - {s})) == Hearers(targets - todo) + {subscribers[s]};
        todo := todo - {s};
      }
      assert targets - todo == targets;
    }

    /** Registers an engine, indexes what it already holds, and offers it every live global fact, in any order. */
    method Subscribe(s: SessionId, engine: Engine, now: int) returns (ok: bool, ghost order: seq<FactId>)
      requires Indexed() && EnginesReady(now) && Ready(engine, now)
      modifies this`subscribers, this`depIndex, this`sessionDeps, engine
      ensures Indexed() && EnginesReady(now) && ok == (s != "")
      ensures !ok ==> subscribers == old(subscribers) && sessionDeps == old(sessionDeps)
      ensures !ok ==> engine.facts == old(engine.facts)
      ensures ok ==> subscribers == old(subscribers)[s := engine]
      ensures ok ==> sessionDeps == Reindexed(old(sessionDeps), s, old(NamedGlobals(engine.facts, facts.Keys)))
      ensures ok ==> Enumerates(order, facts.Keys - retracted.Keys)
      ensures ok ==> engine.facts == OfferAll(old(engine.facts), order, facts, now)
      ensures engine.retracted == old(engine.retracted)
    {
      hide Engine.Valid, Inverse, NamedGlobals, Reindexed, Enumerates, OfferAll;
      ok, order := false, [];
      if s == "" {
        return;
      }
      subscribers := subscribers[s := engine];
      RebuildSessionIndex(s, engine);
      ReindexedIs(old(sessionDeps), s, NamedGlobals(engine.facts, facts.Keys));
      order := ReplayInto(engine, now);
      ok := true;
    }

    method ReplayInto(engine: Engine, now: int) returns (ghost order: seq<FactId>)
      requires Ready(engine, now)
      modifies engine
      ensures Ready(engine, now) && engine.retracted == old(engine.retracted)
      ensures Enumerates(order, facts.Keys - retracted.Keys)
      ensures engine.facts == OfferAll(old(engine.facts), order, facts, now)
    {
      hide Engine.Valid, Offered;
      ghost var held := engine.facts;
      order := [];
      var todo := facts.Keys - retracted.Keys;
      ghost var live := todo;
      while todo != {}
        invariant todo <= live && live <= facts.Keys && Ready(engine, now) && engine.retracted == old(engine.retracted)
        invariant Enumerates(order, live - todo) && engine.facts == OfferAll(held, order, facts, now)
      {
        var g :| g in todo;
        Offer(engine, g, facts[g], now);
        OneMoreOffered(held, order, facts, now, g);
        assert live - (todo - {g}) == live - todo + {g};
        todo := todo - {g};
        order := order + [g];
      }
      assert live - todo == live;
    }

    method Unsubscribe(s: SessionId)
      requires Indexed()
      modifies this`subscribers, this`depIndex, this`sessionDeps
      ensures Indexed() && subscribers == old(subscribers) - {s} && sessionDeps == old(sessionDeps) - {s}
    {
      subscribers := subscribers - {s};
      RemoveSessionIndex(s);
    }
  }

  ghost function ReasonOr(reason: string): string {
    if reason == "" then "global_retract" else reason
  }

  /** The retractions of an engine that may have been told to retract f. */
  ghost function Heard(retracted: map<FactId, string>, facts: map<FactId, Fact>, f: FactId, why: string,
                       hears: bool): map<FactId, string> {
    if hears && f in facts then retracted[f := why] else retracted
  }

  lemma OfferedTwice(facts: map<FactId, Fact>, id: FactId, fact: Fact)
    ensures Offered(Offered(facts, id, fact), id, fact) == Offered(facts, id, fact)
  {}

  ghost function Reindexed(deps: SessionDeps, s: SessionId, named: set<FactId>): SessionDeps {
    if named == {} then deps - {s} else deps[s := named]
  }

  lemma ReindexedIs(deps: SessionDeps, s: SessionId, named: set<FactId>)
    ensures Reindexed(deps, s, named) == if named == {} then deps - {s} else deps[s := named]
  {}

  ghost predicate Enumerates(order: seq<FactId>, ids: set<FactId>) {
    Distinct(order) && Elements(order) == ids
  }

  /** The facts of an engine after global facts were offered to it in this order. */
  ghost function OfferAll(held: map<FactId, Fact>, order: seq<FactId>, global: map<FactId, Fact>,
                          now: int): map<FactId, Fact>
    decreases |order|
  {
    if order == [] then held
    else
      var n := |order| - 1;
      var before := OfferAll(held, order[..n], global, now);
      if order[n] in global then Offered(before, order[n], Timed(global[order[n]], now)) else before
  }

  lemma OfferLast(held: map<FactId, Fact>, order: seq<FactId>, global: map<FactId, Fact>, now: int)
    requires order != []
    ensures var n, before := |order| - 1, OfferAll(held, order[..|order| - 1], global, now);
      OfferAll(held, order, global, now) == if order[n] in global
        then Offered(before, order[n], Timed(global[order[n]], now)) else before
  {
    hide Offered, Timed;
  }

  lemma OneMoreOffered(held: map<FactId, Fact>, order: seq<FactId>, global: map<FactId, Fact>, now: int, g: FactId)
    requires g in global && g !in order && Distinct(order)
    ensures OfferAll(held, order + [g], global, now) == Offered(OfferAll(held, order, global, now), g,
                                                                Timed(global[g], now))
    ensures Distinct(order + [g]) && Elements(order + [g]) == Elements(order) + {g}
  {
    assert (order + [g])[..|order|] == order;
    hide Offered;
  }

  /** Offering loses and replaces nothing, and gains only what was offered. */
  lemma {:induction false} OfferingOnlyGains(held: map<FactId, Fact>, order: seq<FactId>, global: map<FactId, Fact>,
                                             now: int)
    ensures var held' := OfferAll(held, order, global, now);
      NothingLost(held, held') && |held'| <= |held| + |order| &&
      forall f | f in held' && f !in held :: f in order && f in global && held'[f] == Timed(global[f], now)
    decreases |order|
  {
    if order != [] {
      var n := |order| - 1;
      var before := OfferAll(held, order[..n], global, now);
      OfferingOnlyGains(held, order[..n], global, now);
      assert order == order[..n] + [order[n]];
      hide Timed, Assertable;
      if order[n] in global {
        OfferedSize(before, order[n], Timed(global[order[n]], now));
      }
    }
  }

  lemma OfferedSize(facts: map<FactId, Fact>, id: FactId, fact: Fact)
    ensures |Offered(facts, id, fact)| <= |facts| + 1
  {
    hide Assertable;
    assert (facts[id := fact]).Keys == facts.Keys + {id};
    assert |facts[id := fact]| == |(facts[id := fact]).Keys| && |facts| == |facts.Keys|;
  }

  ghost predicate NothingLost(held: map<FactId, Fact>, held': map<FactId, Fact>) {
    forall f | f in held :: f in held' && held'[f] == held[f]
  }

  lemma GainedNow(held: map<FactId, Fact>, before: map<FactId, Fact>, fact: Fact, now: int, g: FactId)
    requires NothingLost(held, before) && Assertable(held, fact) && |before| < MAX_FACTS
    ensures g in Offered(before, g, Timed(fact, now))
  {
    hide Assertable, Timed;
    assert held.Keys <= before.Keys;
    AssertableWithMore(held, before, fact);
    TimedIsAssertable(before, fact, now);
  }

  /** A fact whose dependencies the engine held from the start is gained whatever the order. */
  lemma {:induction false} AssertableIsGained(held: map<FactId, Fact>, order: seq<FactId>, global: map<FactId, Fact>,
                                              now: int, g: FactId)
    requires g in order && g in global && Assertable(held, global[g]) && |held| + |order| <= MAX_FACTS
    ensures g in OfferAll(held, order, global, now)
    decreases |order|
  {
    hide Assertable, Timed, NothingLost, OfferAll;
    var n := |order| - 1;
    var before := OfferAll(held, order[..n], global, now);
    OfferLast(held, order, global, now);
    OfferingOnlyGains(held, order[..n], global, now);
    assert order[n] == g || g in order[..n];
    if order[n] == g {
      GainedNow(held, before, global[g], now, g);
    } else {
      AssertableIsGained(held, order[..n], global, now, g);
    }
  }

  /** A fact that comes first and cannot be taken yet stays out. */
  lemma {:induction false} FirstIsMissed(held: map<FactId, Fact>, rest: seq<FactId>, global: map<FactId, Fact>,
                                         now: int, g: FactId)
    requires g in global && g !in held && !Assertable(held, global[g]) && g !in rest
    ensures g !in OfferAll(held, [g] + rest, global, now)
    decreases |rest|
  {
    hide Assertable;
    var order := [g] + rest;
    var n := |order| - 1;
    if rest == [] {
      assert order[..n] == [];
      assert OfferAll(held, [], global, now) == held;
      TimedIsAssertable(held, global[g], now);
    } else {
      assert order[..n] == [g] + rest[..n - 1] && order[n] in rest;
      FirstIsMissed(held, rest[..n - 1], global, now, g);
    }
  }

  /** Exactly which live global facts a new subscriber is sure to get, below the cap: those all of whose dependencies it
      held before. Any other is missed when its turn comes first. */
  lemma GainedExactly(held: map<FactId, Fact>, global: map<FactId, Fact>, live: set<FactId>, now: int, g: FactId)
    requires live <= global.Keys && g in live && g !in held && |held| + |live| <= MAX_FACTS
    ensures (forall order | Enumerates(order, live) :: g in OfferAll(held, order, global, now)) <==>
      Assertable(held, global[g])
  {
    hide Assertable, OfferAll;
    if Assertable(held, global[g]) {
      forall order | Enumerates(order, live) ensures g in OfferAll(held, order, global, now) {
        DistinctCardinality(order);
        assert g in Elements(order);
        AssertableIsGained(held, order, global, now, g);
      }
    } else {
      var rest := Enumerate(live - {g});
      FirstThenRest(g, rest, live);
      FirstIsMissed(held, rest, global, now, g);
    }
  }

  ghost function Enumerate(ids: set<FactId>): (order: seq<FactId>)
    ensures Enumerates(order, ids)
  {
    if ids == {} then []
    else
      var x :| x in ids;
      var rest := Enumerate(ids - {x});
      FirstThenRest(x, rest, ids);
      [x] + rest
  }

  lemma FirstThenRest(x: FactId, rest: seq<FactId>, ids: set<FactId>)
    requires x in ids && Enumerates(rest, ids - {x})
    ensures Enumerates([x] + rest, ids) && x !in rest
  {
    assert x !in Elements(rest);
    assert forall y :: y in [x] + rest <==> y == x || y in Elements(rest);
  }

  lemma AssertableWithMore(facts: map<FactId, Fact>, facts': map<FactId, Fact>, fact: Fact)
    requires Assertable(facts, fact) && facts.Keys <= facts'.Keys
    ensures Assertable(facts', fact)
  {
    forall i | 0 <= i < |fact.tokens| ensures fact.tokens[i] != [] && GoodTokens(facts', fact.tokens[i]) {
      assert GoodTokens(facts, fact.tokens[i]);
    }
  }

  lemma GroupIsWholeComponent(facts: map<FactId, Fact>, groups: seq<seq<FactId>>, f: FactId, i: nat)
    requires Partitioned(facts, Links(facts), groups) && i < |groups| && f in groups[i]
    ensures (set g | g in groups[i]) == Component(facts, f)
  {
    LinksAreSymmetric(facts);
    assert groups[i] in groups && IsComponent(facts, Links(facts), groups[i]);
    hide Partitioned, Links;
    WholeComponent(facts, Links(facts), groups[i], f);
  }

  lemma WholeComponent(facts: map<FactId, Fact>, edges: Edges, group: seq<FactId>, f: FactId)
    requires Symmetric(edges) && IsComponent(facts, edges, group) && f in group
    ensures (set g | g in group) == {f} + set g | g in facts && Reaches(edges, f, g)
  {
    hide Reaches, Sorted, Distinct, Symmetric;
    ReachesBack(edges, group[0], f);
    ReachesBack(edges, f, group[0]);
    forall g | g in facts ensures g in group <==> Reaches(edges, f, g) {
      if Reaches(edges, f, g) {
        ReachesTransitive(edges, group[0], f, g);
      }
      if g in group {
        ReachesTransitive(edges, f, group[0], g);
      }
    }
  }

  lemma UngroupedIsAlone(facts: map<FactId, Fact>, groups: seq<seq<FactId>>, f: FactId)
    requires Partitioned(facts, Links(facts), groups) && forall k | 0 <= k < |groups| :: f !in groups[k]
    ensures Component(facts, f) == {f}
  {
    assert f in facts ==> InSome(groups, f);
    hide Partitioned;
    UnlinkedIsAlone(facts, f);
  }

  lemma UnlinkedIsAlone(facts: map<FactId, Fact>, f: FactId)
    requires f !in facts
    ensures Component(facts, f) == {f}
  {
    forall g | g in facts ensures !Reaches(Links(facts), f, g) {
      hide Reaches, Names;
      if Reaches(Links(facts), f, g) {
        var next := ReachesFirstStep(Links(facts), f, g);
      }
    }
    hide Links, Reaches;
  }

  // ---- A retraction that reaches nobody ---------------------------------------------------------------

  ghost predicate LoneStray(gt: GlobalTruth)
    reads gt
  {
    gt.Indexed() && gt.facts.Keys == {"g"} && gt.facts["g"] == ROOT && gt.retracted == map[] &&
    gt.sessionDeps == map["s0" := {"g"}]
  }

  /** One global root, which only a session that does not subscribe has indexed. */
  method StrayIndex() returns (gt: GlobalTruth)
    ensures fresh(gt) && LoneStray(gt) && gt.subscribers == map[]
  {
    gt := new GlobalTruth();
    var _, _ := gt.AssertGlobal("g", ROOT, 1);
    var fact := Bare(false, INVALID, Empirical, [["g"]]);
    assert gt.sessionDeps == map[] && gt.facts.Keys == {"g"};
    NamesOnlyG(fact);
    gt.IndexFactDependencies("s0", fact);
    assert gt.sessionDeps["s0"] == {"g"};
  }

  lemma NamesOnlyG(fact: Fact)
    requires fact.tokens == [["g"]]
    ensures NamedByFact(fact, {"g"}) == {"g"}
  {
    assert NamedAt(fact, "g", 0, 0);
    assert Names(fact, "g");
  }

  method JoinEmpty(gt: GlobalTruth, s: SessionId) returns (e: Engine)
    requires LoneStray(gt) && gt.EnginesReady(1) && s != "" && s != "s0"
    modifies gt
    ensures LoneStray(gt) && gt.EnginesReady(1) && gt.subscribers == old(gt.subscribers)[s := e]
    ensures fresh(e) && fresh(e.dominators) && "g" in e.facts && e.retracted == map[]
  {
    hide Engine.Valid, OfferAll, Inverse;
    e := new Engine();
    NothingNamedYet(e, {"g"});
    ghost var order;
    var ok;
    ok, order := gt.Subscribe(s, e, 1);
    RootIsAssertable();
    GainedExactly(map[], gt.facts, {"g"}, 1, "g");
  }

  lemma NothingNamedYet(e: Engine, global: set<FactId>)
    requires e.facts == map[]
    ensures NamedGlobals(e.facts, global) == {}
  {}

  lemma RootIsAssertable()
    ensures Assertable(map[], ROOT)
  {}

  /** Every subscribed engine holds the global fact and has not retracted it. */
  ghost predicate AllHoldIt(gt: GlobalTruth)
    reads gt, gt.subscribers.Values
  {
    forall e | e in gt.subscribers.Values :: "g" in e.facts && "g" !in e.retracted
  }

  /** Two subscribed engines hold the fact; retracting it globally tells neither. */
  method RetractionReachesNobody() returns (gt: GlobalTruth)
    ensures |gt.subscribers| == 2 && "g" in gt.retracted && AllHoldIt(gt)
  {
    hide *;
    gt := Audience();
    RetractUnheard(gt);
  }

  method RetractUnheard(gt: GlobalTruth)
    requires gt.Indexed() && gt.EnginesReady(1) && AllHoldIt(gt) && "g" in gt.facts
    requires TargetsOf(gt.facts, gt.sessionDeps, gt.subscribers.Keys, "g") == {}
    modifies gt, gt.subscribers.Values
    ensures gt.subscribers == old(gt.subscribers) && "g" in gt.retracted && AllHoldIt(gt)
  {
    hide Engine.Valid, TargetsOf, Inverse;
    ghost var told;
    var r;
    r, told := gt.RetractGlobal("g", "", 1);
  }

  method Audience() returns (gt: GlobalTruth)
    ensures gt.Indexed() && gt.EnginesReady(1) && AllHoldIt(gt) && "g" in gt.facts
    ensures |gt.subscribers| == 2 && TargetsOf(gt.facts, gt.sessionDeps, gt.subscribers.Keys, "g") == {}
    ensures fresh(gt) && fresh(gt.subscribers.Values)
  {
    hide Engine.Valid, LoneStray, TargetsOf;
    gt := StrayIndex();
    var e1 := JoinEmpty(gt, "s1");
    var e2 := JoinEmpty(gt, "s2");
    NobodyIsTold(gt, e1, e2);
  }

  lemma NobodyIsTold(gt: GlobalTruth, e1: Engine, e2: Engine)
    requires LoneStray(gt) && gt.subscribers == map["s1" := e1, "s2" := e2]
    ensures |gt.subscribers| == 2
    ensures TargetsOf(gt.facts, gt.sessionDeps, gt.subscribers.Keys, "g") == {} && "g" in gt.facts && gt.Indexed()
    ensures gt.subscribers.Values == {e1, e2}
  {
    hide Inverse;
    assert gt.subscribers.Keys == {"s1", "s2"} && |gt.subscribers| == |gt.subscribers.Keys|;
    assert "s1" in gt.subscribers && gt.subscribers["s1"] == e1 && "s2" in gt.subscribers && gt.subscribers["s2"] == e2;
    OnlyStrayConcerned(gt);
  }

  lemma OnlyStrayConcerned(gt: GlobalTruth)
    requires LoneStray(gt)
    ensures ConcernedSessions(gt.facts, gt.sessionDeps, "g") == {"s0"}
  {
    assert "g" in DepsOf(gt.sessionDeps, "s0") * Component(gt.facts, "g");
    hide Component;
    assert Concerned(gt.facts, gt.sessionDeps, "g", "s0");
  }

  method SortedSet(s: set<string>) returns (out: seq<string>)
    ensures Sorted(out) && Distinct(out) && |out| == |s| && forall x :: x in out <==> x in s
  {
    var kept: seq<string> := [];
    var todo := s;
    while todo != {}
      invariant todo <= s && Distinct(kept) && |kept| == |s| - |todo|
      invariant forall x :: x in kept <==> x in s && x !in todo
    {
      var x :| x in todo;
      kept := kept + [x];
      todo := todo - {x};
    }
    out := SortStrings(kept);
    SortKeepsDistinct(kept);
  }
}
