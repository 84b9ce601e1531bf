/** The what-if simulation of a retraction: statuses and confidences are copied, x is made Invalid, and only facts that
    fall below the threshold are followed. */
module Simulations {
  import opened Facts
  import opened Strings
  import opened Semantics
  import opened Cache
  import opened Engines

  type Confs = map<SetId, Status>

  function ConfOf(conf: Confs, j: SetId): Status {
    if j in conf then conf[j] else INVALID
  }

  /** The largest simulated confidence among the first n sets of f, with no threshold. */
  ghost function MaxConf(conf: Confs, f: FactId, n: nat): Status {
    if n == 0 then INVALID
    else
      var rest := MaxConf(conf, f, n - 1);
      if ConfOf(conf, SetId(f, n - 1)) > rest then ConfOf(conf, SetId(f, n - 1)) else rest
  }

  lemma {:induction false} MaxConfIsLargest(conf: Confs, f: FactId, n: nat)
    ensures forall i | 0 <= i < n :: MaxConf(conf, f, n) >= ConfOf(conf, SetId(f, i))
    ensures MaxConf(conf, f, n) == INVALID || exists i :: 0 <= i < n && MaxConf(conf, f, n) == ConfOf(conf, SetId(f, i))
    ensures MaxConf(conf, f, n) >= INVALID
  {
    if n > 0 {
      MaxConfIsLargest(conf, f, n - 1);
    }
  }

  lemma {:induction false} MaxConfSame(a: Confs, b: Confs, f: FactId, n: nat)
    requires forall i | 0 <= i < n :: ConfOf(a, SetId(f, i)) == ConfOf(b, SetId(f, i))
    ensures MaxConf(a, f, n) == MaxConf(b, f, n)
  {
    if n > 0 {
      MaxConfSame(a, b, f, n - 1);
    }
  }

  ghost function SetCount(w: World, f: FactId): nat {
    if f in w.facts then |w.facts[f].tokens| else 0
  }

  // ---- Runs of the simulation, as values -----------------------------------------------------------------

  /** Simulated statuses, simulated confidences, and the facts found to fall. */
  datatype Sim = Sim(st: map<FactId, Status>, conf: Confs, impacted: set<FactId>)

  /** Set j is evaluated anew because it depends on a fact that fell. A changed confidence changes its fact's status,
      and a status that lands below the threshold makes the fact fall. */
  ghost function StepSim(w: World, sets: Sets, now: int, s: Sim, j: SetId): Sim {
    if j !in sets || j !in s.conf || j.fact !in s.st then s
    else
      var confidence := SetValue(w, s.st, now, j.fact, sets[j].deps.Refs());
      if confidence == s.conf[j] then s
      else
        var conf := s.conf[j := confidence];
        var status := MaxConf(conf, j.fact, SetCount(w, j.fact));
        if status == s.st[j.fact] then s.(conf := conf)
        else Sim(s.st[j.fact := status], conf, if status < THRESHOLD then s.impacted + {j.fact} else s.impacted)
  }

  datatype Visit = Visit(cause: FactId, set_: SetId)

  /** The states a simulation goes through and the visits that lead from one to the next. */
  datatype Trace = Trace(states: seq<Sim>, visits: seq<Visit>) {
    ghost function Last(): Sim
      requires states != []
    {
      states[|states| - 1]
    }
  }

  /** Each visit is to a set that depends on a fact that has fallen. */
  ghost predicate IsRun(w: World, sets: Sets, children: Children, now: int, t: Trace) {
    |t.states| == |t.visits| + 1 && forall i | 0 <= i < |t.visits| :: IsStep(w, sets, children, now, t, i)
  }

  ghost predicate IsStep(w: World, sets: Sets, children: Children, now: int, t: Trace, i: int) {
    0 <= i < |t.visits| && i + 1 < |t.states| && t.visits[i].cause in t.states[i].impacted &&
    t.visits[i].set_ in Kids(children, t.visits[i].cause) &&
    t.states[i + 1] == StepSim(w, sets, now, t.states[i], t.visits[i].set_)
  }

  ghost predicate Covered(children: Children, visits: seq<Visit>, u: FactId) {
    forall j | j in Kids(children, u) :: Visit(u, j) in visits
  }

  /** A complete simulation of retracting x: it starts with x fallen and ends when every set that depends on a fallen
      fact has been visited on its account. The order of visits is free. */
  ghost predicate Simulation(w: World, sets: Sets, children: Children, now: int, x: FactId, st: map<FactId, Status>,
                             conf: Confs, t: Trace) {
    IsRun(w, sets, children, now, t) && t.states[0] == Sim(st[x := INVALID], conf, {x}) &&
    forall u | u in t.Last().impacted :: Covered(children, t.visits, u)
  }

  ghost predicate Running(w: World, sets: Sets, children: Children, now: int, start: Sim, t: Trace, s: Sim) {
    IsRun(w, sets, children, now, t) && t.states[0] == start && t.Last() == s
  }

  ghost function Longer(t: Trace, v: Visit, s: Sim): Trace {
    Trace(t.states + [s], t.visits + [v])
  }

  lemma RunGrows(w: World, sets: Sets, children: Children, now: int, start: Sim, t: Trace, s: Sim, u: FactId, j: SetId)
    requires Running(w, sets, children, now, start, t, s) && u in s.impacted && j in Kids(children, u)
    ensures Running(w, sets, children, now, start, Longer(t, Visit(u, j), StepSim(w, sets, now, s, j)),
                    StepSim(w, sets, now, s, j))
  {
    hide StepSim, Kids;
    var t' := Longer(t, Visit(u, j), StepSim(w, sets, now, s, j));
    forall i | 0 <= i < |t'.visits| ensures IsStep(w, sets, children, now, t', i) {
      if i < |t.visits| {
        assert IsStep(w, sets, children, now, t, i);
      }
    }
  }

  // ---- The simulation ------------------------------------------------------------------------------------

  /** Effective statuses and set confidences, copied from the engine. */
  method InitSimulation(e: Engine, now: int) returns (st: map<FactId, Status>, conf: Confs)
    requires e.derived.Keys == e.facts.Keys
    ensures st == Readings(e.W(), e.derived, now)
    ensures conf == map j | j in e.sets :: e.sets[j].confidence
  {
    st := map[];
    var todo := e.facts.Keys;
    while todo != {}
      invariant todo <= e.facts.Keys && st.Keys == e.facts.Keys - todo
      invariant forall f | f in st :: st[f] == Read(e.W(), f, e.derived[f], now)
    {
      var f :| f in todo;
      var s := e.EffectiveStatus(f, now);
      st := st[f := s];
      todo := todo - {f};
    }
    conf := map j | j in e.sets :: e.sets[j].confidence;
  }

  /** Evaluates a set on the simulated statuses. */
  method SimulateSet(facts: map<FactId, Fact>, js: JSet, child: FactId, st: map<FactId, Status>, now: int,
                     ghost w: World)
    returns (confidence: Status)
    requires child in facts && st.Keys == facts.Keys && w.facts == facts
    requires forall r | r in js.deps.Refs() :: r.id in facts
    requires js.target == |js.deps.Refs()|
    ensures confidence == SetValue(w, st, now, child, js.deps.Refs())
  {
    var count, least := SimulateCount(facts, js.deps, child, st, now, w);
    CountMeans(w, st, now, child, js.deps.Refs());
    hide Holds, Contribution, DependencySet.Refs, Count, Floor, AllHold;
    confidence := INVALID;
    if count == js.target {
      confidence := least;
    }
  }

  method SimulateCount(facts: map<FactId, Fact>, deps: DependencySet, child: FactId, st: map<FactId, Status>, now: int,
                       ghost w: World)
    returns (count: nat, least: Status)
    requires child in facts && st.Keys == facts.Keys && w.facts == facts
    requires forall r | r in deps.Refs() :: r.id in facts
    ensures count == Count(w, st, now, child, deps.Refs(), |deps.Refs()|)
    ensures least == Floor(w, st, deps.Refs(), |deps.Refs()|)
  {
    hide *;
    ghost var refs := deps.Refs();
    RefsMembers(deps);
    ListedAreKnown(facts, deps);
    NothingCounted(w, st, now, child, refs);
    count, least := SimulateParents(facts, deps.positive, false, child, st, now, 0, VALID, w, refs, 0);
    count, least := SimulateParents(facts, deps.negative, true, child, st, now, count, least, w, refs, |deps.positive|);
  }

  lemma CountMeans(w: World, st: map<FactId, Status>, now: int, child: FactId, refs: seq<DepRef>)
    ensures SetValue(w, st, now, child, refs) ==
            if Count(w, st, now, child, refs, |refs|) == |refs| then Floor(w, st, refs, |refs|) else INVALID
  {
    CountIsAll(w, st, now, child, refs, |refs|);
    AllHoldByIndex(w, st, now, child, refs);
  }

  lemma ListedAreKnown(facts: map<FactId, Fact>, deps: DependencySet)
    requires forall r | r in deps.Refs() :: r.id in facts
    ensures forall i | 0 <= i < |deps.positive| :: deps.positive[i] in facts
    ensures forall i | 0 <= i < |deps.negative| :: deps.negative[i] in facts
  {
    RefsMembers(deps);
    forall i | 0 <= i < |deps.positive| ensures deps.positive[i] in facts {
      assert DepRef(deps.positive[i], false) in deps.Refs();
    }
    forall i | 0 <= i < |deps.negative| ensures deps.negative[i] in facts {
      assert DepRef(deps.negative[i], true) in deps.Refs();
    }
  }

  method SimulateParents(facts: map<FactId, Fact>, parents: seq<FactId>, negated: bool, child: FactId,
                         st: map<FactId, Status>, now: int, count: nat, least: Status, ghost w: World,
                         ghost refs: seq<DepRef>, ghost from: nat)
    returns (count': nat, least': Status)
    requires child in facts && st.Keys == facts.Keys && w.facts == facts && from + |parents| <= |refs|
    requires forall i | 0 <= i < |parents| :: parents[i] in facts && refs[from + i] == DepRef(parents[i], negated)
    requires count == Count(w, st, now, child, refs, from) && least == Floor(w, st, refs, from)
    ensures count' == Count(w, st, now, child, refs, from + |parents|) && least' == Floor(w, st, refs, from + |parents|)
  {
    hide *;
    count', least' := count, least;
    for i := 0 to |parents|
      invariant count' == Count(w, st, now, child, refs, from + i) && least' == Floor(w, st, refs, from + i)
    {
      count', least' := SimulateParent(facts, parents[i], negated, child, st, now, count', least', w, refs, from + i);
    }
  }

  lemma AllHoldByIndex(w: World, st: map<FactId, Status>, now: int, child: FactId, refs: seq<DepRef>)
    ensures AllHold(w, st, now, child, refs) <==> forall i | 0 <= i < |refs| :: Holds(w, st, now, child, refs[i])
  {
    if AllHold(w, st, now, child, refs) {
      forall i | 0 <= i < |refs| ensures Holds(w, st, now, child, refs[i]) { assert refs[i] in refs; }
    }
  }

  method SimulateParent(facts: map<FactId, Fact>, parent: FactId, negated: bool, child: FactId, st: map<FactId, Status>,
                        now: int, count: nat, least: Status, ghost w: World, ghost refs: seq<DepRef>, ghost n: nat)
    returns (count': nat, least': Status)
    requires parent in facts && child in facts && st.Keys == facts.Keys && w.facts == facts
    requires n < |refs| && refs[n] == DepRef(parent, negated)
    requires count == Count(w, st, now, child, refs, n) && least == Floor(w, st, refs, n)
    ensures count' == Count(w, st, now, child, refs, n + 1) && least' == Floor(w, st, refs, n + 1)
  {
    count', least' := count, least;
    var depConf := DependencyConfidence(st[parent], negated);
    if depConf < least {
      least' := depConf;
    }
    var satisfied := DependencySatisfied(facts[parent], st[parent], negated, facts[child], now);
    if satisfied {
      count' := count + 1;
    }
  }

  method SimulatedStatus(facts: map<FactId, Fact>, f: FactId, conf: Confs, ghost w: World) returns (status: Status)
    requires f in facts && w.facts == facts
    ensures status == MaxConf(conf, f, SetCount(w, f))
  {
    status := INVALID;
    for i := 0 to |facts[f].tokens|
      invariant status == MaxConf(conf, f, i)
    {
      var confidence := ConfOf(conf, SetId(f, i));
      if confidence > status {
        status := confidence;
      }
    }
  }

  ghost predicate SetSimulable(w: World, js: JSet, j: SetId) {
    j.fact in w.facts && js.target == |js.deps.Refs()| && forall r | r in js.deps.Refs() :: r.id in w.facts
  }

  lemma KidIsSimulable(w: World, sets: Sets, children: Children, u: FactId, j: SetId)
    requires Ranked(w) && Shape(w, sets, children) && j in Kids(children, u)
    ensures j in sets && SetSimulable(w, sets[j], j)
  {
    assert IsSetId(w, j) && SetShape(w.facts[j.fact], j, sets[j]);
    RefsMembers(sets[j].deps);
  }

  /** What a visit keeps, and what it queues. */
  ghost predicate Followed(facts: map<FactId, Fact>, sets: Sets, s: Sim, s': Sim, queued: seq<FactId>) {
    s'.st.Keys == facts.Keys && s'.conf.Keys == sets.Keys && s'.impacted == s.impacted + Elements(queued) &&
    s'.impacted <= facts.Keys &&
    forall f | f in queued :: f !in s.impacted
  }

  /** One turn of the inner loop: set j depends on a fact that fell. */
  method SimulateChild(facts: map<FactId, Fact>, sets: Sets, j: SetId, s: Sim, now: int, ghost w: World)
    returns (s': Sim, queued: seq<FactId>)
    requires w.facts == facts && s.st.Keys == facts.Keys && s.conf.Keys == sets.Keys && s.impacted <= facts.Keys
    requires j in sets && SetSimulable(w, sets[j], j)
    ensures s' == StepSim(w, sets, now, s, j) && Followed(facts, sets, s, s', queued)
  {
    s', queued := s, [];
    var confidence := SimulateSet(facts, sets[j], j.fact, s.st, now, w);
    if confidence == s.conf[j] {
      return;
    }
    s' := s.(conf := s.conf[j := confidence]);
    var status := SimulatedStatus(facts, j.fact, s'.conf, w);
    if status == s.st[j.fact] {
      return;
    }
    s' := s'.(st := s.st[j.fact := status]);
    if status < THRESHOLD {
      if j.fact !in s.impacted {
        s' := s'.(impacted := s.impacted + {j.fact});
        queued := [j.fact];
      }
      assert s.impacted + {j.fact} == s'.impacted;
    }
  }

  /** Visits every set that depends on u, in any order. */
  method SimulateFact(e: Engine, u: FactId, s: Sim, now: int, ghost w: World, ghost start: Sim, ghost t: Trace)
    returns (s': Sim, more: seq<FactId>, ghost t': Trace)
    requires w == e.W() && Ranked(w) && Shape(w, e.sets, e.children) && u in s.impacted
    requires s.st.Keys == e.facts.Keys && s.conf.Keys == e.sets.Keys && s.impacted <= e.facts.Keys
    requires Running(w, e.sets, e.children, now, start, t, s)
    ensures Followed(e.facts, e.sets, s, s', more) && Running(w, e.sets, e.children, now, start, t', s')
    ensures t.visits <= t'.visits && Covered(e.children, t'.visits, u)
  {
    hide Ranked, Shape, Running, StepSim, Followed, SetSimulable;
    s', more, t' := s, [], t;
    NothingFollowed(e.facts, e.sets, s);
    var todo := Kids(e.children, u);
    ghost var done: set<SetId> := {};
    while todo != {}
      invariant todo + done == Kids(e.children, u)
      invariant Followed(e.facts, e.sets, s, s', more) && Running(w, e.sets, e.children, now, start, t', s')
      invariant t.visits <= t'.visits && forall j | j in done :: Visit(u, j) in t'.visits
    {
      var j :| j in todo;
      s', more, t' := SimulateKid(e, u, j, s', more, now, w, start, t', s);
      todo := todo - {j};
      done := done + {j};
    }
    assert done == Kids(e.children, u);
  }

  lemma NothingFollowed(facts: map<FactId, Fact>, sets: Sets, s: Sim)
    requires s.st.Keys == facts.Keys && s.conf.Keys == sets.Keys && s.impacted <= facts.Keys
    ensures Followed(facts, sets, s, s, [])
  {}

  lemma FollowedTwice(facts: map<FactId, Fact>, sets: Sets, s: Sim, s1: Sim, s2: Sim, a: seq<FactId>, b: seq<FactId>)
    requires Followed(facts, sets, s, s1, a) && Followed(facts, sets, s1, s2, b)
    ensures Followed(facts, sets, s, s2, a + b)
  {}

  lemma FollowedKeeps(facts: map<FactId, Fact>, sets: Sets, s: Sim, s': Sim, more: seq<FactId>)
    requires Followed(facts, sets, s, s', more)
    ensures s'.st.Keys == facts.Keys && s'.conf.Keys == sets.Keys && s'.impacted <= facts.Keys
    ensures s.impacted <= s'.impacted
  {}

  /** One turn of the loop above. */
  method SimulateKid(e: Engine, u: FactId, j: SetId, s: Sim, more: seq<FactId>, now: int, ghost w: World,
                     ghost start: Sim, ghost t: Trace, ghost s0: Sim)
    returns (s': Sim, more': seq<FactId>, ghost t': Trace)
    requires w == e.W() && Ranked(w) && Shape(w, e.sets, e.children) && u in s0.impacted && j in Kids(e.children, u)
    requires Followed(e.facts, e.sets, s0, s, more) && Running(w, e.sets, e.children, now, start, t, s)
    ensures Followed(e.facts, e.sets, s0, s', more') && Running(w, e.sets, e.children, now, start, t', s')
    ensures t'.visits == t.visits + [Visit(u, j)]
  {
    hide Ranked, Shape, Running, StepSim, Followed, SetSimulable, Kids;
    KidIsSimulable(w, e.sets, e.children, u, j);
    FollowedKeeps(e.facts, e.sets, s0, s, more);
    var queued;
    s', queued := SimulateChild(e.facts, e.sets, j, s, now, w);
    RunGrows(w, e.sets, e.children, now, start, t, s, u, j);
    FollowedTwice(e.facts, e.sets, s0, s, s', more, queued);
    more' := more + queued;
    t' := Longer(t, Visit(u, j), s');
  }

  /** The outer loop's invariant: each fallen fact is still queued or all its dependent sets were visited. */
  ghost predicate Queued(children: Children, visits: seq<Visit>, impacted: set<FactId>, queue: seq<FactId>) {
    Elements(queue) <= impacted && forall u | u in impacted :: u in queue || Covered(children, visits, u)
  }

  lemma QueueMoves(children: Children, visits: seq<Visit>, visits': seq<Visit>, impacted: set<FactId>,
                   impacted': set<FactId>, queue: seq<FactId>, more: seq<FactId>)
    requires queue != [] && Queued(children, visits, impacted, queue) && visits <= visits'
    requires Covered(children, visits', queue[0])
    requires impacted' == impacted + Elements(more)
    ensures Queued(children, visits', impacted', queue[1..] + more)
  {
    forall u | u in impacted' && u !in queue[1..] + more ensures Covered(children, visits', u) {
      if u in queue {
        assert queue == [queue[0]] + queue[1..];
      } else {
        assert u in impacted && Covered(children, visits, u);
        forall j | j in Kids(children, u) ensures Visit(u, j) in visits' {
          assert Visit(u, j) in visits;
          var k :| 0 <= k < |visits| && visits[k] == Visit(u, j);
          assert visits'[k] == visits[k];
        }
      }
    }
    forall f | f in queue[1..] + more ensures f in impacted' {
      assert f in Elements(queue) || f in more;
    }
  }

  /** Breadth-first simulation from x. */
  method SimulateInvalidation(e: Engine, x: FactId, st: map<FactId, Status>, conf: Confs, now: int)
    returns (impacted: set<FactId>, ghost t: Trace)
    requires Ranked(e.W()) && Shape(e.W(), e.sets, e.children) && x in e.facts && st.Keys == e.facts.Keys
    requires conf.Keys == e.sets.Keys
    ensures Simulation(e.W(), e.sets, e.children, now, x, st, conf, t) && t.Last().impacted == impacted
    ensures x in impacted && impacted <= e.facts.Keys
  {
    ghost var w := e.W();
    var s := Sim(st[x := INVALID], conf, {x});
    ghost var start := s;
    t := Trace([s], []);
    var queue := [x];
    assert Running(w, e.sets, e.children, now, start, t, s);
    assert Queued(e.children, t.visits, s.impacted, queue);
    hide Ranked, Shape, Running, Queued, Followed, Covered;
    while |queue| > 0
      invariant Running(w, e.sets, e.children, now, start, t, s) && Queued(e.children, t.visits, s.impacted, queue)
      invariant s.st.Keys == e.facts.Keys && s.conf.Keys == e.sets.Keys && x in s.impacted && s.impacted <= e.facts.Keys
      decreases e.facts.Keys - s.impacted, |queue|
    {
      HeadHasFallen(e.children, t.visits, s.impacted, queue);
      ghost var s0, visits0, before := s, t.visits, queue;
      var more;
      s, more, t := SimulateFact(e, queue[0], s, now, w, start, t);
      FollowedKeeps(e.facts, e.sets, s0, s, more);
      FollowedGrows(e.facts, e.sets, s0, s, more);
      QueueMoves(e.children, visits0, t.visits, s0.impacted, s.impacted, queue, more);
      queue := queue[1..] + more;
    }
    impacted := s.impacted;
    RunEnds(w, e.sets, e.children, now, start, t, s, queue);
  }

  lemma HeadHasFallen(children: Children, visits: seq<Visit>, impacted: set<FactId>, queue: seq<FactId>)
    requires queue != [] && Queued(children, visits, impacted, queue)
    ensures queue[0] in impacted
  {
    assert queue[0] in Elements(queue);
  }

  lemma FollowedGrows(facts: map<FactId, Fact>, sets: Sets, s: Sim, s': Sim, more: seq<FactId>)
    requires Followed(facts, sets, s, s', more)
    ensures s'.impacted == s.impacted + Elements(more) && (more != [] ==> s.impacted < s'.impacted)
  {
    if more != [] { assert more[0] in more && more[0] in s'.impacted; }
  }

  lemma RunEnds(w: World, sets: Sets, children: Children, now: int, start: Sim, t: Trace, s: Sim, queue: seq<FactId>)
    requires Running(w, sets, children, now, start, t, s) && Queued(children, t.visits, s.impacted, queue)
    requires queue == []
    ensures IsRun(w, sets, children, now, t) && t.states[0] == start && t.Last() == s
    ensures forall u | u in s.impacted :: Covered(children, t.visits, u)
  {
    hide Covered;
  }
}
