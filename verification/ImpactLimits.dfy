/** Engines on which the what-if simulation and retraction disagree. */
module ImpactLimits {
  import opened Facts
  import opened Semantics
  import opened Cache
  import opened Engines
  import opened Exactness
  import opened Simulations
  import opened Derivations
  import opened Impact
  import opened Digraph
  import Cycles

  // ---- Retraction ----------------------------------------------------------------------------------------

  const TWO_WAYS: Fact := Bare(false, INVALID, Empirical, [["x"], ["x"]])

  method BuildTwoWays() returns (e: Engine)
    ensures fresh(e) && e.Valid() && e.clock <= 1 && e.facts == map["x" := ROOT, "r" := TWO_WAYS]
    ensures e.retracted.Keys == {"r"}
  {
    e := new Engine();
    hide Engine.Valid, Offered, Timed, Kept, Untouched;
    TwoWaysIsBuilt();
    Offer(e, "x", ROOT, 1);
    Offer(e, "r", TWO_WAYS, 1);
    var _ := e.RetractFact("r", "", 1);
  }

  /** A retracted fact with two sets that both lose x is reported although it was Invalid before. */
  method RetractedIsReported() returns (e: Engine, impacted: set<FactId>)
    ensures e.Valid() && e.facts == map["x" := ROOT, "r" := TWO_WAYS] && e.retracted.Keys == {"r"}
    ensures "r" in impacted && "r" in e.derived && e.derived["r"] == INVALID
  {
    e := BuildTwoWays();
    hide *;
    ValidParts(e, 1);
    ghost var w := e.W();
    assert TwoWays(w) by { TwoWaysHere(e); }
    TwoWaysIsTame(w);
    TwoWaysReads(e, w);
    var r;
    ghost var t;
    r, t := GetImpact(e, "x", 1);
    impacted := r.value;
    TwoWaysIsSpurious(w, impacted);
  }

  lemma TwoWaysHere(e: Engine)
    requires Ranked(e.W()) && e.facts == map["x" := ROOT, "r" := TWO_WAYS] && e.retracted.Keys == {"r"}
    ensures TwoWays(e.W()) && "x" in e.facts && "r" in e.facts
  {
    hide Ranked;
  }

  lemma TwoWaysReads(e: Engine, w: World)
    requires w == e.W() && TwoWays(w) && Tame(w, "x", 1)
    requires Quiet(w, 1) ==> forall f | f in e.facts :: f in e.derived && e.derived[f] == Truth(w, 1, f)
    ensures "x" in e.facts && "r" in e.derived && e.derived["r"] == INVALID
  {
    hide Truth, Ranked;
    RetractedIsDown(w, 1, "r");
  }

  /** What the examples need to know of a valid engine in quiet. */
  lemma ValidParts(e: Engine, now: int)
    requires e.Valid() && e.clock <= now
    ensures e.Consistent() && Ranked(e.W()) && e.W() == World(e.facts, e.retracted, e.rank)
    ensures Quiet(e.W(), now) ==> forall f | f in e.facts :: f in e.derived && e.derived[f] == Truth(e.W(), now, f)
  {
    assert Ranked(e.W()) && e.Consistent();
    hide Engine.Valid, Engine.Consistent, Ranked, Quiet, Truth;
    if Quiet(e.W(), now) { ExactEverywhere(e, now); }
  }

  lemma TwoWaysIsBuilt()
    ensures Offered(map[], "x", Timed(ROOT, 1)) == map["x" := ROOT]
    ensures Offered(map["x" := ROOT], "r", Timed(TWO_WAYS, 1)) == map["x" := ROOT, "r" := TWO_WAYS]
  {
    assert |map["x" := ROOT]| == 1;
    assert GoodTokens(map["x" := ROOT], ["x"]);
  }

  lemma TwoWaysRefs()
    ensures SetRefs(TWO_WAYS, 0) == [DepRef("x", false)] && SetRefs(TWO_WAYS, 1) == [DepRef("x", false)]
    ensures TokensParse(TWO_WAYS)
  {
    assert ParseDependencyRef("x") == Success(DepRef("x", false));
  }

  ghost predicate TwoWays(w: World) {
    Ranked(w) && w.facts == map["x" := ROOT, "r" := TWO_WAYS] && w.retracted.Keys == {"r"}
  }

  lemma TwoWaysIsTame(w: World)
    requires TwoWays(w)
    ensures Tame(w, "x", 1)
  {
    TwoWaysRefs();
    hide Ranked;
    forall i, r | r in SetRefs(w.facts["r"], i) ensures !r.negated {
      assert i == 0 || i == 1;
    }
  }

  lemma TwoWaysIsBelow(w: World)
    requires TwoWays(w)
    ensures Impact.Below(w, "x", "r")
  {
    TwoWaysRefs();
    hide Ranked;
    assert DepRef("x", false) in SetRefs(w.facts["r"], 0);
    assert Cycles.DependsOn(w.facts["r"], "x") && ("x", "r") in Cycles.DependencyEdges(w.facts);
    EdgeReaches(Cycles.DependencyEdges(w.facts), "x", "r");
    hide Reaches, Cycles.DependencyEdges;
  }

  lemma TwoWaysIsSpurious(w: World, impacted: set<FactId>)
    requires TwoWays(w) && Explains(w, 1, "x", impacted)
    ensures "r" in impacted
  {
    TwoWaysRefs();
    TwoWaysIsTame(w);
    assert Truth(w, 1, "x") == VALID;
    TwoWaysIsBelow(w);
    var r := DepRef("x", false);
    hide Ranked, Truth, Impact.Below, Tame;
    assert "x" in impacted;
    forall i: nat | i < 2 ensures Held(w, 1, "r", i) && Loses(w, "r", i, impacted) {
      assert SetRefs(w.facts["r"], i) == [r] && r in SetRefs(w.facts["r"], i);
    }
    assert Held(w, 1, "r", 0) && Held(w, 1, "r", 1) && Loses(w, "r", 0, impacted);
    assert SetCount(w, "r") == 2;
  }

  // ---- Negation ------------------------------------------------------------------------------------------

  const RISES: Fact := Bare(false, INVALID, Empirical, [["!x"]])
  const EITHER: Fact := Bare(false, INVALID, Empirical, [["x"], ["z"]])
  const SEESAW: map<FactId, Fact> := map["x" := ROOT, "z" := RISES, "v" := EITHER]

  /** z rests on the absence of x; v rests on x or on z. */
  ghost predicate Seesaw(w: World) {
    Ranked(w) && w.facts == SEESAW
  }

  lemma SeesawRefs()
    ensures SetRefs(RISES, 0) == [DepRef("x", true)] && SetRefs(EITHER, 0) == [DepRef("x", false)]
    ensures SetRefs(EITHER, 1) == [DepRef("z", false)]
  {
    assert ParseDependencyRef("x") == Success(DepRef("x", false)) &&
           ParseDependencyRef("z") == Success(DepRef("z", false));
    assert "!x"[1..] == "x";
    assert ParseDependencyRef("!x") == Success(DepRef("x", true));
  }

  lemma SeesawIsQuiet(w: World)
    requires w.facts == SEESAW
    ensures Quiet(w, 1)
  {}

  const Z0: SetId := SetId("z", 0)
  const V0: SetId := SetId("v", 0)
  const V1: SetId := SetId("v", 1)

  /** Before x is retracted, z is down and v stands on x. */
  lemma SeesawBefore(w: World)
    requires Seesaw(w) && w.retracted == map[]
    ensures Truth(w, 1, "x") == VALID && Truth(w, 1, "z") == INVALID && Truth(w, 1, "v") == VALID
    ensures EvalSet(w, Uniform(w, 1), Z0) == INVALID && EvalSet(w, Uniform(w, 1), V0) == VALID
    ensures EvalSet(w, Uniform(w, 1), V1) == INVALID
  {
    SeesawRefs();
    SeesawIsQuiet(w);
    assert Truth(w, 1, "x") == VALID;
    hide Quiet, Ranked;
    SeesawSets(w);
  }

  lemma SeesawSets(w: World)
    requires Seesaw(w) && Quiet(w, 1) && "z" !in w.retracted && "v" !in w.retracted
    ensures var at := Uniform(w, 1);
      (Truth(w, 1, "x") == VALID ==>
       EvalSet(w, at, Z0) == INVALID && EvalSet(w, at, V0) == VALID && Truth(w, 1, "z") == INVALID &&
                                     EvalSet(w, at, V1) == INVALID && Truth(w, 1, "v") == VALID) &&
      (Truth(w, 1, "x") == INVALID ==> Truth(w, 1, "z") == VALID && Truth(w, 1, "v") == VALID)
  {
    SeesawRefs();
    hide Ranked, Quiet;
    SingleTruth(w, 1, "z", 0, DepRef("x", true));
    NegatedTruth(w, 1, "z", "x");
    SingleTruth(w, 1, "v", 0, DepRef("x", false));
    SingleTruth(w, 1, "v", 1, DepRef("z", false));
    EitherTruth(w);
    hide Truth, EvalSet;
  }

  lemma EitherTruth(w: World)
    requires Seesaw(w) && "v" !in w.retracted
    ensures var a, b := EvalSet(w, Uniform(w, 1), V0), EvalSet(w, Uniform(w, 1), V1);
      (a == VALID && b == INVALID ==> Truth(w, 1, "v") == VALID) &&
      (a == INVALID && b == VALID ==> Truth(w, 1, "v") == VALID)
  {
    var confs := Confidences(w, Uniform(w, 1), "v");
    assert |confs| == 2 && confs[0] == EvalSet(w, Uniform(w, 1), V0) && confs[1] == EvalSet(w, Uniform(w, 1), V1);
    assert Truth(w, 1, "v") == Best(confs, 2);
    hide EvalSet, Ranked;
    assert Best(confs, 0) == INVALID;
    assert Best(confs, 1) == if confs[0] >= THRESHOLD && confs[0] > INVALID then confs[0] else INVALID;
  }

  /** How the simulation goes: z can only rise, v falls as soon as its first set is visited, and its second set never
      is. */
  ghost predicate SeesawMid(s: Sim) {
    s.st.Keys == {"x", "z", "v"} && s.conf.Keys == {Z0, V0, V1} && s.st["x"] == INVALID && s.conf[V1] == INVALID &&
    (s.conf[V0] == VALID || s.conf[V0] == INVALID) && s.st["v"] == s.conf[V0] &&
    (s.conf[Z0] == VALID || s.conf[Z0] == INVALID) && s.st["z"] == s.conf[Z0] &&
    s.impacted == if s.conf[V0] == INVALID then {"x", "v"} else {"x"}
  }

  lemma SeesawKids(w: World, sets: Sets, children: Children, u: FactId, j: SetId)
    requires Seesaw(w) && Shape(w, sets, children) && j in Kids(children, u) && (u == "x" || u == "v")
    ensures u == "x" && (j == Z0 || j == V0) && j in sets
    ensures forall q :: q in sets[j].deps.Refs() <==> q == if j == Z0 then DepRef("x", true) else DepRef("x", false)
  {
    SeesawRefs();
    KidRefs(w, sets, children, u, j);
    hide Ranked, Shape;
  }

  lemma SeesawStep(w: World, sets: Sets, children: Children, s: Sim, u: FactId, j: SetId)
    requires Seesaw(w) && Shape(w, sets, children) && SeesawMid(s) && u in s.impacted && j in Kids(children, u)
    ensures SeesawMid(StepSim(w, sets, 1, s, j)) && (j == Z0 || j == V0)
    ensures j == V0 || s.conf[V0] == INVALID ==> StepSim(w, sets, 1, s, j).conf[V0] == INVALID
  {
    hide Seesaw, Shape, SeesawMid, StepSim, Kids;
    FallenInSeesaw(s, u);
    SeesawKids(w, sets, children, u, j);
    SeesawValue(w, s, sets, j);
    StepSeesaw(w, sets, s, j);
  }

  lemma FallenInSeesaw(s: Sim, u: FactId)
    requires SeesawMid(s) && u in s.impacted
    ensures u == "x" || u == "v"
  {}

  lemma SeesawValue(w: World, s: Sim, sets: Sets, j: SetId)
    requires Seesaw(w) && SeesawMid(s) && (j == Z0 || j == V0) && j in sets
    requires forall q :: q in sets[j].deps.Refs() <==> q == if j == Z0 then DepRef("x", true) else DepRef("x", false)
    ensures SetValue(w, s.st, 1, j.fact, sets[j].deps.Refs()) == if j == Z0 then VALID else INVALID
  {
    hide Ranked;
    SingleValue(w, s.st, 1, j.fact, sets[j].deps.Refs(), if j == Z0 then DepRef("x", true) else DepRef("x", false));
  }

  /** The largest confidences of z and v. */
  lemma SeesawTops(w: World, conf: Confs)
    requires Seesaw(w) && conf.Keys == {Z0, V0, V1} && conf[V1] == INVALID
    requires (conf[Z0] == VALID || conf[Z0] == INVALID) && (conf[V0] == VALID || conf[V0] == INVALID)
    ensures MaxConf(conf, "z", SetCount(w, "z")) == conf[Z0] && MaxConf(conf, "v", SetCount(w, "v")) == conf[V0]
  {
    hide Ranked;
    assert MaxConf(conf, "z", 0) == INVALID && MaxConf(conf, "v", 0) == INVALID;
    assert MaxConf(conf, "z", 1) == conf[Z0] && MaxConf(conf, "v", 1) == conf[V0];
    assert MaxConf(conf, "v", 2) == MaxConf(conf, "v", 1);
  }

  lemma StepSeesaw(w: World, sets: Sets, s: Sim, j: SetId)
    requires Seesaw(w) && SeesawMid(s) && (j == Z0 || j == V0) && j in sets
    requires SetValue(w, s.st, 1, j.fact, sets[j].deps.Refs()) == if j == Z0 then VALID else INVALID
    ensures SeesawMid(StepSim(w, sets, 1, s, j))
    ensures j == V0 || s.conf[V0] == INVALID ==> StepSim(w, sets, 1, s, j).conf[V0] == INVALID
  {
    hide Seesaw;
    var conf := s.conf[j := if j == Z0 then VALID else INVALID];
    SeesawTops(w, conf);
    hide SetValue, MaxConf, SetCount;
  }

  lemma {:induction false} SeesawRun(w: World, sets: Sets, children: Children, st: map<FactId, Status>, conf: Confs,
                                     t: Trace, i: nat)
    requires Seesaw(w) && Shape(w, sets, children) && Simulation(w, sets, children, 1, "x", st, conf, t)
    requires i < |t.states|
    requires SeesawMid(t.states[0])
    ensures SeesawMid(t.states[i])
    ensures forall k | 0 <= k < i :: t.visits[k].set_ == V0 ==> t.states[i].conf[V0] == INVALID
  {
    hide Seesaw, Shape, SeesawMid, StepSim, Kids;
    if i > 0 {
      SeesawRun(w, sets, children, st, conf, t, i - 1);
      assert IsStep(w, sets, children, 1, t, i - 1);
      SeesawStep(w, sets, children, t.states[i - 1], t.visits[i - 1].cause, t.visits[i - 1].set_);
    }
  }

  /** Whatever the order of visits, v is reported. */
  lemma SeesawReports(w: World, sets: Sets, children: Children, st: map<FactId, Status>, conf: Confs, t: Trace)
    requires Seesaw(w) && Shape(w, sets, children) && Simulation(w, sets, children, 1, "x", st, conf, t)
    requires SeesawMid(t.states[0])
    ensures "v" in t.Last().impacted
  {
    SeesawRun(w, sets, children, st, conf, t, |t.states| - 1);
    VIsKidOfX(w, sets, children);
    assert "x" in t.Last().impacted;
    assert Covered(children, t.visits, "x");
    hide Seesaw, Shape, StepSim, Kids, IsRun;
    assert Visit("x", V0) in t.visits;
    var k :| 0 <= k < |t.visits| && t.visits[k] == Visit("x", V0);
  }

  lemma VIsKidOfX(w: World, sets: Sets, children: Children)
    requires Seesaw(w) && Shape(w, sets, children)
    ensures V0 in Kids(children, "x")
  {
    SeesawRefs();
    assert IsSetId(w, V0);
    SetParents(w, sets, children, V0);
    assert DepRef("x", false) in SetRefs(w.facts["v"], 0);
    assert sets[V0].Mentions("x");
  }

  lemma SeesawStarts(w: World, sets: Sets, children: Children, st: map<FactId, Status>, conf: Confs)
    requires Seesaw(w) && w.retracted == map[] && Shape(w, sets, children) && TrueStart(w, sets, 1, st, conf)
    ensures SeesawMid(Sim(st["x" := INVALID], conf, {"x"}))
  {
    hide Seesaw, Shape, TrueStart, EvalSet, Truth, Uniform, SeesawMid;
    SeesawBefore(w);
    SeesawKeys(w, sets, children);
    StartValues(w, sets, st, conf);
    SeesawMidFrom(st, conf);
  }

  lemma SeesawMidFrom(st: map<FactId, Status>, conf: Confs)
    requires st.Keys == {"x", "z", "v"} && conf.Keys == {Z0, V0, V1} && st["z"] == INVALID && st["v"] == VALID
    requires conf[Z0] == INVALID && conf[V0] == VALID && conf[V1] == INVALID
    ensures SeesawMid(Sim(st["x" := INVALID], conf, {"x"}))
  {}

  lemma StartValues(w: World, sets: Sets, st: map<FactId, Status>, conf: Confs)
    requires Seesaw(w) && TrueStart(w, sets, 1, st, conf) && sets.Keys == {Z0, V0, V1}
    ensures st.Keys == {"x", "z", "v"} && conf.Keys == {Z0, V0, V1} && st["z"] == Truth(w, 1, "z")
    ensures st["v"] == Truth(w, 1, "v")
    ensures conf[Z0] == EvalSet(w, Uniform(w, 1), Z0) && conf[V0] == EvalSet(w, Uniform(w, 1), V0)
    ensures conf[V1] == EvalSet(w, Uniform(w, 1), V1)
  {
    hide Ranked, Truth, EvalSet;
  }

  lemma SeesawKeys(w: World, sets: Sets, children: Children)
    requires Seesaw(w) && Shape(w, sets, children)
    ensures sets.Keys == {Z0, V0, V1}
  {
    hide Ranked, SetShape;
    forall j ensures j in sets <==> j == Z0 || j == V0 || j == V1 {
      assert j in sets <==> IsSetId(w, j);
      assert j == SetId(j.fact, j.index);
    }
  }

  method BuildSeesaw() returns (e: Engine)
    ensures fresh(e) && e.Valid() && e.clock <= 1 && e.facts == SEESAW && e.retracted == map[]
  {
    e := new Engine();
    hide Engine.Valid, Offered, Timed;
    SeesawIsBuilt();
    Offer(e, "x", ROOT, 1);
    Offer(e, "z", RISES, 1);
    Offer(e, "v", EITHER, 1);
  }

  lemma SeesawIsBuilt()
    ensures Offered(map[], "x", Timed(ROOT, 1)) == map["x" := ROOT]
    ensures Offered(map["x" := ROOT], "z", Timed(RISES, 1)) == map["x" := ROOT, "z" := RISES]
    ensures Offered(map["x" := ROOT, "z" := RISES], "v", Timed(EITHER, 1)) == SEESAW
  {
    var one, two := map["x" := ROOT], map["x" := ROOT, "z" := RISES];
    assert |one| == 1 && |two| == 2;
    assert "!x"[1..] == "x";
    assert GoodTokens(one, ["!x"]);
    assert GoodTokens(two, ["x"]) && GoodTokens(two, ["z"]);
  }

  /** With negation: v is reported, yet it stands after x is retracted, because z takes over. */
  method StandingIsReported() returns (e: Engine, impacted: set<FactId>)
    ensures e.Valid() && e.facts == SEESAW && e.retracted.Keys == {"x"}
    ensures "v" in impacted && "v" in e.derived && e.derived["v"] == VALID
  {
    e := BuildSeesaw();
    hide *;
    impacted := AskSeesaw(e);
    var _ := e.RetractFact("x", "gone", 1);
    ValidParts(e, 1);
    SeesawAfter(e, e.W());
  }

  method AskSeesaw(e: Engine) returns (impacted: set<FactId>)
    requires e.Valid() && e.clock <= 1 && e.facts == SEESAW && e.retracted == map[]
    ensures "v" in impacted && "x" in e.facts
  {
    hide *;
    ValidParts(e, 1);
    SeesawHere(e);
    BuiltParts(e, 1);
    SeesawIsQuiet(e.W());
    StartIsTrue(e.W(), e.derived, e.sets, e.children, e.stamp, 1);
    SeesawStarts(e.W(), e.sets, e.children, Readings(e.W(), e.derived, 1), map j | j in e.sets :: e.sets[j].confidence);
    var r;
    ghost var t;
    r, t := GetImpact(e, "x", 1);
    impacted := r.value;
    StoredIs(e);
    FirstState(e.W(), e.sets, e.children, Readings(e.W(), e.derived, 1), StoredConfidences(e), t);
    SeesawReports(e.W(), e.sets, e.children, Readings(e.W(), e.derived, 1), StoredConfidences(e), t);
  }

  lemma StoredIs(e: Engine)
    ensures StoredConfidences(e) == map j | j in e.sets :: e.sets[j].confidence
  {}

  lemma FirstState(w: World, sets: Sets, children: Children, st: map<FactId, Status>, conf: Confs, t: Trace)
    requires Simulation(w, sets, children, 1, "x", st, conf, t)
    ensures t.states != [] && t.states[0] == Sim(st["x" := INVALID], conf, {"x"})
  {}

  lemma SeesawHere(e: Engine)
    requires Ranked(e.W()) && e.facts == SEESAW && e.retracted == map[]
    ensures Seesaw(e.W()) && e.W().retracted == map[] && e.W().facts == SEESAW && "x" in e.facts
  {
    hide Ranked;
  }

  lemma SeesawAfter(e: Engine, w: World)
    requires w == e.W() && Ranked(w) && e.facts == SEESAW && e.retracted.Keys == {"x"}
    requires e.W() == World(e.facts, e.retracted, e.rank)
    requires Quiet(w, 1) ==> forall f | f in e.facts :: f in e.derived && e.derived[f] == Truth(w, 1, f)
    ensures "v" in e.derived && e.derived["v"] == VALID
  {
    SeesawIsQuiet(w);
    RetractedIsDown(w, 1, "x");
    hide Truth, Ranked, Quiet;
    SeesawSets(w);
  }
}
