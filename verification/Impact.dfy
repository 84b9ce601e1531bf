/** What the what-if simulation means, and when it agrees with retracting for real. */
module Impact {
  import opened Facts
  import opened Semantics
  import opened Cache
  import opened Engines
  import opened Exactness
  import opened Simulations
  import opened Derivations
  import opened Digraph
  import Closure
  import Cycles

  // ---- What depends on x ----------------------------------------------------------------------------------

  /** A derived fact other than x that depends on x, however indirectly. */
  ghost predicate Below(w: World, x: FactId, f: FactId) {
    f in w.facts && f in Dependents(w.facts, x) && f != x && !w.facts[f].isRoot
  }

  /** f negates neither x nor anything that depends on x. */
  ghost predicate Aligned(w: World, x: FactId, f: FactId) {
    f in w.facts && forall i, r | r in SetRefs(w.facts[f], i) && r.negated :: r.id !in Dependents(w.facts, x)
  }

  /** Nothing has expired, no fact limits the age of its parents, and no fact that depends on x negates x or another
      fact that depends on x. Any other negation is allowed, and so are retracted facts. */
  ghost predicate Tame(w: World, x: FactId, now: int) {
    Ranked(w) && Quiet(w, now) && x in w.facts && forall f | Below(w, x, f) :: Aligned(w, x, f)
  }

  // ---- Where the simulation starts -----------------------------------------------------------------------

  /** The copied statuses and confidences are the true ones. */
  ghost predicate TrueStart(w: World, sets: Sets, now: int, st: map<FactId, Status>, conf: Confs) {
    Ranked(w) && st.Keys == w.facts.Keys && conf.Keys == sets.Keys &&
    (forall f | f in w.facts :: st[f] == Truth(w, now, f)) &&
    (forall j | j in sets :: j.fact in w.facts && conf[j] == EvalSet(w, Uniform(w, now), j))
  }

  lemma StartIsTrue(w: World, derived: map<FactId, Status>, sets: Sets, children: Children, stamp: map<SetId, int>,
                    now: int)
    requires Ranked(w) && Shape(w, sets, children) && Coherent(w, derived, sets, stamp) && Quiet(w, now)
    requires ReadBy(w, stamp, now)
    ensures TrueStart(w, sets, now, Readings(w, derived, now), map j | j in sets :: sets[j].confidence)
  {
    hide Shape, Settled, ReadBy, Quiet, Ranked, Truth, EvalSet, Readings;
    SettledReads(w, derived, sets, stamp, now);
    forall f | f in w.facts ensures Readings(w, derived, now)[f] == Truth(w, now, f) {
      StartStatus(w, derived, sets, children, stamp, now, f);
    }
    forall j | j in sets ensures j.fact in w.facts && sets[j].confidence == EvalSet(w, Uniform(w, now), j) {
      StartConfidence(w, derived, sets, children, stamp, now, j);
    }
  }

  lemma SettledReads(w: World, derived: map<FactId, Status>, sets: Sets, stamp: map<SetId, int>, now: int)
    requires Coherent(w, derived, sets, stamp)
    ensures Readings(w, derived, now).Keys == w.facts.Keys
  {}

  lemma StartStatus(w: World, derived: map<FactId, Status>, sets: Sets, children: Children, stamp: map<SetId, int>,
                    now: int, f: FactId)
    requires Ranked(w) && Shape(w, sets, children) && Coherent(w, derived, sets, stamp) && Quiet(w, now)
    requires ReadBy(w, stamp, now)
    requires f in w.facts
    ensures f in Readings(w, derived, now) && Readings(w, derived, now)[f] == Truth(w, now, f)
  {
    assert f in derived;
    hide Shape, Settled, ReadBy;
    CacheIsEval(w, derived, sets, children, stamp, f);
    QuietIsTimeless(w, stamp, now, f);
    QuietReading(w, now, f);
  }

  lemma StartConfidence(w: World, derived: map<FactId, Status>, sets: Sets, children: Children, stamp: map<SetId, int>,
                        now: int, j: SetId)
    requires Ranked(w) && Shape(w, sets, children) && Coherent(w, derived, sets, stamp) && Quiet(w, now)
    requires ReadBy(w, stamp, now) && j in sets
    ensures j.fact in w.facts && sets[j].confidence == EvalSet(w, Uniform(w, now), j)
  {
    assert IsSetId(w, j);
    CachedSetIsEval(w, derived, sets, children, stamp, j);
    hide Shape, Settled;
    QuietIsTimeless(w, stamp, now, j.fact);
    assert Confidences(w, stamp, j.fact)[j.index] == Confidences(w, Uniform(w, now), j.fact)[j.index];
    assert j == SetId(j.fact, j.index);
  }

  /** The best confidence is the largest one, provided that reaches the threshold. */
  lemma {:induction false} BestIsMax(confs: seq<Status>, conf0: Confs, f: FactId, n: nat)
    requires n <= |confs|
    requires forall i: nat | i < |confs| :: confs[i] == ConfOf(conf0, SetId(f, i))
    ensures Best(confs, n) == AtThreshold(MaxConf(conf0, f, n))
  {
    if n > 0 {
      BestIsMax(confs, conf0, f, n - 1);
      BestIsLargest(confs, n - 1);
    }
  }

  ghost function AtThreshold(confidence: Status): Status {
    if confidence >= THRESHOLD then confidence else INVALID
  }

  /** What is known of a fact before the simulation: what its sets are worth, and that its status is the largest of
      them that reaches the threshold unless it was retracted. */
  lemma StartBelow(w: World, sets: Sets, now: int, st: map<FactId, Status>, conf: Confs, f: FactId)
    requires Ranked(w) && Quiet(w, now) && TrueStart(w, sets, now, st, conf) && f in w.facts && !w.facts[f].isRoot
    requires (forall j :: j in sets <==> IsSetId(w, j))
    ensures forall i: nat | i < SetCount(w, f) :: Clean(w, now, conf, f, i)
    ensures st[f] == if f in w.retracted then INVALID else AtThreshold(MaxConf(conf, f, SetCount(w, f)))
  {
    hide Supported, Held, Truth, EvalSet, Ranked, Quiet, MaxConf, Clean;
    forall i: nat | i < SetCount(w, f) ensures Clean(w, now, conf, f, i) {
      StartClean(w, sets, now, st, conf, f, i);
    }
    StartTop(w, sets, now, st, conf, f);
  }

  lemma StartClean(w: World, sets: Sets, now: int, st: map<FactId, Status>, conf: Confs, f: FactId, i: nat)
    requires TrueStart(w, sets, now, st, conf) && Quiet(w, now) && IsSetId(w, SetId(f, i))
    requires SetId(f, i) in sets
    ensures Clean(w, now, conf, f, i)
  {
    assert conf[SetId(f, i)] == EvalSet(w, Uniform(w, now), SetId(f, i));
    hide EvalSet, Supported, Held, Truth, Quiet;
    SupportedIsValue(w, now, f, i);
  }

  lemma StartTop(w: World, sets: Sets, now: int, st: map<FactId, Status>, conf: Confs, f: FactId)
    requires TrueStart(w, sets, now, st, conf) && f in w.facts && !w.facts[f].isRoot
    requires (forall j :: j in sets <==> IsSetId(w, j))
    ensures st[f] == if f in w.retracted then INVALID else AtThreshold(MaxConf(conf, f, SetCount(w, f)))
  {
    assert st[f] == Truth(w, now, f);
    var confs := Confidences(w, Uniform(w, now), f);
    assert Truth(w, now, f) == if f in w.retracted then INVALID else Best(confs, |confs|);
    hide Truth, EvalSet, Ranked;
    forall i: nat | i < |confs| ensures confs[i] == ConfOf(conf, SetId(f, i)) {
      assert IsSetId(w, SetId(f, i));
    }
    BestIsMax(confs, conf, f, |confs|);
  }

  /** The copied confidence says whether the set holds and whether it supports f. */
  ghost predicate Clean(w: World, now: int, conf: Confs, f: FactId, i: nat)
    requires Ranked(w)
  {
    ConfOf(conf, SetId(f, i)) >= INVALID && (ConfOf(conf, SetId(f, i)) > INVALID <==> Held(w, now, f, i)) &&
    (ConfOf(conf, SetId(f, i)) >= THRESHOLD <==> Supported(w, now, f, i))
  }

  // ---- The simulation's invariant ------------------------------------------------------------------------

  /** A tame world, the engine's sets and index, and the copies the simulation starts from. */
  datatype Setting = Setting(w: World, sets: Sets, children: Children, now: int, x: FactId, st: map<FactId, Status>,
                             conf: Confs)

  ghost predicate Sound(c: Setting) {
    Tame(c.w, c.x, c.now) && Shape(c.w, c.sets, c.children) && TrueStart(c.w, c.sets, c.now, c.st, c.conf)
  }

  ghost predicate Changed(a: Confs, b: Confs, f: FactId, i: int) {
    0 <= i && ConfOf(a, SetId(f, i)) != ConfOf(b, SetId(f, i))
  }

  /** Some set of f has lost its worth. */
  ghost predicate Touched(c: Setting, conf: Confs, f: FactId) {
    exists i :: i < SetCount(c.w, f) && Changed(c.conf, conf, f, i)
  }

  /** Two sets of f were worth something. */
  ghost predicate Twice(c: Setting, f: FactId) {
    exists i: nat, k: nat ::
      i < k < SetCount(c.w, f) && ConfOf(c.conf, SetId(f, i)) > INVALID && ConfOf(c.conf, SetId(f, k)) > INVALID
  }

  /** f was at or above the threshold. */
  ghost predicate Stood(c: Setting, f: FactId) {
    f !in c.w.retracted && MaxConf(c.conf, f, SetCount(c.w, f)) >= THRESHOLD
  }

  /** A set of f has lost its worth, no set at the threshold is left, and f had stood or had two sets worth
      something. */
  ghost predicate Fallen(c: Setting, conf: Confs, f: FactId) {
    Below(c.w, c.x, f) && Touched(c, conf, f) && MaxConf(conf, f, SetCount(c.w, f)) < THRESHOLD &&
    (Stood(c, f) || Twice(c, f))
  }

  ghost predicate FactMid(c: Setting, s: Sim, f: FactId) {
    f in s.st && f in c.st &&
    s.st[f] == (if Touched(c, s.conf, f) then MaxConf(s.conf, f, SetCount(c.w, f)) else c.st[f]) &&
    (f in s.impacted <==> Fallen(c, s.conf, f))
  }

  ghost predicate SetMid(c: Setting, s: Sim, j: SetId) {
    j in c.conf && j in s.conf && j in c.sets &&
    (s.conf[j] == c.conf[j] ||
     (s.conf[j] == INVALID && c.conf[j] > INVALID && exists p :: p in s.impacted && c.sets[j].Mentions(p)))
  }

  ghost predicate Midway(c: Setting, s: Sim) {
    s.conf.Keys == c.sets.Keys && s.st.Keys == c.w.facts.Keys && c.x in s.st && s.st[c.x] == INVALID &&
    c.x in s.impacted &&
    s.impacted <= c.w.facts.Keys && (forall j | j in c.sets :: SetMid(c, s, j)) &&
    forall f | f in c.w.facts && f != c.x :: FactMid(c, s, f)
  }

  lemma MidwayStarts(c: Setting)
    requires Sound(c)
    ensures Midway(c, Sim(c.st[c.x := INVALID], c.conf, {c.x}))
  {
    hide Shape, Ranked, Quiet, Truth, EvalSet, MaxConf, Below;
    var s := Sim(c.st[c.x := INVALID], c.conf, {c.x});
    forall f ensures !Touched(c, s.conf, f) {}
  }

  /** A fallen fact reads below the threshold. */
  lemma FallenReadsLow(c: Setting, s: Sim, u: FactId)
    requires Midway(c, s) && u in s.impacted
    ensures u in s.st && s.st[u] < THRESHOLD && (u == c.x || Below(c.w, c.x, u))
  {
    hide Below, MaxConf, SetMid;
    assert u != c.x ==> FactMid(c, s, u);
  }

  /** A fact below x names x, and what depends on x, without negation. */
  lemma NamedPlainly(c: Setting, u: FactId, j: SetId, r: DepRef)
    requires Sound(c) && (u == c.x || Below(c.w, c.x, u)) && Below(c.w, c.x, j.fact)
    requires r in SetRefs(c.w.facts[j.fact], j.index) && r.id == u
    ensures !r.negated
  {
    ReachesSelf(Cycles.DependencyEdges(c.w.facts), c.x);
    assert Aligned(c.w, c.x, j.fact);
    hide Reaches, Cycles.DependencyEdges, Ranked, Quiet, TrueStart, Shape, SetRefs;
  }

  /** What a visit finds: a set below x one of whose parents has fallen; it is worth nothing now. */
  lemma VisitFinds(c: Setting, s: Sim, u: FactId, j: SetId)
    requires Sound(c) && Midway(c, s) && u in s.impacted && j in Kids(c.children, u)
    ensures j in c.sets && IsSetId(c.w, j) && c.sets[j].Mentions(u) && Below(c.w, c.x, j.fact)
    ensures SetValue(c.w, s.st, c.now, j.fact, c.sets[j].deps.Refs()) == INVALID
  {
    hide Midway, Quiet, TrueStart, Below;
    FallenReadsLow(c, s, u);
    KidIsBelow(c, u, j);
    KidRefs(c.w, c.sets, c.children, u, j);
    var r :| r in c.sets[j].deps.Refs() && r.id == u;
    NamedPlainly(c, u, j, r);
    hide Sound;
    assert !Holds(c.w, s.st, c.now, j.fact, r);
  }

  lemma KidRefs(w: World, sets: Sets, children: Children, u: FactId, j: SetId)
    requires Shape(w, sets, children) && j in Kids(children, u)
    ensures j in sets && IsSetId(w, j) && sets[j].Mentions(u)
    ensures forall r :: r in sets[j].deps.Refs() <==> r in SetRefs(w.facts[j.fact], j.index)
    ensures exists r :: r in sets[j].deps.Refs() && r.id == u
  {
    assert IsSetId(w, j) && SetShape(w.facts[j.fact], j, sets[j]);
    RefMembers(sets[j]);
  }

  lemma KidIsBelow(c: Setting, u: FactId, j: SetId)
    requires Sound(c) && (u == c.x || Below(c.w, c.x, u)) && j in Kids(c.children, u)
    ensures Below(c.w, c.x, j.fact)
  {
    hide TrueStart, Quiet;
    var edges := Cycles.DependencyEdges(c.w.facts);
    KidRefs(c.w, c.sets, c.children, u, j);
    KidDepends(c.w, c.sets, c.children, u, j);
    if u == c.x { ReachesSelf(edges, c.x); }
    EdgeReaches(edges, u, j.fact);
    hide Reaches, Shape;
    ReachesTransitive(edges, c.x, u, j.fact);
    DependentsAreLater(c.w, c.x, u);
    assert c.w.rank[u] < c.w.rank[j.fact];
  }

  lemma DependentsAreLater(w: World, x: FactId, f: FactId)
    requires Ranked(w) && x in w.facts && f in w.facts && Reaches(Cycles.DependencyEdges(w.facts), x, f)
    ensures w.rank[x] <= w.rank[f]
  {
    var edges := Cycles.DependencyEdges(w.facts);
    if x != f {
      var p :| PathFromTo(edges, p, x, f);
      forall a, b | (a, b) in edges ensures a in w.rank && b in w.rank && w.rank[a] < w.rank[b] {
        var i: nat, r :| r in SetRefs(w.facts[b], i) && r.id == a;
      }
      RankGrowsOnPath(edges, w.rank, p);
    }
  }

  // ---- One step ------------------------------------------------------------------------------------------

  /** A worthless set stays so; a worthy one loses its worth, and its fact takes what its other sets give. */
  ghost predicate Killed(c: Setting, s: Sim, j: SetId, s': Sim) {
    j in s.conf && j.fact in s.st &&
    if s.conf[j] == INVALID then s' == s
    else
      s'.conf == s.conf[j := INVALID] &&
      var status := MaxConf(s'.conf, j.fact, SetCount(c.w, j.fact));
      s'.st == s.st[j.fact := status] &&
      s'.impacted == if status != s.st[j.fact] && status < THRESHOLD then s.impacted + {j.fact} else s.impacted
  }

  lemma StepKills(c: Setting, s: Sim, u: FactId, j: SetId)
    requires Sound(c) && Midway(c, s) && u in s.impacted && j in Kids(c.children, u)
    ensures Killed(c, s, j, StepSim(c.w, c.sets, c.now, s, j))
  {
    hide Sound;
    VisitFinds(c, s, u, j);
    hide SetValue, MaxConf, Below, SetMid, FactMid;
    assert j in s.conf && j.fact in s.st;
    assert s.st[j.fact := s.st[j.fact]] == s.st;
  }

  lemma MidwayStep(c: Setting, s: Sim, u: FactId, j: SetId, s': Sim)
    requires Sound(c) && Midway(c, s) && u in s.impacted && j in Kids(c.children, u) && Killed(c, s, j, s')
    ensures Midway(c, s') && j in s'.conf && s'.conf[j] == INVALID
  {
    hide Sound, Midway, MaxConf, Below, IsSetId, SetMid, FactMid, SetValue;
    VisitFinds(c, s, u, j);
    BelowIsNotX(c, j.fact);
    SetSoFar(c, s, j);
    if s.conf[j] != INVALID {
      KilledFact(c, s, j, s');
      KilledKeys(c, s, j, s');
      forall i | i in c.sets ensures SetMid(c, s', i) { OtherSetKept(c, s, u, j, s', i); }
      forall f | f in c.w.facts && f != c.x ensures FactMid(c, s', f) {
        if f != j.fact { OtherFactKept(c, s, j, s', f); }
      }
      hide Killed;
      assert Midway(c, s') by { MidwayFrom(c, s'); }
    }
  }

  lemma MidwayFrom(c: Setting, s: Sim)
    requires s.conf.Keys == c.sets.Keys && s.st.Keys == c.w.facts.Keys && c.x in s.st && s.st[c.x] == INVALID
    requires c.x in s.impacted
    requires s.impacted <= c.w.facts.Keys
    requires (forall j | j in c.sets :: SetMid(c, s, j)) && forall f | f in c.w.facts && f != c.x :: FactMid(c, s, f)
    ensures Midway(c, s)
  {
    hide SetMid, FactMid;
  }

  lemma SetSoFar(c: Setting, s: Sim, j: SetId)
    requires Midway(c, s) && j in c.sets
    ensures j in c.conf && j in s.conf && (s.conf[j] == c.conf[j] || s.conf[j] == INVALID)
  {
    assert SetMid(c, s, j);
    hide FactMid;
  }

  lemma KilledKeys(c: Setting, s: Sim, j: SetId, s': Sim)
    requires Midway(c, s) && Killed(c, s, j, s') && j.fact != c.x && j.fact in c.w.facts && s.conf[j] != INVALID
    ensures s'.conf.Keys == c.sets.Keys && s'.st.Keys == c.w.facts.Keys && c.x in s'.st && s'.st[c.x] == INVALID
    ensures c.x in s'.impacted && s'.impacted <= c.w.facts.Keys && s'.conf[j] == INVALID
  {
    hide SetMid, FactMid, MaxConf;
  }

  lemma OtherSetKept(c: Setting, s: Sim, u: FactId, j: SetId, s': Sim, i: SetId)
    requires Midway(c, s) && Killed(c, s, j, s') && i in c.sets && j in c.sets && u in s.impacted
    requires c.sets[j].Mentions(u)
    requires s.conf[j] == c.conf[j] > INVALID
    ensures SetMid(c, s', i)
  {
    assert SetMid(c, s, i) && s.impacted <= s'.impacted;
    hide FactMid, MaxConf;
    assert u in s'.impacted;
  }

  lemma BelowIsNotX(c: Setting, f: FactId)
    requires Below(c.w, c.x, f)
    ensures f != c.x && f in c.w.facts
  {}

  lemma OtherFactKept(c: Setting, s: Sim, j: SetId, s': Sim, f: FactId)
    requires Midway(c, s) && Killed(c, s, j, s') && f != j.fact && f in c.w.facts && f != c.x
    ensures FactMid(c, s', f)
  {
    assert FactMid(c, s, f);
    hide Below, Midway;
    assert forall i: nat :: ConfOf(s.conf, SetId(f, i)) == ConfOf(s'.conf, SetId(f, i));
    MaxConfSame(s.conf, s'.conf, f, SetCount(c.w, f));
    assert forall i :: Changed(c.conf, s.conf, f, i) <==> Changed(c.conf, s'.conf, f, i);
    hide Changed;
  }

  /** The fact whose set died: it falls when no set at the threshold is left, provided its status moves by it. */
  lemma KilledFact(c: Setting, s: Sim, j: SetId, s': Sim)
    requires Sound(c) && Midway(c, s) && Killed(c, s, j, s') && IsSetId(c.w, j) && Below(c.w, c.x, j.fact)
    requires j in c.sets
    requires s.conf[j] == c.conf[j] && s.conf[j] != INVALID
    ensures FactMid(c, s', j.fact) && s.conf[j] > INVALID
  {
    var f, n := j.fact, SetCount(c.w, j.fact);
    StartOf(c, f);
    assert j.index < n && SetId(f, j.index) == j;
    hide Sound, Below, Supported, Held, Tame, TrueStart, IsSetId, Killed, Clean, SetMid, FactMid;
    MidwayParts(c, s, f);
    assert Clean(c.w, c.now, c.conf, f, j.index);
    assert ConfOf(c.conf, j) == s.conf[j] > INVALID by { WorthIsPositive(c, s, j); }
    KilledArithmetic(c, s, j, s');
  }

  lemma WorthIsPositive(c: Setting, s: Sim, j: SetId)
    requires Ranked(c.w) && Clean(c.w, c.now, c.conf, j.fact, j.index) && SetId(j.fact, j.index) == j
    requires j in c.conf && j in s.conf && s.conf[j] == c.conf[j] && s.conf[j] != INVALID
    ensures ConfOf(c.conf, j) == s.conf[j] > INVALID
  {
    hide Supported, Held;
  }

  lemma MidwayParts(c: Setting, s: Sim, f: FactId)
    requires Midway(c, s) && Below(c.w, c.x, f) && forall j :: j in c.sets <==> IsSetId(c.w, j)
    ensures FactMid(c, s, f) && forall i: nat | i < SetCount(c.w, f) :: SetMid(c, s, SetId(f, i))
  {
    hide SetMid, FactMid;
    assert f != c.x && f in c.w.facts;
    forall i: nat | i < SetCount(c.w, f) ensures SetMid(c, s, SetId(f, i)) {
      assert IsSetId(c.w, SetId(f, i));
    }
  }

  lemma StartOf(c: Setting, f: FactId)
    requires Sound(c) && Below(c.w, c.x, f)
    ensures Ranked(c.w) && f in c.st && (forall i: nat | i < SetCount(c.w, f) :: Clean(c.w, c.now, c.conf, f, i))
    ensures c.st[f] == if Stood(c, f) then MaxConf(c.conf, f, SetCount(c.w, f)) else INVALID
    ensures forall j :: j in c.sets <==> IsSetId(c.w, j)
  {
    assert f in c.w.facts;
    StartBelow(c.w, c.sets, c.now, c.st, c.conf, f);
  }

  /** The arithmetic of the case above. */
  lemma KilledArithmetic(c: Setting, s: Sim, j: SetId, s': Sim)
    requires Ranked(c.w) && Killed(c, s, j, s') && FactMid(c, s, j.fact) && Below(c.w, c.x, j.fact)
    requires j.index < SetCount(c.w, j.fact)
    requires s.conf[j] > INVALID && ConfOf(c.conf, j) == s.conf[j] && j == SetId(j.fact, j.index)
    requires forall i: nat | i < SetCount(c.w, j.fact) ::
      Clean(c.w, c.now, c.conf, j.fact, i) && SetMid(c, s, SetId(j.fact, i))
    requires c.st[j.fact] == if Stood(c, j.fact) then MaxConf(c.conf, j.fact, SetCount(c.w, j.fact)) else INVALID
    ensures FactMid(c, s', j.fact)
  {
    var f, n := j.fact, SetCount(c.w, j.fact);
    hide Below, Supported, Held;
    assert Changed(c.conf, s'.conf, f, j.index);
    MaxConfIsLargest(s.conf, f, n);
    MaxConfIsLargest(s'.conf, f, n);
    if MaxConf(s'.conf, f, n) >= THRESHOLD {
      Remains(c, s, j, s');
    } else if Touched(c, s.conf, f) {
      var k :| k < n && Changed(c.conf, s.conf, f, k);
      assert SetMid(c, s, SetId(f, k)) && k != j.index;
      TwoAre(c, f, k, j.index);
    } else {
      forall i | 0 <= i < n ensures ConfOf(c.conf, SetId(f, i)) == ConfOf(s.conf, SetId(f, i)) {
        assert !Changed(c.conf, s.conf, f, i);
      }
      MaxConfSame(c.conf, s.conf, f, n);
      OthersLeft(c, s, j, s');
    }
  }

  /** While some set reaches the threshold, the fact was not reported before either. */
  lemma Remains(c: Setting, s: Sim, j: SetId, s': Sim)
    requires s'.conf == s.conf[j := INVALID] && j in s.conf && s.conf[j] > INVALID && j == SetId(j.fact, j.index)
    requires MaxConf(s'.conf, j.fact, SetCount(c.w, j.fact)) >= THRESHOLD
    ensures MaxConf(s.conf, j.fact, SetCount(c.w, j.fact)) >= THRESHOLD
  {
    var f, n := j.fact, SetCount(c.w, j.fact);
    MaxConfIsLargest(s.conf, f, n);
    MaxConfIsLargest(s'.conf, f, n);
    var i :| 0 <= i < n && MaxConf(s'.conf, f, n) == ConfOf(s'.conf, SetId(f, i));
    assert ConfOf(s.conf, SetId(f, i)) >= ConfOf(s'.conf, SetId(f, i));
  }

  /** Of an untouched fact, something is left after the first loss exactly when two sets were worth something. */
  lemma OthersLeft(c: Setting, s: Sim, j: SetId, s': Sim)
    requires Ranked(c.w) && s'.conf == s.conf[j := INVALID] && j == SetId(j.fact, j.index)
    requires j.index < SetCount(c.w, j.fact) && ConfOf(c.conf, j) > INVALID
    requires forall i: nat | i < SetCount(c.w, j.fact) :: Clean(c.w, c.now, c.conf, j.fact, i)
    requires forall i: nat | i < SetCount(c.w, j.fact) ::
      ConfOf(c.conf, SetId(j.fact, i)) == ConfOf(s.conf, SetId(j.fact, i))
    ensures MaxConf(s'.conf, j.fact, SetCount(c.w, j.fact)) == INVALID <==> !Twice(c, j.fact)
  {
    var f, n := j.fact, SetCount(c.w, j.fact);
    hide Supported, Held;
    MaxConfIsLargest(s'.conf, f, n);
    if Twice(c, f) {
      var k := OtherOf(c, f, j.index);
      assert ConfOf(s'.conf, SetId(f, k)) > INVALID;
    }
    if MaxConf(s'.conf, f, n) != INVALID {
      var k :| 0 <= k < n && MaxConf(s'.conf, f, n) == ConfOf(s'.conf, SetId(f, k));
      assert k != j.index && Clean(c.w, c.now, c.conf, f, k);
      TwoAre(c, f, k, j.index);
    }
  }

  lemma TwoAre(c: Setting, f: FactId, i: nat, k: nat)
    requires i != k && i < SetCount(c.w, f) && k < SetCount(c.w, f)
    requires ConfOf(c.conf, SetId(f, i)) > INVALID && ConfOf(c.conf, SetId(f, k)) > INVALID
    ensures Twice(c, f)
  {
    if i < k {
    } else {
      assert k < i;
    }
  }

  lemma OtherOf(c: Setting, f: FactId, i: nat) returns (k: nat)
    requires Twice(c, f)
    ensures k != i && k < SetCount(c.w, f) && ConfOf(c.conf, SetId(f, k)) > INVALID
  {
    var a: nat, b: nat :| a < b < SetCount(c.w, f) && ConfOf(c.conf, SetId(f, a)) > INVALID &&
        ConfOf(c.conf, SetId(f, b)) > INVALID;
    k := if a == i then b else a;
  }

  // ---- Whole simulations ---------------------------------------------------------------------------------

  ghost predicate Simulated(c: Setting, t: Trace) {
    Simulation(c.w, c.sets, c.children, c.now, c.x, c.st, c.conf, t)
  }

  lemma StepOf(c: Setting, t: Trace, i: nat)
    requires Simulated(c, t) && i < |t.visits|
    ensures i + 1 < |t.states| && t.visits[i].cause in t.states[i].impacted
    ensures t.visits[i].set_ in Kids(c.children, t.visits[i].cause)
    ensures t.states[i + 1] == StepSim(c.w, c.sets, c.now, t.states[i], t.visits[i].set_)
  {
    assert IsStep(c.w, c.sets, c.children, c.now, t, i);
  }

  lemma {:induction false} AlwaysMidway(c: Setting, t: Trace, i: nat)
    requires Sound(c) && Simulated(c, t) && i < |t.states|
    ensures Midway(c, t.states[i])
  {
    hide Midway, Sound, StepSim, Kids;
    if i == 0 {
      MidwayStarts(c);
    } else {
      AlwaysMidway(c, t, i - 1);
      StepOf(c, t, i - 1);
      hide Simulated;
      var v := t.visits[i - 1];
      StepKills(c, t.states[i - 1], v.cause, v.set_);
      MidwayStep(c, t.states[i - 1], v.cause, v.set_, t.states[i]);
    }
  }

  /** A set once visited is worth nothing ever after. */
  lemma {:induction false} StaysWorthless(c: Setting, t: Trace, i: nat, k: nat)
    requires Sound(c) && Simulated(c, t) && i < k < |t.states|
    ensures t.visits[i].set_ in t.states[k].conf && t.states[k].conf[t.visits[i].set_] == INVALID
    decreases k
  {
    hide Midway, Sound, StepSim, Kids;
    AlwaysMidway(c, t, k - 1);
    StepOf(c, t, k - 1);
    if i < k - 1 { StaysWorthless(c, t, i, k - 1); }
    hide Simulated;
    var v := t.visits[k - 1];
    StepKills(c, t.states[k - 1], v.cause, v.set_);
    MidwayStep(c, t.states[k - 1], v.cause, v.set_, t.states[k]);
    hide MaxConf;
  }

  /** In the end exactly the worthy sets with a fallen parent have lost their worth. */
  lemma EndOfSimulation(c: Setting, t: Trace, j: SetId)
    requires Sound(c) && Simulated(c, t) && j in c.sets
    ensures j in c.conf && ConfOf(t.Last().conf, j) ==
              if exists p :: p in t.Last().impacted && c.sets[j].Mentions(p) then INVALID else c.conf[j]
  {
    assert t.states != [];
    hide Sound, Simulated, Midway, Kids;
    AlwaysMidway(c, t, |t.states| - 1);
    SetAtEnd(c, t.Last(), j);
    if p :| p in t.Last().impacted && c.sets[j].Mentions(p) {
      EndsWorthless(c, t, j, p);
    }
  }

  /** A set with a fallen parent was visited, so it is worth nothing in the end. */
  lemma EndsWorthless(c: Setting, t: Trace, j: SetId, p: FactId)
    requires Sound(c) && Simulated(c, t) && j in c.sets && t.states != [] && p in t.Last().impacted
    requires c.sets[j].Mentions(p)
    ensures j in t.Last().conf && t.Last().conf[j] == INVALID
  {
    hide *;
    MentionedIsKid(c, p, j);
    var i := VisitOf(c, t, p, j);
    StaysWorthless(c, t, i, |t.states| - 1);
    LastIs(t);
  }

  lemma LastIs(t: Trace)
    requires t.states != []
    ensures t.Last() == t.states[|t.states| - 1]
  {}

  lemma SetAtEnd(c: Setting, s: Sim, j: SetId)
    requires Midway(c, s) && j in c.sets
    ensures j in c.conf && j in s.conf
    ensures s.conf[j] == c.conf[j] || exists p :: p in s.impacted && c.sets[j].Mentions(p)
  {
    assert SetMid(c, s, j);
    hide FactMid;
  }

  lemma MentionedIsKid(c: Setting, p: FactId, j: SetId)
    requires Sound(c) && j in c.sets && c.sets[j].Mentions(p)
    ensures j in Kids(c.children, p)
  {
    hide Tame, TrueStart;
  }

  lemma VisitOf(c: Setting, t: Trace, p: FactId, j: SetId) returns (i: nat)
    requires Simulated(c, t) && p in t.Last().impacted && j in Kids(c.children, p)
    ensures i < |t.visits| && i + 1 < |t.states| && t.visits[i] == Visit(p, j)
  {
    hide IsStep;
    assert Covered(c.children, t.visits, p);
    assert Visit(p, j) in t.visits;
    i :| 0 <= i < |t.visits| && t.visits[i] == Visit(p, j);
  }

  // ---- The answer, as a fixed point ----------------------------------------------------------------------

  /** Set i of f has a parent among these facts. */
  ghost predicate Loses(w: World, f: FactId, i: int, lost: set<FactId>) {
    f in w.facts && exists r :: r in SetRefs(w.facts[f], i) && r.id in lost
  }

  /** Some set of f that was worth something has a parent among these facts, and so has every supported set of f. */
  ghost predicate LosesAll(w: World, now: int, f: FactId, lost: set<FactId>)
    requires Ranked(w)
  {
    f in w.facts && (exists i: nat :: i < SetCount(w, f) && Held(w, now, f, i) && Loses(w, f, i, lost)) &&
    forall i: nat | i < SetCount(w, f) && Supported(w, now, f, i) :: Loses(w, f, i, lost)
  }

  ghost predicate TwoHeld(w: World, now: int, f: FactId)
    requires Ranked(w)
  {
    exists i: nat, k: nat :: i < k < SetCount(w, f) && Held(w, now, f, i) && Held(w, now, f, k)
  }

  /** The reported facts explain themselves: x, and the facts below it that lose what supports them to reported ones,
      if they stood or had two sets worth something. */
  ghost predicate Explains(w: World, now: int, x: FactId, impacted: set<FactId>)
    requires Ranked(w)
  {
    forall f | f in w.facts :: f in impacted <==>
      f == x || (Below(w, x, f) && LosesAll(w, now, f, impacted) &&
                 (Truth(w, now, f) >= THRESHOLD || TwoHeld(w, now, f)))
  }

  lemma ResultExplains(c: Setting, t: Trace)
    requires Sound(c) && Simulated(c, t)
    ensures Explains(c.w, c.now, c.x, t.Last().impacted)
  {
    AlwaysMidway(c, t, |t.states| - 1);
    hide Below, Supported, Held, Simulated, LosesAll, TwoHeld, Fallen, Truth;
    forall f | f in c.w.facts ensures f in t.Last().impacted <==>
      f == c.x || (Below(c.w, c.x, f) && LosesAll(c.w, c.now, f, t.Last().impacted) &&
                   (Truth(c.w, c.now, f) >= THRESHOLD || TwoHeld(c.w, c.now, f)))
    {
      if f != c.x {
        assert FactMid(c, t.Last(), f);
        hide Midway, Sound;
        FallenMeans(c, t, f);
      }
    }
  }

  lemma FallenMeans(c: Setting, t: Trace, f: FactId)
    requires Sound(c) && Simulated(c, t) && f in c.w.facts
    ensures Ranked(c.w)
    ensures Fallen(c, t.Last().conf, f) <==>
      Below(c.w, c.x, f) && LosesAll(c.w, c.now, f, t.Last().impacted) &&
      (Truth(c.w, c.now, f) >= THRESHOLD || TwoHeld(c.w, c.now, f))
  {
    if Below(c.w, c.x, f) {
      var conf, lost, n := t.Last().conf, t.Last().impacted, SetCount(c.w, f);
      StartOf(c, f);
      StoodMeans(c, f);
      forall i: nat | i < n ensures Ending(c, conf, lost, f, i) {
        assert IsSetId(c.w, SetId(f, i));
        EndOfSet(c, t, f, i);
      }
      hide Sound, Simulated, Below, Ending, Clean, Loses, Stood, Truth;
      TwiceMeans(c, f);
      FallenByEndings(c, conf, lost, f);
    }
  }

  lemma StoodMeans(c: Setting, f: FactId)
    requires Ranked(c.w) && TrueStart(c.w, c.sets, c.now, c.st, c.conf) && f in c.w.facts
    requires c.st[f] == if Stood(c, f) then MaxConf(c.conf, f, SetCount(c.w, f)) else INVALID
    ensures Stood(c, f) <==> Truth(c.w, c.now, f) >= THRESHOLD
  {
    hide Truth, Ranked, EvalSet;
  }

  /** How set i of f ends up. */
  ghost predicate Ending(c: Setting, conf: Confs, lost: set<FactId>, f: FactId, i: nat) {
    ConfOf(conf, SetId(f, i)) == if Loses(c.w, f, i, lost) then INVALID else ConfOf(c.conf, SetId(f, i))
  }

  lemma EndOfSet(c: Setting, t: Trace, f: FactId, i: nat)
    requires Sound(c) && Simulated(c, t) && SetId(f, i) in c.sets
    ensures Ending(c, t.Last().conf, t.Last().impacted, f, i)
  {
    var j := SetId(f, i);
    EndOfSimulation(c, t, j);
    hide Simulated;
    SetParents(c.w, c.sets, c.children, j);
    hide Sound;
    assert (exists p :: p in t.Last().impacted && c.sets[j].Mentions(p)) <==> Loses(c.w, f, i, t.Last().impacted);
  }

  lemma SetParents(w: World, sets: Sets, children: Children, j: SetId)
    requires Shape(w, sets, children) && j in sets
    ensures j.fact in w.facts
    ensures forall p :: sets[j].Mentions(p) <==> exists r :: r in SetRefs(w.facts[j.fact], j.index) && r.id == p
  {
    assert IsSetId(w, j) && SetShape(w.facts[j.fact], j, sets[j]);
    RefMembers(sets[j]);
  }

  lemma TwiceMeans(c: Setting, f: FactId)
    requires Ranked(c.w) && forall i: nat | i < SetCount(c.w, f) :: Clean(c.w, c.now, c.conf, f, i)
    ensures Twice(c, f) <==> TwoHeld(c.w, c.now, f)
  {
    hide Supported, Held;
    if Twice(c, f) {
      var i: nat, k: nat :| i < k < SetCount(c.w, f) && ConfOf(c.conf, SetId(f, i)) > INVALID &&
          ConfOf(c.conf, SetId(f, k)) > INVALID;
      assert Clean(c.w, c.now, c.conf, f, i) && Clean(c.w, c.now, c.conf, f, k);
    }
    if TwoHeld(c.w, c.now, f) {
      var i: nat, k: nat :| i < k < SetCount(c.w, f) && Held(c.w, c.now, f, i) && Held(c.w, c.now, f, k);
      assert Clean(c.w, c.now, c.conf, f, i) && Clean(c.w, c.now, c.conf, f, k);
    }
  }

  lemma FallenByEndings(c: Setting, conf: Confs, lost: set<FactId>, f: FactId)
    requires Ranked(c.w) && Below(c.w, c.x, f) && f in c.w.facts
    requires forall i: nat | i < SetCount(c.w, f) :: Clean(c.w, c.now, c.conf, f, i) && Ending(c, conf, lost, f, i)
    ensures Touched(c, conf, f) && MaxConf(conf, f, SetCount(c.w, f)) < THRESHOLD <==> LosesAll(c.w, c.now, f, lost)
  {
    var n := SetCount(c.w, f);
    hide Below, Supported, Held, Loses;
    MaxConfIsLargest(conf, f, n);
    if LosesAll(c.w, c.now, f, lost) {
      var i: nat :| i < n && Held(c.w, c.now, f, i) && Loses(c.w, f, i, lost);
      assert Clean(c.w, c.now, c.conf, f, i) && Ending(c, conf, lost, f, i) && Changed(c.conf, conf, f, i);
      forall k: nat | k < n ensures ConfOf(conf, SetId(f, k)) < THRESHOLD {
        assert Clean(c.w, c.now, c.conf, f, k) && Ending(c, conf, lost, f, k);
      }
    }
    if Touched(c, conf, f) && MaxConf(conf, f, n) < THRESHOLD {
      var i :| i < n && Changed(c.conf, conf, f, i);
      assert Clean(c.w, c.now, c.conf, f, i) && Ending(c, conf, lost, f, i);
      forall k: nat | k < n && Supported(c.w, c.now, f, k) ensures Loses(c.w, f, k, lost) {
        assert Clean(c.w, c.now, c.conf, f, k) && Ending(c, conf, lost, f, k);
        assert ConfOf(conf, SetId(f, k)) < THRESHOLD;
      }
    }
  }

  // ---- Retracting for real -------------------------------------------------------------------------------

  /** The world after x is retracted. */
  ghost predicate Without(w: World, w': World, x: FactId) {
    w'.facts == w.facts && w'.rank == w.rank && w'.retracted.Keys == w.retracted.Keys + {x}
  }

  lemma UnrelatedIsUnmoved(w: World, w': World, now: int, x: FactId, f: FactId)
    requires Ranked(w) && Ranked(w') && Without(w, w', x) && x in w.facts && f in w.facts && f != x && !Below(w, x, f)
    ensures Truth(w', now, f) == Truth(w, now, f)
  {
    assert f in w'.retracted <==> f in w.retracted;
    if !w.facts[f].isRoot {
      hide Truth, Ranked;
      assert forall g | g in w.facts && g != x ::
        w'.facts[g] == w.facts[g] && (g in w.retracted <==> g in w'.retracted);
      assert SameExceptAt(w, w', x);
      Closure.MutationIsLocal(w, w', x, now, f);
    }
  }

  lemma StillQuiet(w: World, w': World, x: FactId, now: int)
    requires Quiet(w, now) && Without(w, w', x)
    ensures Quiet(w', now)
  {}

  /** A fact that is not reported unless it depends on x. */
  lemma ReportedDepends(w: World, now: int, x: FactId, impacted: set<FactId>, f: FactId)
    requires Ranked(w) && x in w.facts && Explains(w, now, x, impacted) && f in w.facts && f !in Dependents(w.facts, x)
    ensures f !in impacted && f != x && !Below(w, x, f)
  {
    ReachesSelf(Cycles.DependencyEdges(w.facts), x);
    hide Reaches, LosesAll, Truth, TwoHeld, Ranked;
  }

  /** A dependency of a fact below x is met after the retraction when it was met and its parent is not reported. */
  lemma MeetsAfter(w: World, w': World, now: int, x: FactId, impacted: set<FactId>, f: FactId, i: nat, r: DepRef)
    requires Ranked(w) && Ranked(w') && Tame(w, x, now) && Without(w, w', x) && Explains(w, now, x, impacted)
    requires Below(w, x, f) && r in SetRefs(w.facts[f], i) && r.id in w.facts
    requires Truth(w', now, r.id) >= THRESHOLD <==> Truth(w, now, r.id) >= THRESHOLD && r.id !in impacted
    ensures Meets(w', now, f, r) <==> Meets(w, now, f, r) && r.id !in impacted
  {
    if r.negated {
      assert Aligned(w, x, f);
      hide Truth, Explains, Dependents, Quiet, Ranked, Below;
      ReportedDepends(w, now, x, impacted, r.id);
      UnrelatedIsUnmoved(w, w', now, x, r.id);
    } else {
      hide Truth, Explains, Dependents, Quiet, Ranked, Below;
    }
  }

  /** A set of facts that explains itself is exactly what retraction brings down. */
  lemma {:induction false} FixedPointIsRetraction(w: World, w': World, now: int, x: FactId,
                                                  impacted: set<FactId>, f: FactId)
    requires Ranked(w) && Ranked(w') && Tame(w, x, now) && Without(w, w', x) && Explains(w, now, x, impacted)
    requires f in w.facts
    ensures Truth(w', now, f) >= THRESHOLD <==> Truth(w, now, f) >= THRESHOLD && f !in impacted
    decreases w.rank[f]
  {
    if f in w'.retracted {
      RetractedIsDown(w', now, f);
      if f != x { RetractedIsDown(w, now, f); }
    } else if !Below(w, x, f) {
      hide Truth, Tame, Below;
      UnrelatedIsUnmoved(w, w', now, x, f);
    } else {
      forall i: nat | i < SetCount(w, f)
        ensures Supported(w', now, f, i) <==> Supported(w, now, f, i) && !Loses(w, f, i, impacted)
      {
        hide Tame, Explains, Below, Truth, Meets;
        forall r | r in SetRefs(w.facts[f], i)
          ensures r.id in w.facts && (Meets(w', now, f, r) <==> Meets(w, now, f, r) && r.id !in impacted)
        {
          FixedPointIsRetraction(w, w', now, x, impacted, r.id);
          MeetsAfter(w, w', now, x, impacted, f, i, r);
        }
        hide Ranked;
      }
      hide Below, Supported, Loses, Truth, Ranked, Tame, Held;
      StillQuiet(w, w', x, now);
      TruthByDerivation(w, now, f);
      TruthByDerivation(w', now, f);
      SupportsHold(w, now, f);
    }
  }

  lemma SupportsHold(w: World, now: int, f: FactId)
    requires Ranked(w)
    ensures forall i: nat :: Supported(w, now, f, i) ==> Held(w, now, f, i)
  {
    forall i: nat ensures Supported(w, now, f, i) ==> Held(w, now, f, i) {
      SupportedIsHeld(w, now, f, i);
    }
  }

  /** x and the facts that retracting it brings below the threshold. */
  ghost function Down(w: World, w': World, now: int, x: FactId): set<FactId>
    requires Ranked(w) && Ranked(w') && w'.facts == w.facts
  {
    set f | f in w.facts && (f == x || (Truth(w, now, f) >= THRESHOLD && Truth(w', now, f) < THRESHOLD))
  }

  /** A fact that did not stand, had two sets worth something, and loses one of them and whatever supports it: the
      simulation reports it although it was Invalid before. */
  ghost predicate Spurious(w: World, w': World, now: int, x: FactId, f: FactId)
    requires Ranked(w) && Ranked(w') && w'.facts == w.facts
  {
    Below(w, x, f) && Truth(w, now, f) < THRESHOLD && TwoHeld(w, now, f) && LosesAll(w, now, f, Down(w, w', now, x))
  }

  /** What the simulation reports, in full: what falls, and the spurious facts. */
  lemma ImpactIs(w: World, w': World, now: int, x: FactId, impacted: set<FactId>, f: FactId)
    requires Ranked(w) && Ranked(w') && Tame(w, x, now) && Without(w, w', x) && Explains(w, now, x, impacted)
    requires f in w.facts
    ensures f in impacted <==> f in Down(w, w', now, x) || Spurious(w, w', now, x, f)
    ensures Spurious(w, w', now, x, f) ==> f !in Down(w, w', now, x)
  {
    FixedPointIsRetraction(w, w', now, x, impacted, f);
    if f != x && Below(w, x, f) {
      LosesAlike(w, w', now, x, impacted, f);
    }
    hide Truth, Tame, Ranked, LosesAll, TwoHeld;
    assert Below(w, x, f) ==> f != x by {}
  }

  /** What is worth something loses a parent to the reported facts exactly when it loses one to those that fall. */
  lemma LosesAlike(w: World, w': World, now: int, x: FactId, impacted: set<FactId>, f: FactId)
    requires Ranked(w) && Ranked(w') && Tame(w, x, now) && Without(w, w', x) && Explains(w, now, x, impacted)
    requires Below(w, x, f)
    ensures LosesAll(w, now, f, impacted) <==> LosesAll(w, now, f, Down(w, w', now, x))
  {
    SupportsHold(w, now, f);
    hide Truth, Tame, Ranked, Explains, Down, Below, Supported, Held, Loses;
    forall i: nat | Held(w, now, f, i) ensures Loses(w, f, i, impacted) <==> Loses(w, f, i, Down(w, w', now, x)) {
      HeldLosesAlike(w, w', now, x, impacted, f, i);
    }
  }

  lemma HeldLosesAlike(w: World, w': World, now: int, x: FactId, impacted: set<FactId>, f: FactId, i: nat)
    requires Ranked(w) && Ranked(w') && Tame(w, x, now) && Without(w, w', x) && Explains(w, now, x, impacted)
    requires Below(w, x, f) && Held(w, now, f, i)
    ensures Loses(w, f, i, impacted) <==> Loses(w, f, i, Down(w, w', now, x))
  {
    forall r | r in SetRefs(w.facts[f], i) ensures r.id in impacted <==> r.id in Down(w, w', now, x) {
      assert HoldsTruly(w, now, f, r) && Aligned(w, x, f);
      hide Truth, Tame, Ranked, Explains, Dependents, Below, SetRefs;
      if r.negated {
        ReportedDepends(w, now, x, impacted, r.id);
        UnrelatedIsUnmoved(w, w', now, x, r.id);
      } else {
        FixedPointIsRetraction(w, w', now, x, impacted, r.id);
        XIsReported(w, now, x, impacted);
      }
    }
  }

  lemma XIsReported(w: World, now: int, x: FactId, impacted: set<FactId>)
    requires Ranked(w) && x in w.facts && Explains(w, now, x, impacted)
    ensures x in impacted
  {
    hide Below, LosesAll, TwoHeld, Truth, Ranked;
  }

  /** The simulation is exact precisely when there is no spurious fact. */
  lemma ImpactIsExactly(w: World, w': World, now: int, x: FactId, impacted: set<FactId>)
    requires Ranked(w) && Ranked(w') && Tame(w, x, now) && Without(w, w', x) && Explains(w, now, x, impacted)
    ensures (forall f | f in w.facts :: f in impacted <==> f in Down(w, w', now, x)) <==>
            (forall f :: !Spurious(w, w', now, x, f))
  {
    forall f | f in w.facts
      ensures f in impacted <==> f in Down(w, w', now, x) || Spurious(w, w', now, x, f)
      ensures Spurious(w, w', now, x, f) ==> f !in Down(w, w', now, x)
    {
      hide Tame, Ranked, Explains, Down, Spurious;
      ImpactIs(w, w', now, x, impacted, f);
    }
    assert forall f :: Spurious(w, w', now, x, f) ==> f in w.facts;
    hide Spurious, Down, Tame, Ranked, Explains;
  }

  // ---- The report ----------------------------------------------------------------------------------------

  /** Whatever the situation, only facts that depend on x are reported. */
  lemma {:induction false} RunIsDownstream(w: World, sets: Sets, children: Children, now: int, x: FactId,
                                           st: map<FactId, Status>, conf: Confs, t: Trace, i: nat)
    requires Ranked(w) && Shape(w, sets, children) && x in w.facts && Simulation(w, sets, children, now, x, st, conf, t)
    requires i < |t.states|
    ensures t.states[i].impacted <= Dependents(w.facts, x)
  {
    hide Ranked, Shape, StepSim, Kids, Dependents;
    DependentsAreZone(w, sets, children, x);
    if i > 0 {
      RunIsDownstream(w, sets, children, now, x, st, conf, t, i - 1);
      assert IsStep(w, sets, children, now, t, i - 1);
      StepAddsOwn(w, sets, now, t.states[i - 1], t.visits[i - 1].set_);
    }
  }

  lemma StepAddsOwn(w: World, sets: Sets, now: int, s: Sim, j: SetId)
    ensures StepSim(w, sets, now, s, j).impacted <= s.impacted + {j.fact}
  {
    hide SetValue, MaxConf;
  }

  /** The facts that would fall if x were retracted. While nothing below x negates anything that depends on x, the
      answer explains itself. */
  method GetImpact(e: Engine, x: FactId, now: int) returns (r: Result<set<FactId>, string>, ghost t: Trace)
    requires e.Consistent() && e.clock <= now
    ensures r.Failure? <==> x !in e.facts
    ensures r.Success? ==>
      x in r.value && r.value <= Dependents(e.facts, x) && t.states != [] && r.value == t.Last().impacted
    ensures r.Success? ==>
      Simulation(e.W(), e.sets, e.children, now, x, Readings(e.W(), e.derived, now), StoredConfidences(e), t)
    ensures r.Success? && Tame(e.W(), x, now) ==> Explains(e.W(), now, x, r.value)
  {
    t := Trace([], []);
    if x !in e.facts {
      return Failure("fact not found"), t;
    }
    hide *;
    BuiltParts(e, now);
    var st, conf := InitSimulation(e, now);
    SameDomains(e, now, st, conf);
    var impacted;
    impacted, t := SimulateInvalidation(e, x, st, conf, now);
    TraceIsLong(e.W(), e.sets, e.children, now, x, st, conf, t);
    RunIsDownstream(e.W(), e.sets, e.children, now, x, st, conf, t, |t.states| - 1);
    if Tame(e.W(), x, now) {
      TameStart(e, x, now, st, conf);
      var c := Setting(e.W(), e.sets, e.children, now, x, st, conf);
      ResultExplains(c, t);
    }
    r := Success(impacted);
  }

  ghost function StoredConfidences(e: Engine): Confs
    reads e
  {
    map j | j in e.sets :: e.sets[j].confidence
  }

  lemma TraceIsLong(w: World, sets: Sets, children: Children, now: int, x: FactId, st: map<FactId, Status>, conf: Confs,
                    t: Trace)
    requires Simulation(w, sets, children, now, x, st, conf, t)
    ensures t.states != []
  {}

  lemma TameStart(e: Engine, x: FactId, now: int, st: map<FactId, Status>, conf: Confs)
    requires e.Consistent() && e.clock <= now && Tame(e.W(), x, now)
    requires st == Readings(e.W(), e.derived, now) && conf == map j | j in e.sets :: e.sets[j].confidence
    ensures Sound(Setting(e.W(), e.sets, e.children, now, x, st, conf))
  {
    BuiltParts(e, now);
    hide Ranked, Shape, Settled, ReadBy, TrueStart, Readings, Below, Aligned;
    StartIsTrue(e.W(), e.derived, e.sets, e.children, e.stamp, now);
  }

  lemma SameDomains(e: Engine, now: int, st: map<FactId, Status>, conf: Confs)
    requires e.derived.Keys == e.facts.Keys && st == Readings(e.W(), e.derived, now)
    requires conf == map j | j in e.sets :: e.sets[j].confidence
    ensures st.Keys == e.facts.Keys && conf.Keys == e.sets.Keys && conf == StoredConfidences(e)
    ensures e.W().facts == e.facts
  {}

  lemma BuiltParts(e: Engine, now: int)
    requires e.Consistent() && e.clock <= now
    ensures Ranked(e.W()) && Shape(e.W(), e.sets, e.children) && Coherent(e.W(), e.derived, e.sets, e.stamp)
    ensures e.derived.Keys == e.facts.Keys && ReadBy(e.W(), e.stamp, now) && e.W().facts == e.facts
  {
    StampsAreRead(e.W(), e.derived, e.sets, e.children, e.stamp, e.clock, e.collapsed, now);
  }

  /** Asks first, then retracts: what was announced is what falls, and the spurious facts. */
  method WhatIfThenRetract(e: Engine, x: FactId, now: int) returns (impacted: set<FactId>, ghost w': World)
    requires e.Valid() && e.clock <= now && Tame(e.W(), x, now)
    modifies e
    ensures e.Valid() && x in e.retracted && w' == e.W() && Ranked(w') && Ranked(old(e.W()))
    ensures w'.facts == old(e.W()).facts
    ensures forall f | f in e.facts :: f in old(e.derived) && f in e.derived &&
              (f in impacted <==> (f == x || (old(e.derived)[f] >= THRESHOLD && e.derived[f] < THRESHOLD) ||
                                   Spurious(old(e.W()), w', now, x, f)))
  {
    hide *;
    ghost var w, derived := e.W(), e.derived;
    TameParts(e, x, now);
    ExactEverywhere(e, now);
    var r;
    ghost var t;
    r, t := GetImpact(e, x, now);
    impacted := r.value;
    var _ := e.RetractFact(x, "retracted", now);
    w' := e.W();
    RetractedWorld(e, w, x, now);
    ExactEverywhere(e, now);
    forall f | f in e.facts ensures f in derived && f in e.derived &&
      (f in impacted <==> f == x || (derived[f] >= THRESHOLD && e.derived[f] < THRESHOLD) || Spurious(w, w', now, x, f))
    {
      ImpactIs(w, w', now, x, impacted, f);
      DownMeans(w, w', now, x, f);
    }
  }

  lemma TameParts(e: Engine, x: FactId, now: int)
    requires e.Valid() && Tame(e.W(), x, now)
    ensures e.Consistent() && Quiet(e.W(), now) && Ranked(e.W()) && x in e.facts && e.W().facts == e.facts
    ensures e.W().retracted == e.retracted
    ensures e.W() == World(e.facts, e.retracted, e.rank)
  {}

  lemma RetractedWorld(e: Engine, w: World, x: FactId, now: int)
    requires e.Valid() && Quiet(w, now) && w == World(e.facts, w.retracted, e.rank)
    requires e.retracted == w.retracted[x := "retracted"]
    ensures e.Consistent() && Without(w, e.W(), x) && Quiet(e.W(), now) && Ranked(e.W()) && x in e.retracted
    ensures e.W().facts == e.facts
  {
    assert Without(w, e.W(), x) by { hide Engine.Valid, Quiet; }
    ValidIsRanked(e);
    hide Ranked, Engine.Valid, Engine.Consistent, Engine.W;
    StillQuiet(w, e.W(), x, now);
  }

  lemma ValidIsRanked(e: Engine)
    requires e.Valid()
    ensures e.Consistent() && Ranked(e.W()) && e.W().facts == e.facts
  {}

  lemma DownMeans(w: World, w': World, now: int, x: FactId, f: FactId)
    requires Ranked(w) && Ranked(w') && w'.facts == w.facts && f in w.facts
    ensures f in Down(w, w', now, x) <==> f == x || (Truth(w, now, f) >= THRESHOLD && Truth(w', now, f) < THRESHOLD)
  {
    hide Truth, Ranked;
  }
}
