/** The equations that the statuses of an engine solve, in terms of the facts as written: no parsing, no cache, no
    evaluation. They say what a graded confidence is worth, and they have one solution. */
module Beliefs {
  import opened Facts
  import opened Semantics
  import opened Derivations
  import opened Cache
  import opened Engines
  import opened Exactness
  import opened Digraph
  import Cycles

  type Belief = map<FactId, Status>

  /** A token denies what follows its mark. */
  ghost predicate Denies(token: string) {
    token != "" && token[0] == '!'
  }

  ghost function About(token: string): FactId {
    if Denies(token) then token[1..] else token
  }

  /** What the child asks of a fact it builds on. */
  ghost predicate Admits(child: Fact, parent: Fact, now: int) {
    (child.kind in {Empirical, Uncertain} ==> parent.kind !in {Hypothetical, Fictional}) &&
    (|child.grounding.allowedSourceTypes| > 0 ==>
       exists k :: 0 <= k < |child.grounding.allowedSourceTypes| &&
                   SameButCase(child.grounding.allowedSourceTypes[k], parent.sourceType)) &&
    (child.grounding.requireVerified ==> parent.verification.status == Verified) &&
    (child.grounding.maxAgeSeconds <= 0 || parent.assertedAt <= 0 ||
     now <= parent.assertedAt + 1000 * child.grounding.maxAgeSeconds)
  }

  /** What is seen of a fact at time now. */
  ghost function Seen(facts: map<FactId, Fact>, retracted: map<FactId, string>, st: Belief, p: FactId,
                      now: int): Status {
    if p !in facts || p !in st || p in retracted || 0 < facts[p].validUntil < now then 0.0
    else if facts[p].isRoot then facts[p].manual
    else st[p]
  }

  /** What a token brings to a set of the child: the status of the fact it builds on, or what its absence is worth;
      nothing when it does not count. */
  ghost function Worth(facts: map<FactId, Fact>, retracted: map<FactId, string>, st: Belief, child: Fact, token: string,
                       now: int): Status
  {
    var p := About(token);
    var seen := Seen(facts, retracted, st, p, now);
    if Denies(token) then
      if seen <= 0.0 then 1.0 else if seen < 0.6 then 1.0 - seen else 0.0
    else if p in facts && Admits(child, facts[p], now) && seen >= 0.6 then seen
    else 0.0
  }

  /** v is the least a token of the set brings, and at most full confidence. */
  ghost predicate IsWeakest(facts: map<FactId, Fact>, retracted: map<FactId, string>, st: Belief, child: Fact, i: nat,
                            now: int, v: Status)
    requires i < |child.tokens|
  {
    v <= 1.0 && (forall t | t in child.tokens[i] :: v <= Worth(facts, retracted, st, child, t, now)) &&
    (v == 1.0 || exists t :: t in child.tokens[i] && v == Worth(facts, retracted, st, child, t, now))
  }

  /** The status of f is what was said of it, or the best of its sets that come to 0.6 or more. */
  ghost predicate Explained(facts: map<FactId, Fact>, retracted: map<FactId, string>, at: map<SetId, int>, st: Belief,
                            f: FactId)
    requires f in facts && f in st
  {
    if f in retracted then st[f] == 0.0
    else if facts[f].isRoot then st[f] == facts[f].manual
    else
      (st[f] == 0.0 || (st[f] >= 0.6 && exists i: nat ::
         i < |facts[f].tokens| && IsWeakest(facts, retracted, st, facts[f], i, ReadAt(at, SetId(f, i)), st[f]))) &&
      forall i: nat, v | i < |facts[f].tokens| && v >= 0.6 &&
        IsWeakest(facts, retracted, st, facts[f], i, ReadAt(at, SetId(f, i)), v) :: v <= st[f]
  }

  /** Every status follows from the others, when set j was last read at time at[j]. */
  ghost predicate Solves(facts: map<FactId, Fact>, retracted: map<FactId, string>, at: map<SetId, int>, st: Belief) {
    st.Keys == facts.Keys && forall f | f in facts :: Explained(facts, retracted, at, st, f)
  }

  // ---- Evaluation solves the equations -------------------------------------------------------------------

  lemma SourcesAdmitted(sourceType: string, allowed: seq<string>)
    ensures SourceAllowed(sourceType, allowed) <==>
            |allowed| == 0 || exists k :: 0 <= k < |allowed| && SameButCase(allowed[k], sourceType)
  {
    hide SameButCase;
    if SourceAllowed(sourceType, allowed) && |allowed| > 0 {
      var candidate :| candidate in allowed && SameButCase(candidate, sourceType);
      var k :| 0 <= k < |allowed| && allowed[k] == candidate;
      assert SameButCase(allowed[k], sourceType);
    }
  }

  lemma AdmittedExactly(parent: Fact, child: Fact, now: int)
    ensures Admits(child, parent, now) <==> ScopeSatisfied(parent.kind, child.kind) && Grounded(parent, child, now)
  {
    SourcesAdmitted(parent.sourceType, child.grounding.allowedSourceTypes);
    hide SourceAllowed, SameButCase;
  }

  lemma ParsedTokens(tokens: seq<string>, t: string)
    requires AllParse(tokens) && t in tokens
    ensures DepRef(About(t), Denies(t)) in Parsed(tokens)
  {
    var k :| 0 <= k < |tokens| && tokens[k] == t;
    assert Parsed(tokens)[k] == DepRef(About(t), Denies(t));
  }

  lemma ParsedFrom(tokens: seq<string>, r: DepRef)
    requires AllParse(tokens) && r in Parsed(tokens)
    ensures exists t :: t in tokens && r == DepRef(About(t), Denies(t))
  {
    var k :| 0 <= k < |tokens| && Parsed(tokens)[k] == r;
    assert tokens[k] in tokens;
  }

  /** What a token brings is what its dependency contributes, if the dependency holds. */
  lemma WorthOfToken(w: World, st: Belief, below: map<FactId, Status>, child: FactId, t: string, now: int)
    requires child in w.facts && About(t) in w.facts && About(t) in st && About(t) in below
    requires below[About(t)] == Read(w, About(t), st[About(t)], now)
    ensures var r, worth := DepRef(About(t), Denies(t)), Worth(w.facts, w.retracted, st, w.facts[child], t, now);
      worth == (if Holds(w, below, now, child, r) then Contribution(w, below, r) else 0.0) && worth >= 0.0
  {
    AdmittedExactly(w.facts[About(t)], w.facts[child], now);
    hide Admits, ScopeSatisfied, Grounded;
  }

  /** A conjunction is worth what its weakest token brings. */
  lemma ValueIsWeakest(w: World, st: Belief, below: map<FactId, Status>, child: FactId, i: nat, now: int)
    requires child in w.facts && i < |w.facts[child].tokens| && AllParse(w.facts[child].tokens[i])
    requires forall t | t in w.facts[child].tokens[i] ::
               About(t) in w.facts && About(t) in st && About(t) in below &&
               below[About(t)] == Read(w, About(t), st[About(t)], now)
    ensures IsWeakest(w.facts, w.retracted, st, w.facts[child], i, now,
                      SetValue(w, below, now, child, SetRefs(w.facts[child], i)))
  {
    var tokens, refs := w.facts[child].tokens[i], SetRefs(w.facts[child], i);
    var v := SetValue(w, below, now, child, refs);
    FloorIsLeast(w, below, refs, |refs|);
    WorthOfSet(w, below, now, child, refs);
    hide Worth, Holds, Contribution, Parsed, AllParse, ParseDependencyRef, Read, About, Denies;
    forall t | t in tokens ensures v <= Worth(w.facts, w.retracted, st, w.facts[child], t, now) {
      ParsedTokens(tokens, t);
      WorthOfToken(w, st, below, child, t, now);
      var k :| 0 <= k < |refs| && refs[k] == DepRef(About(t), Denies(t));
    }
    if AllHold(w, below, now, child, refs) {
      if v != 1.0 {
        var k :| 0 <= k < |refs| && v == Contribution(w, below, refs[k]);
        WeakestToken(w, st, below, child, i, now, refs[k]);
      }
    } else {
      var r :| r in refs && !Holds(w, below, now, child, r);
      WeakestToken(w, st, below, child, i, now, r);
    }
  }

  lemma WeakestToken(w: World, st: Belief, below: map<FactId, Status>, child: FactId, i: nat, now: int, r: DepRef)
    requires child in w.facts && i < |w.facts[child].tokens| && AllParse(w.facts[child].tokens[i])
    requires forall t | t in w.facts[child].tokens[i] ::
               About(t) in w.facts && About(t) in st && About(t) in below &&
               below[About(t)] == Read(w, About(t), st[About(t)], now)
    requires r in SetRefs(w.facts[child], i)
    ensures var worth := if Holds(w, below, now, child, r) then Contribution(w, below, r) else 0.0;
      exists t :: t in w.facts[child].tokens[i] && Worth(w.facts, w.retracted, st, w.facts[child], t, now) == worth
  {
    ParsedFrom(w.facts[child].tokens[i], r);
    hide Worth, Holds, Contribution, Parsed, AllParse, ParseDependencyRef, Read, About, Denies;
    var t :| t in w.facts[child].tokens[i] && r == DepRef(About(t), Denies(t));
    WorthOfToken(w, st, below, child, t, now);
  }

  lemma WeakestIsOne(facts: map<FactId, Fact>, retracted: map<FactId, string>, st: Belief, child: Fact, i: nat,
                     now: int, u: Status, v: Status)
    requires i < |child.tokens|
    requires IsWeakest(facts, retracted, st, child, i, now, u) && IsWeakest(facts, retracted, st, child, i, now, v)
    ensures u == v
  {
    hide Worth;
  }

  ghost function Evaluation(w: World, at: map<SetId, int>): Belief
    requires Ranked(w)
  {
    map f | f in w.facts :: Eval(w, at, f)
  }

  /** The evaluated confidence of a set is its weakest token's. */
  lemma EvaluatedSet(w: World, at: map<SetId, int>, f: FactId, i: nat)
    requires Ranked(w) && f in w.facts && i < |w.facts[f].tokens|
    ensures IsWeakest(w.facts, w.retracted, Evaluation(w, at), w.facts[f], i, ReadAt(at, SetId(f, i)),
                      EvalSet(w, at, SetId(f, i)))
  {
    var now := ReadAt(at, SetId(f, i));
    var below := Below(w, at, f, now);
    var tokens := w.facts[f].tokens[i];
    assert TokensParse(w.facts[f]);
    forall t | t in tokens ensures About(t) in w.facts && About(t) in below &&
      below[About(t)] == Read(w, About(t), Evaluation(w, at)[About(t)], now)
    {
      ParsedTokens(tokens, t);
      assert DepRef(About(t), Denies(t)) in SetRefs(w.facts[f], i);
      BelowReads(w, at, f, About(t), now);
    }
    ValueIsWeakest(w, Evaluation(w, at), below, f, i, now);
  }

  lemma BestExplains(w: World, at: map<SetId, int>, st: Belief, f: FactId, confs: seq<Status>)
    requires f in w.facts && f in st && |confs| == |w.facts[f].tokens| && st[f] == Resolve(w, f, confs)
    requires forall i: nat | i < |confs| ::
               IsWeakest(w.facts, w.retracted, st, w.facts[f], i, ReadAt(at, SetId(f, i)), confs[i])
    ensures Explained(w.facts, w.retracted, at, st, f)
  {
    BestIsLargest(confs, |confs|);
    hide IsWeakest, Best;
    forall i: nat, v | i < |confs| && IsWeakest(w.facts, w.retracted, st, w.facts[f], i, ReadAt(at, SetId(f, i)), v)
      ensures v == confs[i]
    {
      WeakestIsOne(w.facts, w.retracted, st, w.facts[f], i, ReadAt(at, SetId(f, i)), v, confs[i]);
    }
  }

  /** From-scratch evaluation solves the equations. */
  lemma EvaluationSolves(w: World, at: map<SetId, int>)
    requires Ranked(w)
    ensures Solves(w.facts, w.retracted, at, Evaluation(w, at))
  {
    hide Ranked, IsWeakest, EvalSet, ReadAt;
    forall f | f in w.facts ensures Explained(w.facts, w.retracted, at, Evaluation(w, at), f) {
      var confs := Confidences(w, at, f);
      forall i: nat | i < |confs|
        ensures IsWeakest(w.facts, w.retracted, Evaluation(w, at), w.facts[f], i, ReadAt(at, SetId(f, i)), confs[i])
      {
        EvaluatedSet(w, at, f, i);
      }
      hide Explained, Confidences;
      BestExplains(w, at, Evaluation(w, at), f, confs);
    }
  }

  // ---- One solution --------------------------------------------------------------------------------------

  lemma SameWorths(w: World, a: Belief, b: Belief, child: Fact, i: nat, now: int, v: Status)
    requires i < |child.tokens|
    requires forall t | t in child.tokens[i] ::
               Worth(w.facts, w.retracted, a, child, t, now) == Worth(w.facts, w.retracted, b, child, t, now)
    ensures IsWeakest(w.facts, w.retracted, a, child, i, now, v) <==>
            IsWeakest(w.facts, w.retracted, b, child, i, now, v)
  {
    hide Worth;
  }

  lemma SameExplanation(w: World, at: map<SetId, int>, a: Belief, b: Belief, f: FactId)
    requires f in w.facts && f in a && f in b
    requires Explained(w.facts, w.retracted, at, a, f) && Explained(w.facts, w.retracted, at, b, f)
    requires forall i: nat, v | i < |w.facts[f].tokens| && !w.facts[f].isRoot ::
               IsWeakest(w.facts, w.retracted, a, w.facts[f], i, ReadAt(at, SetId(f, i)), v) <==>
               IsWeakest(w.facts, w.retracted, b, w.facts[f], i, ReadAt(at, SetId(f, i)), v)
    ensures a[f] == b[f]
  {
    hide IsWeakest;
  }

  lemma TokenBelow(w: World, f: FactId, i: nat, t: string)
    requires Ranked(w) && f in w.facts && i < |w.facts[f].tokens| && t in w.facts[f].tokens[i]
    ensures About(t) in w.facts && w.rank[About(t)] < w.rank[f]
    ensures DepRef(About(t), Denies(t)) in SetRefs(w.facts[f], i)
  {
    ParsedTokens(w.facts[f].tokens[i], t);
    assert DepRef(About(t), Denies(t)) in SetRefs(w.facts[f], i);
  }

  /** The equations have one solution. */
  lemma {:induction false} OneSolution(w: World, at: map<SetId, int>, a: Belief, b: Belief, f: FactId)
    requires Ranked(w) && Solves(w.facts, w.retracted, at, a) && Solves(w.facts, w.retracted, at, b) && f in w.facts
    ensures a[f] == b[f]
    decreases w.rank[f]
  {
    var child := w.facts[f];
    hide IsWeakest, Explained, Ranked;
    forall i: nat, v | i < |child.tokens| && !child.isRoot
      ensures IsWeakest(w.facts, w.retracted, a, child, i, ReadAt(at, SetId(f, i)), v) <==>
              IsWeakest(w.facts, w.retracted, b, child, i, ReadAt(at, SetId(f, i)), v)
    {
      forall t | t in child.tokens[i]
        ensures Worth(w.facts, w.retracted, a, child, t, ReadAt(at, SetId(f, i))) ==
                Worth(w.facts, w.retracted, b, child, t, ReadAt(at, SetId(f, i)))
      {
        TokenBelow(w, f, i, t);
        OneSolution(w, at, a, b, About(t));
        hide Admits, About, Denies;
      }
      hide Worth;
      SameWorths(w, a, b, child, i, ReadAt(at, SetId(f, i)), v);
    }
    SameExplanation(w, at, a, b, f);
  }

  // ---- What engines store --------------------------------------------------------------------------------

  /** The stored confidences are what the weakest tokens bring, when set j was last read at time at[j]. */
  ghost predicate SetsWeakest(facts: map<FactId, Fact>, retracted: map<FactId, string>, at: map<SetId, int>, st: Belief,
                              sets: Sets)
  {
    forall f, i: nat | f in facts && !facts[f].isRoot && i < |facts[f].tokens| ::
      SetId(f, i) in sets &&
      IsWeakest(facts, retracted, st, facts[f], i, ReadAt(at, SetId(f, i)), sets[SetId(f, i)].confidence)
  }

  /** The stored status of f and the stored confidences of its sets are the evaluated ones. */
  ghost predicate StoredAt(w: World, at: map<SetId, int>, derived: map<FactId, Status>, sets: Sets, f: FactId)
    requires Ranked(w)
  {
    f in w.facts && f in derived && derived[f] == Eval(w, at, f) &&
    (!w.facts[f].isRoot ==> forall i: nat | i < |w.facts[f].tokens| ::
       SetId(f, i) in sets && sets[SetId(f, i)].confidence == EvalSet(w, at, SetId(f, i)))
  }

  ghost predicate Stores(w: World, at: map<SetId, int>, derived: map<FactId, Status>, sets: Sets) {
    Ranked(w) && derived.Keys == w.facts.Keys && forall f | f in w.facts :: StoredAt(w, at, derived, sets, f)
  }

  lemma StoredAre(w: World, at: map<SetId, int>, derived: map<FactId, Status>, sets: Sets)
    requires Stores(w, at, derived, sets)
    ensures Solves(w.facts, w.retracted, at, derived) && SetsWeakest(w.facts, w.retracted, at, derived, sets)
  {
    hide Ranked, IsWeakest, EvalSet, Eval, Solves;
    assert derived == Evaluation(w, at) by {
      forall f | f in w.facts ensures derived[f] == Eval(w, at, f) { assert StoredAt(w, at, derived, sets, f); }
    }
    EvaluationSolves(w, at);
    hide Evaluation;
    forall f, i: nat | f in w.facts && !w.facts[f].isRoot && i < |w.facts[f].tokens|
      ensures SetId(f, i) in sets
      ensures IsWeakest(w.facts, w.retracted, derived, w.facts[f], i, ReadAt(at, SetId(f, i)),
                        sets[SetId(f, i)].confidence)
    {
      assert StoredAt(w, at, derived, sets, f);
      EvaluatedSet(w, at, f, i);
    }
  }

  lemma StoredSets(w: World, at: map<SetId, int>, derived: map<FactId, Status>, sets: Sets, children: Children,
                   f: FactId)
    requires Ranked(w) && Shape(w, sets, children) && f in w.facts && f in derived && derived[f] == Eval(w, at, f)
    requires !w.facts[f].isRoot ==> CachedConfidences(w, sets, f) == Confidences(w, at, f)
    ensures StoredAt(w, at, derived, sets, f)
  {
    if !w.facts[f].isRoot {
      forall i: nat | i < |w.facts[f].tokens|
        ensures SetId(f, i) in sets && sets[SetId(f, i)].confidence == EvalSet(w, at, SetId(f, i))
      {
        assert IsSetId(w, SetId(f, i));
        hide Ranked, Shape, EvalSet;
        assert Confidences(w, at, f)[i] == CachedConfidences(w, sets, f)[i];
      }
    }
  }

  lemma ConsistentParts(e: Engine)
    requires e.Consistent()
    ensures Ranked(e.W()) && Shape(e.W(), e.sets, e.children) && e.W() == World(e.facts, e.retracted, e.rank)
    ensures e.derived.Keys == e.facts.Keys
  {}

  lemma StoresAll(w: World, at: map<SetId, int>, derived: map<FactId, Status>, sets: Sets)
    requires Ranked(w) && derived.Keys == w.facts.Keys && forall f | f in w.facts :: StoredAt(w, at, derived, sets, f)
    ensures Stores(w, at, derived, sets)
  {}

  /** At any time the statuses and confidences an engine stores solve the equations, each set reading the clock at its
      last refresh. */
  lemma StoredSolve(e: Engine)
    requires e.Consistent()
    ensures Solves(e.facts, e.retracted, e.stamp, e.derived)
    ensures SetsWeakest(e.facts, e.retracted, e.stamp, e.derived, e.sets)
  {
    hide *;
    ConsistentParts(e);
    var w := e.W();
    forall f | f in w.facts ensures StoredAt(w, e.stamp, e.derived, e.sets, f) {
      EngineIsEval(e, f);
      StoredSets(w, e.stamp, e.derived, e.sets, e.children, f);
    }
    StoresAll(w, e.stamp, e.derived, e.sets);
    StoredAre(w, e.stamp, e.derived, e.sets);
  }

  lemma TruthIsEval(w: World, now: int, f: FactId)
    requires Ranked(w) && f in w.facts
    ensures Truth(w, now, f) == Eval(w, Uniform(w, now), f)
  {}

  /** In quiet they solve them with every set reading the clock now. */
  lemma StoredSolveNow(e: Engine, now: int)
    requires e.Consistent() && e.clock <= now && Quiet(e.W(), now)
    ensures Solves(e.facts, e.retracted, Uniform(e.W(), now), e.derived)
    ensures SetsWeakest(e.facts, e.retracted, Uniform(e.W(), now), e.derived, e.sets)
  {
    hide *;
    ConsistentParts(e);
    var w, at := e.W(), Uniform(e.W(), now);
    forall f | f in w.facts ensures StoredAt(w, at, e.derived, e.sets, f) {
      EngineIsExact(e, now, f);
      TruthIsEval(w, now, f);
      StoredSets(w, at, e.derived, e.sets, e.children, f);
    }
    StoresAll(w, at, e.derived, e.sets);
    StoredAre(w, at, e.derived, e.sets);
  }

  // ---- Where a grade comes from --------------------------------------------------------------------------

  /** Neither f nor anything it rests on denies anything. */
  ghost predicate Unconditional(facts: map<FactId, Fact>, f: FactId) {
    forall g, i, t | g in facts && Reaches(Cycles.DependencyEdges(facts), g, f) &&
      0 <= i < |facts[g].tokens| && t in facts[g].tokens[i] :: !Denies(t)
  }

  lemma UnconditionalBelow(w: World, f: FactId, i: nat, t: string)
    requires Ranked(w) && f in w.facts && Unconditional(w.facts, f)
    requires i < |w.facts[f].tokens| && t in w.facts[f].tokens[i]
    ensures !Denies(t) && About(t) in w.facts && 0 <= w.rank[About(t)] < w.rank[f]
    ensures Unconditional(w.facts, About(t)) && Reaches(Cycles.DependencyEdges(w.facts), About(t), f)
  {
    var edges, p := Cycles.DependencyEdges(w.facts), About(t);
    TokenBelow(w, f, i, t);
    assert Cycles.DependsOn(w.facts[f], p) && (p, f) in edges;
    EdgeReaches(edges, p, f);
    ReachesSelf(edges, f);
    hide Reaches, Cycles.DependencyEdges, Ranked;
    forall g | g in w.facts && Reaches(edges, g, p) ensures Reaches(edges, g, f) { ReachesTransitive(edges, g, p, f); }
  }

  /** A root that f rests on, not retracted, was given this confidence. */
  ghost predicate GivenTo(facts: map<FactId, Fact>, retracted: map<FactId, string>, f: FactId, r: FactId,
                          grade: Status) {
    r in facts && facts[r].isRoot && r !in retracted && facts[r].manual == grade &&
    Reaches(Cycles.DependencyEdges(facts), r, f)
  }

  lemma SeenIsStored(facts: map<FactId, Fact>, retracted: map<FactId, string>, at: map<SetId, int>, st: Belief,
                     p: FactId, now: int)
    requires p in facts && p in st && Explained(facts, retracted, at, st, p)
    ensures Seen(facts, retracted, st, p, now) > 0.0 ==> st[p] == Seen(facts, retracted, st, p, now)
  {}

  /** Without denial a status of 0.6 or more is full confidence or what some root below was given, and some set of the
      fact has every parent at that status or above. */
  lemma {:induction false} GradesComeFromRoots(w: World, at: map<SetId, int>, st: Belief, f: FactId)
    requires Ranked(w) && Solves(w.facts, w.retracted, at, st) && f in w.facts && Unconditional(w.facts, f)
    requires st[f] >= 0.6
    ensures st[f] == 1.0 || exists r :: GivenTo(w.facts, w.retracted, f, r, st[f])
    ensures w.facts[f].isRoot || exists i: nat :: i < |w.facts[f].tokens| && NoneBelow(w.facts[f].tokens[i], st, st[f])
    decreases w.rank[f]
  {
    ReachesSelf(Cycles.DependencyEdges(w.facts), f);
    hide Reaches, Cycles.DependencyEdges, Unconditional, Ranked;
    assert Explained(w.facts, w.retracted, at, st, f);
    if w.facts[f].isRoot {
      assert GivenTo(w.facts, w.retracted, f, f, st[f]);
    } else {
      var i: nat :| i < |w.facts[f].tokens| &&
        IsWeakest(w.facts, w.retracted, st, w.facts[f], i, ReadAt(at, SetId(f, i)), st[f]);
      var now := ReadAt(at, SetId(f, i));
      hide Explained, Admits, Seen;
      forall t | t in w.facts[f].tokens[i] ensures About(t) in st && st[About(t)] >= st[f] {
        ParentGrade(w, at, st, f, i, t, now);
      }
      assert NoneBelow(w.facts[f].tokens[i], st, st[f]);
      if st[f] != 1.0 {
        var t :| t in w.facts[f].tokens[i] && st[f] == Worth(w.facts, w.retracted, st, w.facts[f], t, now);
        ParentGrade(w, at, st, f, i, t, now);
        UnconditionalBelow(w, f, i, t);
        GradesComeFromRoots(w, at, st, About(t));
        if st[f] != 1.0 {
          var r :| GivenTo(w.facts, w.retracted, About(t), r, st[f]);
          ReachesTransitive(Cycles.DependencyEdges(w.facts), r, About(t), f);
          assert GivenTo(w.facts, w.retracted, f, r, st[f]);
        }
      }
    }
  }

  ghost predicate NoneBelow(tokens: seq<string>, st: Belief, grade: Status) {
    forall t | t in tokens :: About(t) in st && st[About(t)] >= grade
  }

  lemma ParentGrade(w: World, at: map<SetId, int>, st: Belief, f: FactId, i: nat, t: string, now: int)
    requires Ranked(w) && Solves(w.facts, w.retracted, at, st) && f in w.facts && Unconditional(w.facts, f)
    requires i < |w.facts[f].tokens| && t in w.facts[f].tokens[i]
    requires Worth(w.facts, w.retracted, st, w.facts[f], t, now) >= 0.6
    ensures About(t) in st && st[About(t)] == Worth(w.facts, w.retracted, st, w.facts[f], t, now)
  {
    UnconditionalBelow(w, f, i, t);
    assert Explained(w.facts, w.retracted, at, st, About(t));
    hide Ranked, Unconditional, Reaches, Explained, Admits;
    SeenIsStored(w.facts, w.retracted, at, st, About(t), now);
  }

  lemma WeakestOfOne(facts: map<FactId, Fact>, retracted: map<FactId, string>, st: Belief, child: Fact, i: nat,
                     t: string, now: int)
    requires i < |child.tokens| && child.tokens[i] == [t] && Worth(facts, retracted, st, child, t, now) <= 1.0
    ensures IsWeakest(facts, retracted, st, child, i, now, Worth(facts, retracted, st, child, t, now))
  {
    hide Worth;
    assert t in child.tokens[i];
  }

  /** A live fact that rests on the absence of p alone: full confidence when p is at nothing or below, what p leaves
      while that is 0.6 or more, and nothing otherwise. */
  lemma AbsenceIsMirrored(facts: map<FactId, Fact>, retracted: map<FactId, string>, at: map<SetId, int>, st: Belief,
                          f: FactId, p: FactId)
    requires Solves(facts, retracted, at, st) && f in facts && !facts[f].isRoot && f !in retracted
    requires facts[f].tokens == [["!" + p]]
    ensures var seen := Seen(facts, retracted, st, p, ReadAt(at, SetId(f, 0)));
      st[f] == if seen <= 0.0 then 1.0 else if seen <= 0.4 then 1.0 - seen else 0.0
  {
    var t, now := "!" + p, ReadAt(at, SetId(f, 0));
    assert t[1..] == p;
    assert Explained(facts, retracted, at, st, f) && facts[f].tokens[0] == [t];
    hide Seen, Admits, Solves;
    WeakestOfOne(facts, retracted, st, facts[f], 0, t, now);
  }

  // ---- An engine with grades -----------------------------------------------------------------------------

  const LIKELY: Fact := Bare(true, 0.7, Empirical, [])
  const DOUBTED: Fact := Bare(true, 0.25, Empirical, [])
  const ON_LIKELY: Fact := Bare(false, INVALID, Empirical, [["likely"]])
  const ON_DOUBT: Fact := Bare(false, INVALID, Empirical, [["!doubted"]])

  const TWO_ROOTS: map<FactId, Fact> := map["likely" := LIKELY, "doubted" := DOUBTED]
  const GRADED: map<FactId, Fact> := map["likely" := LIKELY, "doubted" := DOUBTED, "f" := ON_LIKELY, "n" := ON_DOUBT]

  lemma GradedIsBuilt()
    ensures Offered(map[], "likely", Timed(LIKELY, 1)) == map["likely" := LIKELY]
    ensures Offered(map["likely" := LIKELY], "doubted", Timed(DOUBTED, 1)) == TWO_ROOTS
    ensures Offered(TWO_ROOTS, "f", Timed(ON_LIKELY, 1)) == TWO_ROOTS["f" := ON_LIKELY]
    ensures Offered(TWO_ROOTS["f" := ON_LIKELY], "n", Timed(ON_DOUBT, 1)) == GRADED
  {
    assert |map["likely" := LIKELY]| == 1 && |TWO_ROOTS| == 2 && |TWO_ROOTS["f" := ON_LIKELY]| == 3;
    assert "!doubted"[1..] == "doubted";
    assert GoodTokens(TWO_ROOTS, ["likely"]) && GoodTokens(TWO_ROOTS["f" := ON_LIKELY], ["!doubted"]);
  }

  lemma GradedSolution(at: map<SetId, int>, st: Belief)
    requires Solves(GRADED, map[], at, st)
    ensures "f" in st && "n" in st && "likely" in st && "doubted" in st
    ensures st["likely"] == 0.7 && st["doubted"] == 0.25 && st["f"] == 0.7 && st["n"] == 0.75
  {
    var now := ReadAt(at, SetId("f", 0));
    assert Explained(GRADED, map[], at, st, "likely") && Explained(GRADED, map[], at, st, "doubted");
    assert Explained(GRADED, map[], at, st, "f");
    assert ON_LIKELY.tokens[0] == ["likely"] && About("likely") == "likely" && !Denies("likely");
    assert Seen(GRADED, map[], st, "likely", now) == 0.7 && Admits(ON_LIKELY, LIKELY, now);
    assert Worth(GRADED, map[], st, ON_LIKELY, "likely", now) == 0.7;
    WeakestOfOne(GRADED, map[], st, ON_LIKELY, 0, "likely", now);
    assert "!" + "doubted" == "!doubted";
    AbsenceIsMirrored(GRADED, map[], at, st, "n", "doubted");
  }

  lemma ValidIsConsistent(e: Engine)
    requires e.Valid()
    ensures e.Consistent() && e.derived.Keys == e.facts.Keys && e.W() == World(e.facts, e.retracted, e.rank)
  {}

  method Graded() returns (e: Engine, onLikely: Status, onDoubt: Status)
    ensures e.Valid() && e.facts == GRADED && onLikely == 0.7 && onDoubt == 0.75
  {
    hide *;
    GradedIsBuilt();
    e := new Engine();
    Offer(e, "likely", LIKELY, 1);
    Offer(e, "doubted", DOUBTED, 1);
    Offer(e, "f", ON_LIKELY, 1);
    Offer(e, "n", ON_DOUBT, 1);
    ValidIsConsistent(e);
    StoredSolve(e);
    GradedSolution(e.stamp, e.derived);
    onLikely := e.EffectiveStatus("f", 1);
    onDoubt := e.EffectiveStatus("n", 1);
    GradedReading(e.W(), e.derived);
  }

  lemma GradedReading(w: World, st: map<FactId, Status>)
    requires w.facts == GRADED && w.retracted == map[] && "f" in st && "n" in st
    ensures Read(w, "f", st["f"], 1) == st["f"] && Read(w, "n", st["n"], 1) == st["n"]
  {}
}
