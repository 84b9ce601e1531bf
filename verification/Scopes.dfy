/** How far hypothetical and fictional facts reach: what scope checks keep out, and what they let through. */
module Scopes {
  import opened Facts
  import opened Semantics
  import opened Digraph
  import opened Derivations
  import Cycles

  // ---- Non-interference ----------------------------------------------------------------------------------

  /** No derived empirical or uncertain fact negates a hypothetical or fictional one. */
  ghost predicate NoNegatedImagination(w: World) {
    forall f, i: nat, r | f in w.facts && !w.facts[f].isRoot && RealWorld(w.facts[f].kind) &&
        r in SetRefs(w.facts[f], i) && r.id in w.facts && r.negated ::
      !Imagined(w.facts[r.id].kind)
  }

  /** The dependencies between facts that are not imagined. */
  ghost function PlainEdges(w: World): Edges {
    set e | e in Cycles.DependencyEdges(w.facts) && e.0 in w.facts && e.1 in w.facts &&
            !Imagined(w.facts[e.0].kind) && !Imagined(w.facts[e.1].kind)
  }

  ghost predicate HasImaginedParent(w: World, b: FactId) {
    b in w.facts && exists i: nat, r :: r in SetRefs(w.facts[b], i) && r.id in w.facts && Imagined(w.facts[r.id].kind)
  }

  /** Some empirical or uncertain fact is b, or rests on b through facts that are not imagined. */
  ghost predicate Matters(w: World, b: FactId) {
    exists f :: f in w.facts && RealWorld(w.facts[f].kind) && Reaches(PlainEdges(w), b, f)
  }

  /** A derived fact of an undocumented kind between an imagined fact and a real one. */
  ghost predicate Bridge(w: World, b: FactId) {
    b in w.facts && w.facts[b].kind.OtherKind? && !w.facts[b].isRoot && HasImaginedParent(w, b) && Matters(w, b)
  }

  /** The worlds hold the same facts of the same kinds, and agree entirely on those that are not imagined. */
  ghost predicate SameReality(w1: World, w2: World) {
    w1.facts.Keys == w2.facts.Keys &&
    (forall f | f in w1.facts :: w1.facts[f].kind == w2.facts[f].kind) &&
    (forall f | f in w1.facts && !Imagined(w1.facts[f].kind) ::
      SameLogic(w1.facts[f], w2.facts[f]) && (f in w1.retracted <==> f in w2.retracted))
  }

  /** Scope non-interference: however the hypothetical and fictional facts differ, every empirical or uncertain fact
      has the same status, unless one negates an imagined fact or a fact of an undocumented kind stands in between. */
  lemma ImaginationDoesNotLeak(w1: World, w2: World, now: int, f: FactId)
    requires Ranked(w1) && Ranked(w2) && SameReality(w1, w2)
    requires NoNegatedImagination(w1) && forall b :: !Bridge(w1, b)
    requires f in w1.facts && RealWorld(w1.facts[f].kind)
    ensures Truth(w1, now, f) == Truth(w2, now, f)
  {
    var real_ := set g | g in w1.facts && !Imagined(w1.facts[g].kind) && Matters(w1, g);
    MattersSelf(w1, f);
    hide Ranked, NoNegatedImagination, Bridge, Matters;
    var at1, at2 := Uniform(w1, now), Uniform(w2, now);
    forall g, i: nat, r | g in real_ && g in w1.facts && !w1.facts[g].isRoot && r in SetRefs(w1.facts[g], i)
      ensures SameDependency(w1, at1, w2, at2, real_, SetId(g, i), r)
    {
      ImaginedParentIsBlocked(w1, w2, real_, now, g, i, r);
    }
    AgreeingWorlds(w1, at1, w2, at2, real_, f);
  }

  lemma MattersSelf(w: World, f: FactId)
    requires f in w.facts && RealWorld(w.facts[f].kind)
    ensures Matters(w, f)
  {
    ReachesSelf(PlainEdges(w), f);
  }

  /** What a fact that matters rests on matters too. */
  lemma MattersAbove(w: World, g: FactId, i: nat, r: DepRef)
    requires g in w.facts && Matters(w, g) && r in SetRefs(w.facts[g], i) && r.id in w.facts
    requires !Imagined(w.facts[g].kind) && !Imagined(w.facts[r.id].kind)
    ensures Matters(w, r.id)
  {
    var f :| f in w.facts && RealWorld(w.facts[f].kind) && Reaches(PlainEdges(w), g, f);
    assert Cycles.DependsOn(w.facts[g], r.id) && (r.id, g) in PlainEdges(w);
    EdgeReaches(PlainEdges(w), r.id, g);
    hide Reaches;
    ReachesTransitive(PlainEdges(w), r.id, g, f);
  }

  lemma ImaginedParentIsBlocked(w1: World, w2: World, real_: set<FactId>, now: int, g: FactId, i: nat, r: DepRef)
    requires Ranked(w1) && Ranked(w2) && SameReality(w1, w2) && NoNegatedImagination(w1) && forall b :: !Bridge(w1, b)
    requires real_ == set g | g in w1.facts && !Imagined(w1.facts[g].kind) && Matters(w1, g)
    requires g in real_ && !w1.facts[g].isRoot && r in SetRefs(w1.facts[g], i)
    ensures SameDependency(w1, Uniform(w1, now), w2, Uniform(w2, now), real_, SetId(g, i), r)
  {
    assert r.id in w1.facts;
    assert SameLogic(w1.facts[g], w2.facts[g]);
    hide Ranked, Matters;
    if !Imagined(w1.facts[r.id].kind) {
      MattersAbove(w1, g, i, r);
      UniformReads(w1, now, g, i);
      UniformReads(w2, now, g, i);
    } else {
      assert HasImaginedParent(w1, g) && !Bridge(w1, g);
      hide SetRefs;
    }
  }

  // ---- An undocumented kind in between -------------------------------------------------------------------

  /** A hypothetical root h, a relay o of some undocumented kind that rests on h, and an empirical e that rests on o. */
  ghost function Relayed(manual: Status, name: string): World {
    World(map["h" := Bare(true, manual, Hypothetical, []), "o" := Bare(false, INVALID, OtherKind(name), [["h"]]),
              "e" := Bare(false, INVALID, Empirical, [["o"]])],
          map[], map["h" := 0, "o" := 1, "e" := 2])
  }

  lemma RelayedTokens(manual: Status, name: string)
    ensures var w := Relayed(manual, name);
      SetRefs(w.facts["o"], 0) == [DepRef("h", false)] && SetRefs(w.facts["e"], 0) == [DepRef("o", false)] &&
      TokensParse(w.facts["h"]) && TokensParse(w.facts["o"]) && TokensParse(w.facts["e"])
  {
    assert ParseDependencyRef("h") == Success(DepRef("h", false)) &&
           ParseDependencyRef("o") == Success(DepRef("o", false));
  }

  lemma RelayedIsRanked(manual: Status, name: string)
    ensures var w := Relayed(manual, name); Ranked(w) && Quiet(w, 0) && NegationFree(w)
  {
    RelayedTokens(manual, name);
    hide TokensParse, AllParse, Parsed, ParseDependencyRef;
    var w := Relayed(manual, name);
    forall f, i, r | f in w.facts && r in SetRefs(w.facts[f], i)
      ensures !r.negated && ((f == "o" && r.id == "h") || (f == "e" && r.id == "o"))
    {
      assert i == 0;
    }
  }

  lemma LoneSupport(w: World, now: int, f: FactId, p: FactId)
    requires Ranked(w) && f in w.facts && SetRefs(w.facts[f], 0) == [DepRef(p, false)]
    ensures p in w.facts
    ensures Supported(w, now, f, 0) <==>
      ScopeSatisfied(w.facts[p].kind, w.facts[f].kind) && Grounded(w.facts[p], w.facts[f], now) &&
                                         Truth(w, now, p) >= THRESHOLD
  {
    assert DepRef(p, false) in SetRefs(w.facts[f], 0);
    hide Truth, Grounded, SetRefs;
  }

  /** The empirical fact follows the hypothetical one: an undocumented kind in between lifts the scope barrier. */
  lemma UndocumentedKindLaunders(manual: Status, name: string)
    ensures var w := Relayed(manual, name);
      Ranked(w) && NoNegatedImagination(w) && (Truth(w, 0, "e") >= THRESHOLD <==> manual >= THRESHOLD)
  {
    var w := Relayed(manual, name);
    RelayedTokens(manual, name);
    RelayedIsRanked(manual, name);
    assert Truth(w, 0, "h") == manual;
    hide Truth, Quiet, Ranked, SetRefs, Supported, TokensParse;
    assert Positive(w, "o") && Positive(w, "e");
    LoneSupport(w, 0, "o", "h");
    LoneSupport(w, 0, "e", "o");
    hide Positive, NegationFree;
    TruthByDerivation(w, 0, "o");
    TruthByDerivation(w, 0, "e");
  }

  // ---- Negation ------------------------------------------------------------------------------------------

  /** A hypothetical root h and an empirical e that rests on its absence. */
  ghost function Denied(manual: Status): World {
    World(map["h" := Bare(true, manual, Hypothetical, []), "e" := Bare(false, INVALID, Empirical, [["!h"]])],
          map[], map["h" := 0, "e" := 1])
  }

  lemma DeniedIsRanked(manual: Status)
    ensures var w := Denied(manual); Ranked(w) && Quiet(w, 0) && SetRefs(w.facts["e"], 0) == [DepRef("h", true)]
    ensures forall f, i, r | f in Denied(manual).facts && r in SetRefs(Denied(manual).facts[f], i) ::
      f == "e" && r == DepRef("h", true)
  {
    DeniedTokens();
    hide SetRefs, TokensParse;
  }

  lemma DeniedTokens()
    ensures var e := Bare(false, INVALID, Empirical, [["!h"]]);
      TokensParse(e) && forall i :: SetRefs(e, i) == if i == 0 then [DepRef("h", true)] else []
    ensures forall manual :: var h := Bare(true, manual, Hypothetical, []); TokensParse(h) && forall i ::
      SetRefs(h, i) == []
  {
    assert "!h"[1..] == "h";
    assert ParseDependencyRef("!h") == Success(DepRef("h", true));
  }

  /** The empirical fact follows the hypothetical one: scope is not checked on negated dependencies. */
  lemma NegationLeaks(up: Status, down: Status)
    requires up >= THRESHOLD && down <= INVALID
    ensures var w1, w2 := Denied(up), Denied(down);
      Ranked(w1) && Ranked(w2) && SameReality(w1, w2) && (forall b :: !Bridge(w1, b)) &&
      Truth(w1, 0, "e") == INVALID && Truth(w2, 0, "e") == VALID
  {
    DeniedIsRanked(up);
    DeniedIsRanked(down);
    var w1, w2 := Denied(up), Denied(down);
    assert SameReality(w1, w2) && forall b :: !Bridge(w1, b);
    assert Truth(w1, 0, "h") == up && Truth(w2, 0, "h") == down;
    hide Truth, Ranked, Quiet;
    NegatedTruth(w1, 0, "e", "h");
    NegatedTruth(w2, 0, "e", "h");
  }
}
