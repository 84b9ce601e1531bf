/** Engines whose ids hide a contradiction: what is left after a pass of automatic retraction. */
module Collisions {
  import opened Facts
  import opened Strings
  import opened Engines
  import opened Consistency

  /** Two pairs of different ids that one of the two texts does not tell apart. */
  ghost predicate Collide(a: FactId, b: FactId, c: FactId, d: FactId) {
    a != "" && b != "" && c != "" && d != "" && Distinct([a, b, c, d]) && Precedes(a, b) && Precedes(c, d) &&
    (Joined(a, ":", b) == Joined(c, ":", d) || Joined(a, "|", b) == Joined(c, "|", d))
  }

  method BuildQuarrel(a: FactId, b: FactId, c: FactId, d: FactId) returns (e: Engine)
    requires a != b && a != c && a != d && b != c && b != d && c != d
    ensures fresh(e) && e.Valid() && e.clock <= 1 && e.facts == Quarrel(a, b, c, d) && e.retracted == map[]
  {
    e := new Engine();
    var claims := Quarrel(a, b, c, d);
    var k, l, m, n := claims[a], claims[b], claims[c], claims[d];
    QuarrelIsBuilt(a, b, c, d);
    hide *;
    Offer(e, a, k, 1);
    Offer(e, b, l, 1);
    Offer(e, c, m, 1);
    Offer(e, d, n, 1);
  }

  lemma QuarrelIsBuilt(a: FactId, b: FactId, c: FactId, d: FactId)
    requires a != b && a != c && a != d && b != c && b != d && c != d
    ensures var q := Quarrel(a, b, c, d);
      Offered(map[], a, Timed(q[a], 1)) == map[a := q[a]] &&
      Offered(map[a := q[a]], b, Timed(q[b], 1)) == map[a := q[a], b := q[b]] &&
      Offered(map[a := q[a], b := q[b]], c, Timed(q[c], 1)) == map[a := q[a], b := q[b], c := q[c]] &&
      Offered(map[a := q[a], b := q[b], c := q[c]], d, Timed(q[d], 1)) == q
  {
    var q := Quarrel(a, b, c, d);
    var one, two, three := map[a := q[a]], map[a := q[a], b := q[b]], map[a := q[a], b := q[b], c := q[c]];
    assert |one| == 1 && |two| == 2 && |three| == 3;
    assert three[d := q[d]] == q;
    forall f | f in q ensures q[f].isRoot && q[f].tokens == [] && q[f].assertedAt == 1 {}
    assert a in q && b in q && c in q && d in q;
    hide *;
    RootIsTaken(map[], a, q[a]);
    RootIsTaken(one, b, q[b]);
    RootIsTaken(two, c, q[c]);
    RootIsTaken(three, d, q[d]);
  }

  lemma RootIsTaken(facts: map<FactId, Fact>, id: FactId, fact: Fact)
    requires fact.isRoot && fact.tokens == [] && fact.assertedAt != 0 && id !in facts && |facts| < 4
    ensures Offered(facts, id, Timed(fact, 1)) == facts[id := fact]
  {}

  lemma LiveQuarrel(e: Engine, a: FactId, b: FactId, c: FactId, d: FactId, now: int)
    requires e.facts == Quarrel(a, b, c, d) && e.derived.Keys == e.facts.Keys
    ensures LiveAt(e, false, now) == e.facts.Keys - e.retracted.Keys
  {
    QuarrelStays(a, b, c, d);
  }

  lemma QuarrelStays(a: FactId, b: FactId, c: FactId, d: FactId)
    ensures forall f | f in Quarrel(a, b, c, d) ::
      Quarrel(a, b, c, d)[f].isRoot && Quarrel(a, b, c, d)[f].manual == VALID && Quarrel(a, b, c, d)[f].validUntil == 0
    ensures Quarrel(a, b, c, d).Keys == Four(a, b, c, d)
  {}

  /** Whatever order the scan takes, the pass costs the first pair it reports one member, and the other pair none. */
  lemma OnePairLoses(a: FactId, b: FactId, c: FactId, d: FactId, found: seq<Issue>) returns (left: Issue)
    requires Collide(a, b, c, d)
    requires var q := Quarrel(a, b, c, d); Report(q, q.Keys, Four(a, b, c, d), {}, found)
    ensures left == Issue(ExplicitContradiction, a, b) || left == Issue(ExplicitContradiction, c, d)
    ensures var losers := LosersOf(Quarrel(a, b, c, d), found, |found|); left.a !in losers && left.b !in losers
    ensures left.a in Quarrel(a, b, c, d) && left.b in Quarrel(a, b, c, d)
  {
    var first, second := Issue(ExplicitContradiction, a, b), Issue(ExplicitContradiction, c, d);
    var q := Quarrel(a, b, c, d);
    QuarrelStays(a, b, c, d);
    Different(a, b, c, d);
    forall x ensures Found(q, q.Keys, Four(a, b, c, d), {}, x) <==> x == first || x == second {
      QuarrelIssues(a, b, c, d, q.Keys, Four(a, b, c, d), x);
    }
    SameText(a, b, c, d);
    hide Quarrel, Found, PairKey, BarKey, Joined, Precedes, Loser, Four, Contradiction;
    FoundIsNothingElse(q, Four(a, b, c, d), first, second, found);
    OnlyFirstCounts(q, first, second, found);
    left := if found[0] == first then second else first;
  }

  lemma SameText(a: FactId, b: FactId, c: FactId, d: FactId)
    requires Collide(a, b, c, d)
    ensures var first, second := Issue(ExplicitContradiction, a, b), Issue(ExplicitContradiction, c, d);
      PairKey(first) == PairKey(second) || BarKey(first) == BarKey(second)
  {}

  lemma FoundIsNothingElse(facts: map<FactId, Fact>, ids: set<FactId>, first: Issue, second: Issue, found: seq<Issue>)
    requires Report(facts, facts.Keys, ids, {}, found) && Found(facts, facts.Keys, ids, {}, first)
    requires forall x :: Found(facts, facts.Keys, ids, {}, x) ==> x == first || x == second
    ensures found != [] && KeysDiffer(found) && forall i | 0 <= i < |found| :: found[i] == first || found[i] == second
  {
    hide Found, PairKey;
    assert KeyAmong(found, PairKey(first));
    forall i | 0 <= i < |found| ensures found[i] == first || found[i] == second {
      assert found[i] in found;
    }
  }

  lemma OnlyFirstCounts(facts: map<FactId, Fact>, first: Issue, second: Issue, found: seq<Issue>)
    requires found != [] && KeysDiffer(found)
    requires forall i | 0 <= i < |found| :: found[i] == first || found[i] == second
    requires PairKey(first) == PairKey(second) || BarKey(first) == BarKey(second)
    ensures forall f | f in LosersOf(facts, found, |found|) :: f == found[0].a || f == found[0].b
  {
    hide PairKey, BarKey;
    if PairKey(first) == PairKey(second) {
      forall i | 0 <= i < |found| ensures found[i] == found[0] {
        assert found[i] in found && found[0] in found;
      }
      DistinctCardinality(found);
      assert Elements(found) == {found[0]};
    } else {
      forall i | 0 < i < |found| ensures !IsFirst(found, i) {
        assert BarKey(found[0]) == BarKey(found[i]);
      }
    }
    assert forall i | 0 <= i < |found| && IsFirst(found, i) :: i == 0;
  }

  /** For every two pairs of different ids that collide, an engine on which a pass of automatic retraction leaves a
      contradiction between live facts for the next check to find. */
  method PassLeavesContradiction(a: FactId, b: FactId, c: FactId, d: FactId) returns (e: Engine, again: seq<Issue>)
    requires Collide(a, b, c, d)
    ensures fresh(e) && e.Valid() && e.facts == Quarrel(a, b, c, d) && again != []
  {
    hide *;
    Different(a, b, c, d);
    e := BuildQuarrel(a, b, c, d);
    var ids := [a, b, c, d];
    ChecksFour(a, b, c, d, ids);
    EngineKeys(e);
    LiveQuarrel(e, a, b, c, d, 1);
    ghost var before := Now(e);
    NowIs(e);
    assert e.facts.Keys - e.retracted.Keys == e.facts.Keys;
    var found, last := AutoRetractContradictions(e, ids, [], false, {}, 1);
    Unflagged(Quarrel(a, b, c, d), found, 1);
    Acted(before, e, found);
    EngineKeys(e);
    ghost var left := OnePairLoses(a, b, c, d, found);
    var checkedIDs;
    checkedIDs, again := CheckConsistency(e, ids, false, last, {});
    LiveQuarrel(e, a, b, c, d, last);
    LeftIsFound(a, b, c, d, e.facts.Keys - e.retracted.Keys, left, again);
  }

  lemma Different(a: FactId, b: FactId, c: FactId, d: FactId)
    requires Collide(a, b, c, d)
    ensures a != b && a != c && a != d && b != c && b != d && c != d
  {
    var ids := [a, b, c, d];
    assert ids[0] != ids[1] && ids[0] != ids[2] && ids[0] != ids[3] && ids[1] != ids[2] && ids[1] != ids[3] &&
           ids[2] != ids[3];
  }

  lemma ChecksFour(a: FactId, b: FactId, c: FactId, d: FactId, ids: seq<FactId>)
    requires Collide(a, b, c, d) && ids == [a, b, c, d]
    ensures CheckedIDs(Quarrel(a, b, c, d), ids) == Four(a, b, c, d)
    ensures Quarrel(a, b, c, d).Keys == Four(a, b, c, d)
  {
    assert a in NamedIDs(ids);
    assert NamedIDs(ids) == Four(a, b, c, d) by { hide Joined, Precedes; }
  }

  lemma NowIs(e: Engine)
    ensures Now(e).facts == e.facts && Now(e).retracted == e.retracted
  {}

  lemma Unflagged(facts: map<FactId, Fact>, found: seq<Issue>, now: int)
    ensures found + [] == found && FlaggedIf(false, facts, found, now) == facts
  {
    NothingFlagged(facts, now);
  }

  lemma Acted(b: Before, e: Engine, found: seq<Issue>)
    requires ActedOn(b, Now(e), found, |found|) && b.retracted == map[]
    ensures e.retracted.Keys == LosersOf(b.facts, found, |found|)
  {
    hide LosersOf;
  }

  lemma LeftIsFound(a: FactId, b: FactId, c: FactId, d: FactId, live: set<FactId>, left: Issue, again: seq<Issue>)
    requires Collide(a, b, c, d)
    requires left == Issue(ExplicitContradiction, a, b) || left == Issue(ExplicitContradiction, c, d)
    requires left.a in live && left.b in live && live <= Four(a, b, c, d)
    requires Report(Quarrel(a, b, c, d), live, Four(a, b, c, d), {}, again)
    ensures again != []
  {
    Different(a, b, c, d);
    hide Quarrel, Contradiction, Found, PairKey;
    QuarrelIssues(a, b, c, d, live, Four(a, b, c, d), left);
    assert KeyAmong(again, PairKey(left));
  }

  /** Four ordinary-looking ids will do. */
  method OrdinaryIdsCollide() returns (e: Engine, again: seq<Issue>)
    ensures fresh(e) && e.Valid() && e.facts.Keys == {"a", "a:b", "b:c", "c"} && again != []
  {
    OrdinaryIds();
    e, again := PassLeavesContradiction("a", "b:c", "a:b", "c");
    QuarrelStays("a", "b:c", "a:b", "c");
  }

  lemma OrdinaryIds()
    ensures Collide("a", "b:c", "a:b", "c")
  {
    var a, b, c, d := "a", "b:c", "a:b", "c";
    assert a[0] == 'a' && b[0] == 'b' && c[0] == 'a' && d[0] == 'c' && |a| == 1 && |c| == 3;
    assert Precedes(a, b) && Precedes(c, d);
    assert Joined(a, ":", b) == "a:b:c" == Joined(c, ":", d);
  }
}
