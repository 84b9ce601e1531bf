/** Contradiction detection, and the pass that retracts the weaker side of every contradiction found. */
module Consistency {
  import opened Facts
  import opened Strings
  import opened Semantics
  import opened Cache
  import opened Engines
  import opened Exactness

  datatype IssueKind =
    | ExplicitContradiction | ClaimValueConflict | PredicateObjectConflict | PolarityConflict | SemanticNegationConflict

  datatype Issue = Issue(kind: IssueKind, a: FactId, b: FactId)

  /** The pairs whose texts are close while only one of them is negated. */
  type Mismatches = set<(FactId, FactId)>

  function KindName(kind: IssueKind): string {
    match kind
    case ExplicitContradiction => "explicit_contradiction"
    case ClaimValueConflict => "claim_value_conflict"
    case PredicateObjectConflict => "predicate_object_conflict"
    case PolarityConflict => "polarity_conflict"
    case SemanticNegationConflict => "semantic_negation_conflict"
  }

  /** Hypothetical and fictional facts each contradict only their own kind. */
  function AssertionScope(kind: Kind): Kind {
    if kind.Hypothetical? || kind.Fictional? then kind else Empirical
  }

  function Polarity(p: Payload): string {
    if p.polarity == "" then "positive" else FoldCase(p.polarity)
  }

  function Contradiction(facts: map<FactId, Fact>, a: FactId, b: FactId, mismatches: Mismatches): Option<IssueKind>
    requires a in facts && b in facts
  {
    var p, q := facts[a].payload, facts[b].payload;
    if AssertionScope(facts[a].kind) != AssertionScope(facts[b].kind) then None
    else if b in p.contradicts || a in q.contradicts then Some(ExplicitContradiction)
    else if p.claimKey != "" && p.claimKey == q.claimKey && p.claimValue != "" && q.claimValue != "" &&
        p.claimValue != q.claimValue then
      Some(ClaimValueConflict)
    else if p.subject != "" && p.predicate_ != "" && p.subject == q.subject && p.predicate_ == q.predicate_ &&
            p.object_ != "" && q.object_ != "" && p.object_ != q.object_ then
      Some(PredicateObjectConflict)
    else if p.subject != "" && p.predicate_ != "" && p.object_ != "" && p.subject == q.subject &&
        p.predicate_ == q.predicate_ &&
            p.object_ == q.object_ && Polarity(p) != Polarity(q) then
      Some(PolarityConflict)
    else if (a, b) in mismatches then Some(SemanticNegationConflict)
    else None
  }

  // ---- What a contradiction is ---------------------------------------------------------------------------

  /** Both facts are fictional, or both hypothetical, or neither is either. */
  ghost predicate SameScope(x: Kind, y: Kind) {
    (x.Hypothetical? <==> y.Hypothetical?) && (x.Fictional? <==> y.Fictional?)
  }

  ghost predicate Claims(p: Payload, key: string, value: string) {
    key != "" && value != "" && p.claimKey == key && p.claimValue == value
  }

  ghost predicate Relates(p: Payload, subject: string, predicate_: string, object_: string) {
    subject != "" && predicate_ != "" && object_ != "" &&
    p.subject == subject && p.predicate_ == predicate_ && p.object_ == object_
  }

  /** Both are positive, where saying nothing counts as positive, or both give the same other polarity. */
  ghost predicate SamePolarity(p: Payload, q: Payload) {
    SameButCase(if p.polarity == "" then "positive" else p.polarity,
                if q.polarity == "" then "positive" else q.polarity)
  }

  /** What each kind of contradiction consists in. */
  ghost predicate Conflicts(kind: IssueKind, facts: map<FactId, Fact>, a: FactId, b: FactId, mismatches: Mismatches)
    requires a in facts && b in facts
  {
    var p, q := facts[a].payload, facts[b].payload;
    match kind
    case ExplicitContradiction => b in p.contradicts || a in q.contradicts
    case ClaimValueConflict => exists key, v, w :: Claims(p, key, v) && Claims(q, key, w) && v != w
    case PredicateObjectConflict => exists s, r, v, w :: Relates(p, s, r, v) && Relates(q, s, r, w) && v != w
    case PolarityConflict => (exists s, r, o :: Relates(p, s, r, o) && Relates(q, s, r, o)) && !SamePolarity(p, q)
    case SemanticNegationConflict => (a, b) in mismatches
  }

  ghost function Place(kind: IssueKind): nat {
    match kind
    case ExplicitContradiction => 0
    case ClaimValueConflict => 1
    case PredicateObjectConflict => 2
    case PolarityConflict => 3
    case SemanticNegationConflict => 4
  }

  /** Facts of one scope contradict each other in this way, and in no way that comes before it. */
  ghost predicate Contradicts(facts: map<FactId, Fact>, a: FactId, b: FactId, mismatches: Mismatches, kind: IssueKind)
    requires a in facts && b in facts
  {
    SameScope(facts[a].kind, facts[b].kind) && Conflicts(kind, facts, a, b, mismatches) &&
    forall other: IssueKind | Place(other) < Place(kind) :: !Conflicts(other, facts, a, b, mismatches)
  }

  lemma ConflictingClaims(p: Payload, q: Payload)
    ensures (exists key, v, w :: Claims(p, key, v) && Claims(q, key, w) && v != w) <==>
            p.claimKey != "" && p.claimKey == q.claimKey && p.claimValue != "" && q.claimValue != "" &&
            p.claimValue != q.claimValue
  {
    assert p.claimKey == q.claimKey && Claims(p, p.claimKey, p.claimValue) && Claims(q, p.claimKey, q.claimValue) ==>
           p.claimValue == q.claimValue || exists key, v, w :: Claims(p, key, v) && Claims(q, key, w) && v != w;
  }

  lemma ConflictingObjects(p: Payload, q: Payload)
    ensures (exists s, r, v, w :: Relates(p, s, r, v) && Relates(q, s, r, w) && v != w) <==>
            p.subject != "" && p.predicate_ != "" && p.subject == q.subject && p.predicate_ == q.predicate_ &&
            p.object_ != "" && q.object_ != "" && p.object_ != q.object_
    ensures (exists s, r, o :: Relates(p, s, r, o) && Relates(q, s, r, o)) <==>
            p.subject != "" && p.predicate_ != "" && p.object_ != "" && p.subject == q.subject &&
            p.predicate_ == q.predicate_ && p.object_ == q.object_
  {
    if Relates(p, p.subject, p.predicate_, p.object_) && Relates(q, p.subject, p.predicate_, q.object_) {
      assert p.object_ == q.object_ || exists s, r, v, w :: Relates(p, s, r, v) && Relates(q, s, r, w) && v != w;
    }
  }

  lemma PolarityAlike(p: Payload, q: Payload)
    ensures Polarity(p) == Polarity(q) <==> SamePolarity(p, q)
  {
    assert FoldCase("positive") == "positive";
    FoldedAlike(if p.polarity == "" then "positive" else p.polarity,
                if q.polarity == "" then "positive" else q.polarity);
    hide FoldCase, SameButCase;
  }

  /** The scan's test finds the first kind of contradiction there is. */
  lemma ContradictionExactly(facts: map<FactId, Fact>, a: FactId, b: FactId, mismatches: Mismatches)
    requires a in facts && b in facts
    ensures forall kind ::
              Contradiction(facts, a, b, mismatches) == Some(kind) <==> Contradicts(facts, a, b, mismatches, kind)
    ensures Contradiction(facts, a, b, mismatches) == None <==>
            forall kind :: !Contradicts(facts, a, b, mismatches, kind)
  {
    var p, q := facts[a].payload, facts[b].payload;
    ConflictingClaims(p, q);
    ConflictingObjects(p, q);
    PolarityAlike(p, q);
    hide Claims, Relates, SamePolarity, Polarity;
    var found := Contradiction(facts, a, b, mismatches);
    if found.Some? {
      assert Contradicts(facts, a, b, mismatches, found.value);
    }
  }

  /** Which fact is named first makes no difference. */
  lemma ContradictionIsSymmetric(facts: map<FactId, Fact>, a: FactId, b: FactId, mismatches: Mismatches)
    requires a in facts && b in facts && ((a, b) in mismatches <==> (b, a) in mismatches)
    ensures Contradiction(facts, a, b, mismatches) == Contradiction(facts, b, a, mismatches)
  {
    hide FoldCase;
  }

  /** Facts that agree in what they claim, with nothing declared and no mismatch between them, never show up. */
  lemma AgreeingNeverReported(facts: map<FactId, Fact>, live: set<FactId>, ids: set<FactId>, mismatches: Mismatches,
                              issues: seq<Issue>, issue: Issue)
    requires Report(facts, live, ids, mismatches, issues) && issue in issues
    ensures issue.a in facts && issue.b in facts
    ensures var p, q := facts[issue.a].payload, facts[issue.b].payload;
            p.claimKey == q.claimKey && p.claimValue == q.claimValue && p.subject == q.subject &&
            p.predicate_ == q.predicate_ && p.object_ == q.object_ && SamePolarity(p, q) ==>
            issue.b in p.contradicts || issue.a in q.contradicts || (issue.a, issue.b) in mismatches
  {
    assert Found(facts, live, ids, mismatches, issue);
    ConflictingClaims(facts[issue.a].payload, facts[issue.b].payload);
    ConflictingObjects(facts[issue.a].payload, facts[issue.b].payload);
    hide Claims, Relates, SamePolarity;
  }

  /** A fictional or hypothetical claim never contradicts one about the real world. */
  lemma ScopesDoNotContradict(facts: map<FactId, Fact>, a: FactId, b: FactId, mismatches: Mismatches)
    requires a in facts && b in facts && !facts[a].kind.OtherKind? && !facts[b].kind.OtherKind?
    requires RealWorld(facts[a].kind) != RealWorld(facts[b].kind)
    ensures forall kind :: !Contradicts(facts, a, b, mismatches, kind)
  {}

  ghost predicate Precedes(a: FactId, b: FactId) {
    StringLe(a, b) && a != b
  }

  /** Two known facts among the ids, both live, contradict each other. */
  ghost predicate Found(facts: map<FactId, Fact>, live: set<FactId>, ids: set<FactId>, mismatches: Mismatches,
                        issue: Issue) {
    issue.a in ids && issue.b in ids && Precedes(issue.a, issue.b) &&
    issue.a in facts && issue.b in facts && issue.a in live && issue.b in live &&
    Contradicts(facts, issue.a, issue.b, mismatches, issue.kind)
  }

  ghost function Joined(a: FactId, separator: string, b: FactId): string {
    a + separator + b
  }

  /** The text by which the scan recognises a pair it has reported. */
  ghost function PairKey(issue: Issue): string {
    KindName(issue.kind) + ":" + Joined(issue.a, ":", issue.b)
  }

  lemma KeyParts(x: Issue, y: Issue)
    requires PairKey(x) == PairKey(y)
    ensures x.kind == y.kind && Joined(x.a, ":", x.b) == Joined(y.a, ":", y.b)
  {
    var k, l := KindName(x.kind), KindName(y.kind);
    var p, q := Joined(x.a, ":", x.b), Joined(y.a, ":", y.b);
    assert k[..2] == PairKey(x)[..2] && l[..2] == PairKey(y)[..2] by { hide Joined; }
    KindsDiffer(x.kind, y.kind);
    assert PairKey(x)[|k| + 1..] == p && PairKey(y)[|l| + 1..] == q by { hide Joined, KindName; }
  }

  lemma KindsDiffer(a: IssueKind, b: IssueKind)
    requires KindName(a)[..2] == KindName(b)[..2]
    ensures a == b
  {
    var k, l := KindName(a), KindName(b);
    assert k[..2][0] == k[0] && k[..2][1] == k[1] && l[..2][0] == l[0] && l[..2][1] == l[1];
  }

  /** Every issue is a contradiction, no two share a key, and every contradiction's key is there. */
  ghost predicate Report(facts: map<FactId, Fact>, live: set<FactId>, ids: set<FactId>, mismatches: Mismatches,
                         issues: seq<Issue>) {
    (forall x | x in issues :: Found(facts, live, ids, mismatches, x)) && KeysDiffer(issues) &&
    forall issue | Found(facts, live, ids, mismatches, issue) :: KeyAmong(issues, PairKey(issue))
  }

  ghost predicate KeysDiffer(issues: seq<Issue>) {
    Distinct(issues) && forall x, y | x in issues && y in issues && PairKey(x) == PairKey(y) :: x == y
  }

  ghost predicate KeyAmong(issues: seq<Issue>, key: string) {
    exists x :: x in issues && PairKey(x) == key
  }

  // ---- The scan ---------------------------------------------------------------------------------------

  /** Blank ids dropped, the others once each, in order. */
  method UniqueSortedFactIDs(ids: seq<FactId>) returns (r: seq<FactId>)
    ensures Sorted(r) && Distinct(r)
    ensures forall id :: id in r <==> id in ids && id != ""
  {
    var seen: set<FactId> := {};
    var kept: seq<FactId> := [];
    for i := 0 to |ids|
      invariant Distinct(kept) && forall id :: id in kept <==> id in seen
      invariant forall id :: id in seen <==> id in ids[..i] && id != ""
    {
      if ids[i] != "" && ids[i] !in seen {
        seen := seen + {ids[i]};
        kept := kept + [ids[i]];
      }
      assert ids[..i + 1] == ids[..i] + [ids[i]];
    }
    assert ids[..|ids|] == ids;
    r := SortStrings(kept);
    SortKeepsDistinct(kept);
  }

  method SortedKeys(facts: map<FactId, Fact>) returns (r: seq<FactId>)
    ensures Sorted(r) && Distinct(r)
    ensures forall id :: id in r <==> id in facts
  {
    var todo := facts.Keys;
    var kept: seq<FactId> := [];
    while todo != {}
      invariant todo <= facts.Keys && Distinct(kept)
      invariant forall id :: id in kept <==> id in facts && id !in todo
    {
      var id :| id in todo;
      kept := kept + [id];
      todo := todo - {id};
    }
    r := SortStrings(kept);
    SortKeepsDistinct(kept);
  }

  ghost function LiveAt(e: Engine, includeInvalid: bool, now: int): set<FactId>
    reads e
  {
    set f | f in e.facts && f in e.derived && (includeInvalid || Read(e.W(), f, e.derived[f], now) >= THRESHOLD)
  }

  method IsLive(e: Engine, f: FactId, includeInvalid: bool, now: int) returns (ok: bool)
    requires e.derived.Keys == e.facts.Keys
    ensures ok <==> f in LiveAt(e, includeInvalid, now)
  {
    if f !in e.facts {
      return false;
    }
    var status := e.EffectiveStatus(f, now);
    ok := includeInvalid || status >= THRESHOLD;
  }

  /** Everything found among the first positions has been reported. */
  ghost predicate Scanned(facts: map<FactId, Fact>, live: set<FactId>, ids: seq<FactId>, mismatches: Mismatches,
                          issues: seq<Issue>, i: nat, j: nat)
  {
    (forall x | x in issues :: Found(facts, live, Elements(ids), mismatches, x)) && KeysDiffer(issues) &&
    (forall p, q, kind | 0 <= p < q < |ids| && (p < i || (p == i && q < j)) &&
      Found(facts, live, Elements(ids), mismatches, Issue(kind, ids[p], ids[q])) ::
        KeyAmong(issues, PairKey(Issue(kind, ids[p], ids[q]))))
  }

  lemma ScanEnds(facts: map<FactId, Fact>, live: set<FactId>, ids: seq<FactId>, mismatches: Mismatches,
                 issues: seq<Issue>)
    requires Scanned(facts, live, ids, mismatches, issues, |ids|, 0) && Sorted(ids)
    ensures Report(facts, live, Elements(ids), mismatches, issues)
  {
    hide PairKey, Contradicts, KeyAmong;
    forall issue | Found(facts, live, Elements(ids), mismatches, issue) ensures KeyAmong(issues, PairKey(issue)) {
      var p :| 0 <= p < |ids| && ids[p] == issue.a;
      var q :| 0 <= q < |ids| && ids[q] == issue.b;
      if q < p {
        StringLeAntisymmetric(issue.a, issue.b);
      }
      assert Issue(issue.kind, ids[p], ids[q]) == issue;
    }
  }

  lemma RowSkipped(facts: map<FactId, Fact>, live: set<FactId>, ids: seq<FactId>, mismatches: Mismatches,
                   issues: seq<Issue>, i: nat, j: nat)
    requires Scanned(facts, live, ids, mismatches, issues, i, j) && i < |ids| && (ids[i] !in live || j == |ids|)
    ensures Scanned(facts, live, ids, mismatches, issues, i + 1, 0)
  {
    hide PairKey, Contradicts, KeyAmong;
  }

  lemma RowStarts(facts: map<FactId, Fact>, live: set<FactId>, ids: seq<FactId>, mismatches: Mismatches,
                  issues: seq<Issue>, i: nat)
    requires Scanned(facts, live, ids, mismatches, issues, i, 0)
    ensures Scanned(facts, live, ids, mismatches, issues, i, i + 1)
  {
    hide PairKey, Contradicts, KeyAmong, Found;
  }

  lemma PairSkipped(facts: map<FactId, Fact>, live: set<FactId>, ids: seq<FactId>, mismatches: Mismatches,
                    issues: seq<Issue>, i: nat, j: nat)
    requires Scanned(facts, live, ids, mismatches, issues, i, j) && i < j < |ids|
    requires forall kind | Found(facts, live, Elements(ids), mismatches, Issue(kind, ids[i], ids[j])) ::
      KeyAmong(issues, PairKey(Issue(kind, ids[i], ids[j])))
    ensures Scanned(facts, live, ids, mismatches, issues, i, j + 1)
  {
    hide PairKey, Contradicts, KeyAmong, Found;
  }

  lemma PairAdded(facts: map<FactId, Fact>, live: set<FactId>, ids: seq<FactId>, mismatches: Mismatches,
                  issues: seq<Issue>, i: nat, j: nat, issue: Issue)
    requires Scanned(facts, live, ids, mismatches, issues, i, j) && i < j < |ids|
    requires Found(facts, live, Elements(ids), mismatches, issue) && !KeyAmong(issues, PairKey(issue))
    ensures Scanned(facts, live, ids, mismatches, issues + [issue], i, j)
    ensures KeyAmong(issues + [issue], PairKey(issue))
  {
    hide PairKey, Contradicts, Found;
    assert forall x :: x in issues + [issue] <==> x in issues || x == issue;
  }

  /** One turn of the inner loop. */
  method CheckPair(e: Engine, ids: seq<FactId>, i: nat, j: nat, includeInvalid: bool, now: int, mismatches: Mismatches,
                   issues: seq<Issue>, seenPairs: set<string>) returns (issues': seq<Issue>, seenPairs': set<string>)
    requires e.derived.Keys == e.facts.Keys && i < j < |ids| && Sorted(ids) && Distinct(ids)
    requires ids[i] in LiveAt(e, includeInvalid, now)
    requires Scanned(e.facts, LiveAt(e, includeInvalid, now), ids, mismatches, issues, i, j)
    requires forall key :: key in seenPairs <==> KeyAmong(issues, key)
    ensures Scanned(e.facts, LiveAt(e, includeInvalid, now), ids, mismatches, issues', i, j + 1)
    ensures forall key :: key in seenPairs' <==> KeyAmong(issues', key)
  {
    hide Scanned, PairKey, Contradiction, Contradicts, KeyAmong;
    ghost var live := LiveAt(e, includeInvalid, now);
    assert ids[i] in e.facts && Precedes(ids[i], ids[j]) && ids[i] in Elements(ids) && ids[j] in Elements(ids);
    issues', seenPairs' := issues, seenPairs;
    var ok := IsLive(e, ids[j], includeInvalid, now);
    if !ok {
      PairSkipped(e.facts, live, ids, mismatches, issues, i, j);
      return;
    }
    ContradictionExactly(e.facts, ids[i], ids[j], mismatches);
    var kind := Contradiction(e.facts, ids[i], ids[j], mismatches);
    if kind.None? {
      PairSkipped(e.facts, live, ids, mismatches, issues, i, j);
      return;
    }
    var issue := Issue(kind.value, ids[i], ids[j]);
    var pairKey := KindName(issue.kind) + ":" + ids[i] + ":" + ids[j];
    KeyIs(issue, pairKey);
    if pairKey !in seenPairs {
      seenPairs' := seenPairs + {pairKey};
      issues' := issues + [issue];
      PairAdded(e.facts, live, ids, mismatches, issues, i, j, issue);
      KeysGrow(issues, issue);
    }
    PairSkipped(e.facts, live, ids, mismatches, issues', i, j);
  }

  lemma KeyIs(issue: Issue, text: string)
    requires text == KindName(issue.kind) + ":" + issue.a + ":" + issue.b
    ensures text == PairKey(issue)
  {
    var kind := KindName(issue.kind);
    assert kind + ":" + (issue.a + ":" + issue.b) == kind + ":" + issue.a + ":" + issue.b;
  }

  lemma KeysGrow(issues: seq<Issue>, issue: Issue)
    ensures forall key :: KeyAmong(issues + [issue], key) <==> KeyAmong(issues, key) || key == PairKey(issue)
  {
    assert forall x :: x in issues + [issue] <==> x in issues || x == issue;
  }

  /** The pairwise scan over sorted ids. */
  method ConsistencyIssuesForIDs(e: Engine, ids: seq<FactId>, includeInvalid: bool, now: int, mismatches: Mismatches)
    returns (issues: seq<Issue>)
    requires e.derived.Keys == e.facts.Keys && Sorted(ids) && Distinct(ids)
    ensures Report(e.facts, LiveAt(e, includeInvalid, now), Elements(ids), mismatches, issues)
    ensures Ordered(issues)
  {
    ghost var live := LiveAt(e, includeInvalid, now);
    hide Scanned, PairKey, Contradicts, LiveAt, Report, Ordered;
    issues := [];
    var seenPairs: set<string> := {};
    NothingScanned(e.facts, live, ids, mismatches);
    for i := 0 to |ids|
      invariant Scanned(e.facts, live, ids, mismatches, issues, i, 0)
      invariant forall key :: key in seenPairs <==> KeyAmong(issues, key)
    {
      var ok := IsLive(e, ids[i], includeInvalid, now);
      if ok {
        RowStarts(e.facts, live, ids, mismatches, issues, i);
        for j := i + 1 to |ids|
          invariant Scanned(e.facts, live, ids, mismatches, issues, i, j)
          invariant forall key :: key in seenPairs <==> KeyAmong(issues, key)
        {
          issues, seenPairs := CheckPair(e, ids, i, j, includeInvalid, now, mismatches, issues, seenPairs);
        }
        RowSkipped(e.facts, live, ids, mismatches, issues, i, |ids|);
      } else {
        RowSkipped(e.facts, live, ids, mismatches, issues, i, 0);
      }
    }
    ScanEnds(e.facts, live, ids, mismatches, issues);
    ghost var unsorted := issues;
    issues := SortIssues(issues);
    SortIssuesSorts(unsorted);
    ReportReordered(e.facts, live, Elements(ids), mismatches, unsorted, issues);
  }

  lemma ReportReordered(facts: map<FactId, Fact>, live: set<FactId>, ids: set<FactId>, mismatches: Mismatches,
                        issues: seq<Issue>, sorted: seq<Issue>)
    requires Report(facts, live, ids, mismatches, issues) && multiset(sorted) == multiset(issues)
    ensures Report(facts, live, ids, mismatches, sorted)
  {
    hide Found, PairKey;
    SameMultisetSameElements(sorted, issues);
    DistinctCardinality(issues);
    DistinctCardinality(sorted);
    assert Elements(sorted) == Elements(issues);
  }

  lemma NothingScanned(facts: map<FactId, Fact>, live: set<FactId>, ids: seq<FactId>, mismatches: Mismatches)
    ensures Scanned(facts, live, ids, mismatches, [], 0, 0)
    ensures forall key :: !KeyAmong([], key)
  {}

  // ---- The order of the report ---------------------------------------------------------------------------

  function Severity(issue: Issue): string {
    if issue.kind.SemanticNegationConflict? then "medium" else "high"
  }

  /** By severity, then by the joined ids. */
  predicate IssueLe(x: Issue, y: Issue) {
    if Severity(x) == Severity(y) then StringLe(x.a + "," + x.b, y.a + "," + y.b)
    else StringLe(Severity(x), Severity(y))
  }

  lemma IssueLeTransitive(x: Issue, y: Issue, z: Issue)
    requires IssueLe(x, y) && IssueLe(y, z)
    ensures IssueLe(x, z)
  {
    SeverityOrder();
    if Severity(x) == Severity(y) == Severity(z) {
      StringLeTransitive(x.a + "," + x.b, y.a + "," + y.b, z.a + "," + z.b);
    }
  }

  lemma IssueLeTotal(x: Issue, y: Issue)
    ensures IssueLe(x, y) || IssueLe(y, x)
  {
    SeverityOrder();
    StringLeTotal(x.a + "," + x.b, y.a + "," + y.b);
  }

  lemma SeverityOrder()
    ensures StringLe("high", "medium") && !StringLe("medium", "high")
  {
    assert "high"[0] == 'h' && "medium"[0] == 'm';
  }

  function InsertIssue(x: Issue, s: seq<Issue>): seq<Issue> {
    if s == [] then [x] else if IssueLe(x, s[0]) then [x] + s else [s[0]] + InsertIssue(x, s[1..])
  }

  function SortIssues(s: seq<Issue>): seq<Issue> {
    if s == [] then [] else InsertIssue(s[0], SortIssues(s[1..]))
  }

  lemma {:induction false} InsertIssueMembers(x: Issue, s: seq<Issue>)
    ensures multiset(InsertIssue(x, s)) == multiset(s) + multiset{x}
  {
    if s != [] && !IssueLe(x, s[0]) {
      InsertIssueMembers(x, s[1..]);
      assert s == [s[0]] + s[1..];
    }
  }

  /** Semantic conflicts come last; otherwise the joined ids decide. */
  ghost predicate ListedBefore(x: Issue, y: Issue) {
    if x.kind.SemanticNegationConflict? then
      y.kind.SemanticNegationConflict? && StringLe(Joined(x.a, ",", x.b), Joined(y.a, ",", y.b))
    else y.kind.SemanticNegationConflict? || StringLe(Joined(x.a, ",", x.b), Joined(y.a, ",", y.b))
  }

  lemma IssueOrder(x: Issue, y: Issue)
    ensures IssueLe(x, y) <==> ListedBefore(x, y)
  {
    SeverityOrder();
    hide StringLe;
  }

  ghost predicate Ordered(s: seq<Issue>) {
    forall i, k | 0 <= i < k < |s| :: ListedBefore(s[i], s[k])
  }

  lemma {:induction false} InsertIssueOrders(x: Issue, s: seq<Issue>)
    requires Ordered(s)
    ensures Ordered(InsertIssue(x, s))
  {
    forall y, z ensures IssueLe(y, z) <==> ListedBefore(y, z) { IssueOrder(y, z); }
    hide IssueLe, ListedBefore;
    if s == [] {
    } else if IssueLe(x, s[0]) {
      forall k | 0 <= k < |s| ensures IssueLe(x, s[k]) {
        if k > 0 { IssueLeTransitive(x, s[0], s[k]); }
      }
    } else {
      IssueLeTotal(x, s[0]);
      InsertIssueOrders(x, s[1..]);
      InsertIssueMembers(x, s[1..]);
      var rest := InsertIssue(x, s[1..]);
      forall k | 0 <= k < |rest| ensures IssueLe(s[0], rest[k]) {
        assert rest[k] in multiset(rest);
        assert rest[k] == x || rest[k] in s[1..];
      }
    }
  }

  lemma {:induction false} SortIssuesSorts(s: seq<Issue>)
    ensures Ordered(SortIssues(s)) && multiset(SortIssues(s)) == multiset(s)
  {
    if s != [] {
      SortIssuesSorts(s[1..]);
      InsertIssueOrders(s[0], SortIssues(s[1..]));
      InsertIssueMembers(s[0], SortIssues(s[1..]));
      assert s == [s[0]] + s[1..];
    }
  }

  ghost function CheckedIDs(facts: map<FactId, Fact>, ids: seq<FactId>): set<FactId> {
    if NamedIDs(ids) == {} then facts.Keys else NamedIDs(ids)
  }

  ghost function NamedIDs(ids: seq<FactId>): set<FactId> {
    set id | id in ids && id != ""
  }

  lemma CheckedNamed(facts: map<FactId, Fact>, ids: seq<FactId>, checked: seq<FactId>)
    requires forall id :: id in checked <==> id in ids && id != ""
    ensures CheckedIDs(facts, ids) == if checked == [] then facts.Keys else Elements(checked)
  {
    assert Elements(checked) == NamedIDs(ids);
    if checked != [] {
      assert checked[0] in Elements(checked);
    } else {
      assert Elements(checked) == {};
    }
  }

  /** Checks the named facts, or all of them when none is named. */
  method CheckConsistency(e: Engine, factIDs: seq<FactId>, includeInvalid: bool, now: int, mismatches: Mismatches)
    returns (checkedIDs: seq<FactId>, issues: seq<Issue>)
    requires e.derived.Keys == e.facts.Keys
    ensures Sorted(checkedIDs) && Distinct(checkedIDs) && Elements(checkedIDs) == CheckedIDs(e.facts, factIDs)
    ensures Report(e.facts, LiveAt(e, includeInvalid, now), CheckedIDs(e.facts, factIDs), mismatches, issues)
    ensures Ordered(issues)
  {
    checkedIDs := UniqueSortedFactIDs(factIDs);
    CheckedNamed(e.facts, factIDs, checkedIDs);
    if |checkedIDs| == 0 {
      checkedIDs := SortedKeys(e.facts);
    }
    issues := ConsistencyIssuesForIDs(e, checkedIDs, includeInvalid, now, mismatches);
  }

  // ---- Automatic retraction ------------------------------------------------------------------------------

  /** How firmly a fact is held: as far as it says, or else as its label does. */
  function EffectiveEntrenchment(fact: Fact): (r: real)
    ensures 0.0 <= r <= 1.0
    ensures 0.0 < fact.entrenchment <= 1.0 ==> r == fact.entrenchment
    ensures 1.0 < fact.entrenchment ==> r == 1.0
    ensures fact.entrenchment <= 0.0 ==> (r == 0.95 <==> fact.entrenchmentLabel == "high")
    ensures fact.entrenchment <= 0.0 ==> (r == 0.75 <==> fact.entrenchmentLabel == "medium")
    ensures fact.entrenchment <= 0.0 ==> r == 0.95 || r == 0.75 || r == 0.0
  {
    if fact.entrenchment > 0.0 then if fact.entrenchment > 1.0 then 1.0 else fact.entrenchment
    else if fact.entrenchmentLabel == "high" then 0.95
    else if fact.entrenchmentLabel == "medium" then 0.75
    else 0.0
  }

  /** The less entrenched side; the first one on a tie. */
  ghost function Loser(facts: map<FactId, Fact>, issue: Issue): FactId
    requires issue.a in facts && issue.b in facts
  {
    if EffectiveEntrenchment(facts[issue.a]) <= EffectiveEntrenchment(facts[issue.b]) then issue.a else issue.b
  }

  ghost function BarKey(issue: Issue): string {
    Joined(issue.a, "|", issue.b)
  }

  ghost predicate IsFirst(issues: seq<Issue>, i: int) {
    0 <= i < |issues| && forall k | 0 <= k < i :: BarKey(issues[k]) != BarKey(issues[i])
  }

  /** The facts that the first n issues cost: one for each key seen for the first time. */
  ghost function LosersOf(facts: map<FactId, Fact>, issues: seq<Issue>, n: nat): set<FactId> {
    set i | 0 <= i < n && IsFirst(issues, i) && issues[i].a in facts && issues[i].b in facts :: Loser(facts, issues[i])
  }

  const AUTO_RETRACT: string := "auto_retract_contradiction"

  ghost function MarkLosers(retracted: map<FactId, string>, losers: set<FactId>): map<FactId, string> {
    retracted + map f | f in losers :: "auto_retract_contradiction"
  }

  /** The same facts, up to their review fields. */
  ghost predicate SameButReview(facts: map<FactId, Fact>, facts': map<FactId, Fact>) {
    facts'.Keys == facts.Keys &&
    forall f | f in facts :: facts'[f] ==
      facts[f].(review := facts'[f].review, requiresHumanReview := facts'[f].requiresHumanReview)
  }

  const DETECTED: string := "contradiction_detected"

  /** The ids the first n issues name, blank ones aside. */
  ghost function NamedIn(issues: seq<Issue>, n: nat): set<FactId>
    requires n <= |issues|
  {
    if n == 0 then {} else NamedIn(issues, n - 1) + ({issues[n - 1].a, issues[n - 1].b} - {""})
  }

  /** The named facts wait for a review. */
  ghost function Flagged(facts: map<FactId, Fact>, named: set<FactId>, now: int): map<FactId, Fact> {
    map f | f in facts :: if f in named then Reviewed(facts[f], Pending, "contradiction_detected", now) else facts[f]
  }

  ghost function FlaggedIf(flagging: bool, facts: map<FactId, Fact>, issues: seq<Issue>, now: int): map<FactId, Fact> {
    Flagged(facts, if flagging then NamedIn(issues, |issues|) else {}, now)
  }

  lemma NothingFlagged(facts: map<FactId, Fact>, now: int)
    ensures Flagged(facts, {}, now) == facts
  {}

  lemma FlagOne(facts: map<FactId, Fact>, named: set<FactId>, now: int, f: FactId)
    requires f !in named
    ensures var before := Flagged(facts, named, now);
            Flagged(facts, named + {f}, now) ==
            if f in facts then before[f := Reviewed(before[f], Pending, DETECTED, now)] else before
  {
    hide Reviewed;
  }

  lemma FlaggedReviewOnly(facts: map<FactId, Fact>, named: set<FactId>, now: int)
    ensures SameButReview(facts, Flagged(facts, named, now))
  {}

  /** Puts every fact an issue names under review, once. */
  method FlagFactsForReview(e: Engine, issues: seq<Issue>, now: int)
    requires e.Valid() && e.clock <= now
    modifies e`facts, e`clock
    ensures e.Valid() && e.clock <= now && e.facts == Flagged(old(e.facts), NamedIn(issues, |issues|), now)
  {
    hide *;
    NothingFlagged(e.facts, now);
    ghost var facts := e.facts;
    var seen: set<FactId> := {};
    NamedInOne(issues, 0);
    for i := 0 to |issues|
      invariant e.Valid() && e.clock <= now && seen == NamedIn(issues, i) && e.facts == Flagged(facts, seen, now)
    {
      NamedInOne(issues, i);
      seen := FlagFact(e, issues[i].a, seen, now, facts);
      seen := FlagFact(e, issues[i].b, seen, now, facts);
    }
  }

  lemma NamedInOne(issues: seq<Issue>, n: nat)
    requires n <= |issues|
    ensures NamedIn(issues, 0) == {}
    ensures n < |issues| ==>
      NamedIn(issues, n + 1) == NamedIn(issues, n) + ({issues[n].a} - {""}) + ({issues[n].b} - {""})
  {
    if n < |issues| {
      assert {issues[n].a, issues[n].b} - {""} == ({issues[n].a} - {""}) + ({issues[n].b} - {""});
    }
  }

  method FlagFact(e: Engine, f: FactId, seen: set<FactId>, now: int, ghost facts0: map<FactId, Fact>)
    returns (seen': set<FactId>)
    requires e.Valid() && e.clock <= now && e.facts == Flagged(facts0, seen, now)
    modifies e`facts, e`clock
    ensures e.Valid() && e.clock <= now && seen' == seen + ({f} - {""}) && e.facts == Flagged(facts0, seen', now)
  {
    seen' := seen;
    if f == "" || f in seen {
      return;
    }
    assert f in e.facts <==> f in facts0;
    hide Engine.Valid, Reviewed, Flagged;
    seen' := seen + {f};
    FlagOne(facts0, seen, now, f);
    var _ := e.SetFactReview(f, Pending, DETECTED, now, now);
  }

  lemma LosersStart(facts: map<FactId, Fact>, issues: seq<Issue>, retracted: map<FactId, string>)
    ensures LosersOf(facts, issues, 0) == {} && MarkLosers(retracted, {}) == retracted
  {}

  lemma LosersContinue(facts: map<FactId, Fact>, issues: seq<Issue>, n: nat)
    requires n < |issues|
    ensures LosersOf(facts, issues, n + 1) ==
            if IsFirst(issues, n) && issues[n].a in facts && issues[n].b in facts
            then LosersOf(facts, issues, n) + {Loser(facts, issues[n])} else LosersOf(facts, issues, n)
  {
    hide IsFirst, Loser;
  }

  lemma MarkContinues(retracted: map<FactId, string>, losers: set<FactId>, f: FactId)
    ensures MarkLosers(retracted, losers + {f}) == MarkLosers(retracted, losers)[f := AUTO_RETRACT]
  {}

  lemma SameLoser(facts: map<FactId, Fact>, facts': map<FactId, Fact>, issue: Issue)
    requires SameButReview(facts, facts') && issue.a in facts && issue.b in facts
    ensures issue.a in facts' && issue.b in facts' && Loser(facts', issue) == Loser(facts, issue)
  {}

  ghost predicate KeysSeen(issues: seq<Issue>, n: nat, seen: set<string>) {
    n <= |issues| && forall key :: key in seen <==> exists k :: 0 <= k < n && BarKey(issues[k]) == key
  }

  lemma SeenContinues(issues: seq<Issue>, n: nat, seen: set<string>)
    requires KeysSeen(issues, n, seen) && n < |issues|
    ensures BarKey(issues[n]) in seen <==> !IsFirst(issues, n)
    ensures KeysSeen(issues, n + 1, seen + {BarKey(issues[n])})
  {
    hide BarKey;
  }

  /** The engine before the pass. */
  datatype Before = Before(facts: map<FactId, Fact>, retracted: map<FactId, string>, sets: Sets, stamp: map<SetId, int>)

  ghost function Now(e: Engine): Before
    reads e
  {
    Before(e.facts, e.retracted, e.sets, e.stamp)
  }

  /** The first n issues have been acted on: their losers, and nothing else, were retracted. */
  ghost predicate ActedOn(b: Before, b': Before, issues: seq<Issue>, n: nat) {
    SameButReview(b.facts, b'.facts) && b'.retracted == MarkLosers(b.retracted, LosersOf(b.facts, issues, n)) &&
    Kept(b.sets, b.stamp, b'.sets, b'.stamp)
  }

  lemma ActionStarts(b: Before, b': Before, issues: seq<Issue>)
    requires SameButReview(b.facts, b'.facts) && b'.retracted == b.retracted && b'.sets == b.sets && b'.stamp == b.stamp
    ensures ActedOn(b, b', issues, 0)
  {
    LosersStart(b.facts, issues, b.retracted);
    SameSetsKept(b.sets, b.stamp);
  }

  lemma ActionContinues(b: Before, b1: Before, b2: Before, issues: seq<Issue>, n: nat)
    requires ActedOn(b, b1, issues, n) && n < |issues| && b2.facts == b1.facts
    requires Kept(b1.sets, b1.stamp, b2.sets, b2.stamp)
    requires b2.retracted == if IsFirst(issues, n) && issues[n].a in b1.facts && issues[n].b in b1.facts
                             then b1.retracted[Loser(b1.facts, issues[n]) := AUTO_RETRACT] else b1.retracted
    ensures ActedOn(b, b2, issues, n + 1)
  {
    KeptTwice(b.sets, b.stamp, b1.sets, b1.stamp, b2.sets, b2.stamp);
    LosersContinue(b.facts, issues, n);
    assert b.facts.Keys == b1.facts.Keys;
    if issues[n].a in b1.facts && issues[n].b in b1.facts {
      SameLoser(b.facts, b1.facts, issues[n]);
      hide MarkLosers, LosersOf, Kept, Loser, IsFirst, SameButReview;
      MarkContinues(b.retracted, LosersOf(b.facts, issues, n), Loser(b.facts, issues[n]));
    }
  }

  /** One turn of the retraction loop. */
  method ResolveIssue(e: Engine, issues: seq<Issue>, n: nat, seen: set<string>, last: int, ghost b: Before)
    returns (seen': set<string>, now: int)
    requires e.Valid() && e.clock <= last && n < |issues| && KeysSeen(issues, n, seen) && ActedOn(b, Now(e), issues, n)
    modifies e`retracted, e`derived, e`sets, e`stamp, e`clock
    ensures e.Valid() && last <= now && e.clock <= now && KeysSeen(issues, n + 1, seen')
    ensures ActedOn(b, Now(e), issues, n + 1)
  {
    hide Engine.Consistent, Engine.DominatorsCurrent, ActedOn, KeysSeen, IsFirst, Kept, EffectiveEntrenchment;
    now := last;
    ghost var b1 := Now(e);
    SameSetsKept(e.sets, e.stamp);
    SeenContinues(issues, n, seen);
    var issue := issues[n];
    var pairKey := issue.a + "|" + issue.b;
    if pairKey !in seen && issue.a in e.facts && issue.b in e.facts {
      var toRetract := issue.a;
      if EffectiveEntrenchment(e.facts[issue.a]) > EffectiveEntrenchment(e.facts[issue.b]) {
        toRetract := issue.b;
      }
      now :| last <= now;
      var _ := e.RetractFact(toRetract, AUTO_RETRACT, now);
    }
    ActionContinues(b, b1, Now(e), issues, n);
    seen' := seen + {pairKey};
  }

  method ResolveIssues(e: Engine, issues: seq<Issue>, now: int, ghost b: Before) returns (last: int)
    requires e.Valid() && e.clock <= now && ActedOn(b, Now(e), issues, 0)
    modifies e`retracted, e`derived, e`sets, e`stamp, e`clock
    ensures e.Valid() && now <= last && e.clock <= last && ActedOn(b, Now(e), issues, |issues|)
  {
    var seen: set<string> := {};
    hide Engine.Valid, ActedOn, Now, BarKey;
    last := now;
    for n := 0 to |issues|
      invariant e.Valid() && now <= last && e.clock <= last && KeysSeen(issues, n, seen)
      invariant ActedOn(b, Now(e), issues, n)
    {
      seen, last := ResolveIssue(e, issues, n, seen, last, b);
    }
  }

  method FlagIfEnabled(e: Engine, issues: seq<Issue>, flagging: bool, now: int)
    requires e.Valid() && e.clock <= now
    modifies e`facts, e`clock
    ensures e.Valid() && e.clock <= now && ActedOn(old(Now(e)), Now(e), issues, 0)
    ensures e.facts == FlaggedIf(flagging, old(e.facts), issues, now)
  {
    hide Engine.Valid, ActedOn, SameButReview, Flagged;
    NothingFlagged(e.facts, now);
    if flagging && |issues| > 0 {
      FlagFactsForReview(e, issues, now);
    }
    FlaggedReviewOnly(old(e.facts), if flagging then NamedIn(issues, |issues|) else {}, now);
    ActionStarts(old(Now(e)), Now(e), issues);
  }

  /** Checks the asserted facts, flags what was found, and retracts the weaker side of each pair. The issues of a
      verifier, if there is one, come after those of the check and can name any facts. */
  method AutoRetractContradictions(e: Engine, assertedIDs: seq<FactId>, verifierIssues: seq<Issue>, flagging: bool,
                                   mismatches: Mismatches, now: int) returns (found: seq<Issue>, last: int)
    requires e.Valid() && e.clock <= now
    modifies e`facts, e`retracted, e`derived, e`sets, e`stamp, e`clock
    ensures e.Valid() && now <= last && e.clock <= last
    ensures Report(old(e.facts), old(LiveAt(e, false, now)), CheckedIDs(old(e.facts), assertedIDs), mismatches, found)
    ensures ActedOn(old(Now(e)), Now(e), found + verifierIssues, |found + verifierIssues|)
    ensures e.facts == FlaggedIf(flagging, old(e.facts), found + verifierIssues, now)
  {
    hide *;
    EngineKeys(e);
    ghost var b := Now(e);
    var checkedIDs;
    checkedIDs, found := CheckConsistency(e, assertedIDs, false, now, mismatches);
    var issues := found + verifierIssues;
    FlagIfEnabled(e, issues, flagging, now);
    last := ResolveIssues(e, issues, now, b);
  }

  lemma EngineKeys(e: Engine)
    requires e.Valid()
    ensures e.derived.Keys == e.facts.Keys
  {}

  // ---- One pass suffices ---------------------------------------------------------------------------------

  /** No two different pairs of these ids read the same once joined. */
  ghost predicate Unambiguous(ids: set<FactId>, separator: string) {
    forall a, b, c, d | a in ids && b in ids && c in ids && d in ids && Precedes(a, b) && Precedes(c, d) &&
      Joined(a, separator, b) == Joined(c, separator, d) :: a == c && b == d
  }

  /** Both texts used to recognise a pair tell all pairs of these ids apart. */
  ghost predicate PairsTold(ids: set<FactId>) {
    Unambiguous(ids, ":") && Unambiguous(ids, "|")
  }

  lemma {:induction false} FirstWithKey(issues: seq<Issue>, i: nat) returns (k: nat)
    requires i < |issues|
    ensures k <= i && IsFirst(issues, k) && BarKey(issues[k]) == BarKey(issues[i])
  {
    hide BarKey;
    if IsFirst(issues, i) {
      k := i;
    } else {
      var l :| 0 <= l < i && BarKey(issues[l]) == BarKey(issues[i]);
      k := FirstWithKey(issues, l);
    }
  }

  /** When keys are unambiguous, every contradiction lost one of its two facts. */
  lemma EveryPairLoses(facts: map<FactId, Fact>, live: set<FactId>, ids: set<FactId>, mismatches: Mismatches,
                       found: seq<Issue>, more: seq<Issue>, issue: Issue)
    requires Report(facts, live, ids, mismatches, found) && Found(facts, live, ids, mismatches, issue)
    requires PairsTold(ids)
    ensures Loser(facts, issue) in LosersOf(facts, found + more, |found + more|)
    ensures EffectiveEntrenchment(facts[Loser(facts, issue)]) <= EffectiveEntrenchment(facts[issue.a])
    ensures EffectiveEntrenchment(facts[Loser(facts, issue)]) <= EffectiveEntrenchment(facts[issue.b])
  {
    hide PairKey, Contradicts, Joined;
    var all := found + more;
    assert KeyAmong(found, PairKey(issue));
    var x :| x in found && PairKey(x) == PairKey(issue);
    KeyParts(x, issue);
    assert Found(facts, live, ids, mismatches, x);
    assert x == issue;
    var i :| 0 <= i < |found| && found[i] == issue;
    assert all[i] == issue;
    var k := FirstWithKey(all, i);
    assert all[k] in found;
    assert Found(facts, live, ids, mismatches, all[k]);
    assert all[k].a == issue.a && all[k].b == issue.b;
    assert Loser(facts, all[k]) in LosersOf(facts, all, |all|);
  }

  /** Nothing is found any more among facts none of which is a loser or was not live before. */
  lemma NothingLeft(facts: map<FactId, Fact>, facts': map<FactId, Fact>,
                    live: set<FactId>, live': set<FactId>, ids: set<FactId>, mismatches: Mismatches,
                    found: seq<Issue>, more: seq<Issue>, issue: Issue)
    requires Report(facts, live, ids, mismatches, found) && SameButReview(facts, facts')
    requires PairsTold(ids)
    requires live' <= live - LosersOf(facts, found + more, |found + more|)
    ensures !Found(facts', live', ids, mismatches, issue)
  {
    hide Report, PairsTold, LosersOf;
    if Found(facts', live', ids, mismatches, issue) {
      assert issue.a in facts && issue.b in facts;
      assert Found(facts, live, ids, mismatches, issue);
      EveryPairLoses(facts, live, ids, mismatches, found, more, issue);
    }
  }

  ghost function LiveOf(w: World, derived: map<FactId, Status>, now: int): set<FactId> {
    set f | f in w.facts && f in derived && Read(w, f, derived[f], now) >= THRESHOLD
  }

  /** Without negation, no fact comes alive by retracting more and reading later. */
  lemma LiveShrinks(w1: World, derived1: map<FactId, Status>, at1: map<SetId, int>, now1: int,
                    w2: World, derived2: map<FactId, Status>, at2: map<SetId, int>, now2: int)
    requires Ranked(w1) && Ranked(w2) && NegationFree(w1) && MoreRetracted(w1, w2) && LaterReads(w1, at1, at2)
    requires now1 <= now2
    requires forall f | f in w1.facts :: f in derived1 && derived1[f] == Eval(w1, at1, f)
    requires forall f | f in w2.facts :: f in derived2 && derived2[f] == Eval(w2, at2, f)
    ensures LiveOf(w2, derived2, now2) <= LiveOf(w1, derived1, now1) - (w2.retracted.Keys - w1.retracted.Keys)
  {
    hide Ranked, NegationFree, LaterReads, Eval;
    forall f | f in LiveOf(w2, derived2, now2)
      ensures f in LiveOf(w1, derived1, now1) - (w2.retracted.Keys - w1.retracted.Keys)
    {
      assert SameLogic(w1.facts[f], w2.facts[f]);
      RetractionLowers(w1, at1, w2, at2, f);
    }
  }

  lemma ActionRetracts(w: World, w': World, b: Before, b': Before, issues: seq<Issue>)
    requires ActedOn(b, b', issues, |issues|) && b.facts == w.facts && b'.facts == w'.facts
    requires b.retracted == w.retracted && b'.retracted == w'.retracted
    ensures MoreRetracted(w, w') && w'.retracted.Keys == w.retracted.Keys + LosersOf(w.facts, issues, |issues|)
    ensures SameButReview(w.facts, w'.facts)
  {
    hide LosersOf, Kept;
  }

  lemma LaterStamps(w: World, sets: Sets, children: Children, stamp: map<SetId, int>, sets': Sets,
                    stamp': map<SetId, int>)
    requires Shape(w, sets, children) && Kept(sets, stamp, sets', stamp')
    ensures LaterReads(w, stamp, stamp')
  {
    forall f, i: nat | f in w.facts && !w.facts[f].isRoot && i < |w.facts[f].tokens|
      ensures ReadAt(stamp, SetId(f, i)) <= ReadAt(stamp', SetId(f, i))
    {
      assert IsSetId(w, SetId(f, i));
    }
  }

  ghost predicate Evaluated(w: World, derived: map<FactId, Status>, at: map<SetId, int>) {
    Ranked(w) && forall f | f in w.facts :: f in derived && derived[f] == Eval(w, at, f)
  }

  /** The engine's state, as the lemmas below see it. */
  lemma EngineState(e: Engine)
    requires e.Valid()
    ensures Evaluated(e.W(), e.derived, e.stamp) && Shape(e.W(), e.sets, e.children)
    ensures Now(e) == Before(e.W().facts, e.W().retracted, e.sets, e.stamp)
    ensures e.W().facts == e.facts && e.derived.Keys == e.facts.Keys
    ensures forall now :: LiveAt(e, false, now) == LiveOf(e.W(), e.derived, now)
  {
    EngineKeys(e);
    assert Ranked(e.W()) && Shape(e.W(), e.sets, e.children) && e.Consistent();
    forall now ensures LiveAt(e, false, now) == LiveOf(e.W(), e.derived, now) {
      LiveIs(e, now);
    }
    hide Ranked, Shape, WellBuilt, Settled, Engine.Valid, Engine.Consistent, Eval, LiveAt, LiveOf, Evaluated;
    AllAreEval(e);
  }

  lemma LiveIs(e: Engine, now: int)
    ensures LiveAt(e, false, now) == LiveOf(e.W(), e.derived, now)
  {}

  lemma AllAreEval(e: Engine)
    requires e.Consistent() && Ranked(e.W())
    ensures Evaluated(e.W(), e.derived, e.stamp)
  {
    hide Ranked, Engine.Consistent, Eval;
    forall f | f in e.W().facts ensures f in e.derived && e.derived[f] == Eval(e.W(), e.stamp, f) {
      EngineIsEval(e, f);
    }
  }

  lemma LiveIsUnretracted(w: World, derived: map<FactId, Status>, now: int)
    ensures LiveOf(w, derived, now) !! w.retracted.Keys
  {}

  /** The argument that one pass suffices, on values. */
  lemma PassSuffices(w: World, derived: map<FactId, Status>, b: Before, children: Children, now: int,
                     w': World, derived': map<FactId, Status>, b': Before, later: int,
                     ids: set<FactId>, mismatches: Mismatches, found: seq<Issue>, more: seq<Issue>, again: seq<Issue>)
    requires Evaluated(w, derived, b.stamp) && Shape(w, b.sets, children)
    requires b == Before(w.facts, w.retracted, b.sets, b.stamp)
    requires Evaluated(w', derived', b'.stamp) && b' == Before(w'.facts, w'.retracted, b'.sets, b'.stamp)
    requires ActedOn(b, b', found + more, |found + more|) && now <= later
    requires Report(w.facts, LiveOf(w, derived, now), ids, mismatches, found)
    requires Report(w'.facts, LiveOf(w', derived', later), ids, mismatches, again)
    requires NegationFree(w) && PairsTold(ids)
    ensures again == []
  {
    ActionRetracts(w, w', b, b', found + more);
    LaterStamps(w, b.sets, children, b.stamp, b'.sets, b'.stamp);
    hide Shape, ActedOn, Ranked, NegationFree, LaterReads, Eval, LosersOf, PairsTold, LiveOf, MoreRetracted,
         SameButReview;
    LiveShrinks(w, derived, b.stamp, now, w', derived', b'.stamp, later);
    LiveIsUnretracted(w, derived, now);
    if again != [] {
      assert again[0] in again;
      NothingLeft(w.facts, w'.facts, LiveOf(w, derived, now), LiveOf(w', derived', later), ids, mismatches, found, more,
                  again[0]);
    }
  }

  lemma SameChecked(b: Before, b': Before, issues: seq<Issue>, n: nat, ids: seq<FactId>)
    requires ActedOn(b, b', issues, n)
    ensures CheckedIDs(b'.facts, ids) == CheckedIDs(b.facts, ids) && SameButReview(b.facts, b'.facts)
  {
    hide LosersOf, Kept, MarkLosers;
  }

  /** One pass of automatic retraction suffices: in a negation-free engine whose ids join unambiguously, checking the
      same ids again, at any later time, finds nothing. */
  method RetractThenRecheck(e: Engine, assertedIDs: seq<FactId>, verifierIssues: seq<Issue>, flagging: bool,
                            mismatches: Mismatches, now: int)
    returns (again: seq<Issue>)
    requires e.Valid() && e.clock <= now
    modifies e`facts, e`retracted, e`derived, e`sets, e`stamp, e`clock
    ensures e.Valid() && SameButReview(old(e.facts), e.facts)
    ensures old(NegationFree(e.W())) && PairsTold(CheckedIDs(old(e.facts), assertedIDs)) ==> again == []
  {
    hide *;
    ghost var w, derived, b, ids := e.W(), e.derived, Now(e), CheckedIDs(e.facts, assertedIDs);
    EngineState(e);
    var found, last := AutoRetractContradictions(e, assertedIDs, verifierIssues, flagging, mismatches, now);
    EngineState(e);
    SameChecked(b, Now(e), found + verifierIssues, |found + verifierIssues|, assertedIDs);
    var later :| last <= later;
    var checkedIDs;
    checkedIDs, again := CheckConsistency(e, assertedIDs, false, later, mismatches);
    if NegationFree(w) && PairsTold(ids) {
      PassSuffices(w, derived, b, e.children, now, e.W(), e.derived, Now(e), later, ids, mismatches, found,
                   verifierIssues, again);
    }
  }

  // ---- When it does not ----------------------------------------------------------------------------------

  /** A root that declares the given contradictions and nothing else. */
  function Claim(contradicts: seq<FactId>, entrenchment: real): Fact {
    Bare(true, VALID, Empirical, []).(payload := BLANK.(contradicts := contradicts), entrenchment := entrenchment)
  }

  /** Among these facts, all of them valid roots, a pass over the ids leaves a contradiction standing. */
  ghost predicate Escapes(facts: map<FactId, Fact>, ids: set<FactId>, found: seq<Issue>, left: Issue) {
    (forall f | f in facts :: facts[f].isRoot && facts[f].manual == VALID && facts[f].tokens == []) &&
    Report(facts, facts.Keys, ids, {}, found) &&
    Found(facts, facts.Keys - LosersOf(facts, found, |found|), ids, {}, left)
  }

  ghost predicate CanEscape(ids: set<FactId>) {
    exists facts, found, left :: Escapes(facts, ids, found, left)
  }

  function Four(a: FactId, b: FactId, c: FactId, d: FactId): set<FactId> {
    {a, b, c, d}
  }

  function Targets(a: FactId, b: FactId, c: FactId, d: FactId, f: FactId): seq<FactId> {
    if f == a then [b] else if f == c then [d] else []
  }

  /** Facts in which a contradicts b, c contradicts d, and the members of the second pair win over those of the
      first. */
  function Quarrel(a: FactId, b: FactId, c: FactId, d: FactId): map<FactId, Fact> {
    map f | f in Four(a, b, c, d) :: Claim(Targets(a, b, c, d, f), if f == c || f == d then 1.0 else 0.0)
  }

  /** Only declared contradictions count among such facts. */
  lemma QuarrelClaims(a: FactId, b: FactId, c: FactId, d: FactId, x: FactId, y: FactId)
    requires x in Four(a, b, c, d) && y in Four(a, b, c, d)
    ensures forall kind :: Contradicts(Quarrel(a, b, c, d), x, y, {}, kind) <==>
              kind == ExplicitContradiction && (y in Targets(a, b, c, d, x) || x in Targets(a, b, c, d, y))
  {
    hide Four, Targets;
  }

  lemma QuarrelIssues(a: FactId, b: FactId, c: FactId, d: FactId, live: set<FactId>, ids: set<FactId>, issue: Issue)
    requires Precedes(a, b) && Precedes(c, d) && a != c && Four(a, b, c, d) <= ids && live <= Four(a, b, c, d)
    ensures Found(Quarrel(a, b, c, d), live, ids, {}, issue) <==>
            issue.a in live && issue.b in live &&
            (issue == Issue(ExplicitContradiction, a, b) || issue == Issue(ExplicitContradiction, c, d))
  {
    hide Four, Contradicts;
    var x, y := issue.a, issue.b;
    if x in live && y in live {
      QuarrelClaims(a, b, c, d, x, y);
      hide Quarrel, StringLe;
      if StringLe(x, y) && StringLe(y, x) {
        StringLeAntisymmetric(x, y);
      }
    }
  }

  /** Two different pairs that join to the same text hide one another. */
  lemma AmbiguousPairsEscape(ids: set<FactId>, a: FactId, b: FactId, c: FactId, d: FactId, separator: string)
    requires Four(a, b, c, d) <= ids && Precedes(a, b) && Precedes(c, d) && !(a == c && b == d)
    requires Joined(a, separator, b) == Joined(c, separator, d) && (separator == ":" || separator == "|")
    ensures CanEscape(ids)
  {
    hide Quarrel, Found, Report, PairKey, LosersOf, IsFirst, Joined, Precedes, Four;
    DifferentEnds(a, b, c, d, separator);
    var facts := Quarrel(a, b, c, d);
    var first, second := Issue(ExplicitContradiction, a, b), Issue(ExplicitContradiction, c, d);
    var found := if PairKey(first) == PairKey(second) then [first] else [first, second];
    QuarrelRoots(a, b, c, d);
    QuarrelReport(a, b, c, d, ids, found);
    OnlyFirstLoses(a, b, c, d, separator, found);
    var live := facts.Keys - LosersOf(facts, found, |found|);
    QuarrelIssues(a, b, c, d, live, ids, second);
    assert Escapes(facts, ids, found, second);
  }

  lemma QuarrelRoots(a: FactId, b: FactId, c: FactId, d: FactId)
    ensures var facts := Quarrel(a, b, c, d);
      facts.Keys == Four(a, b, c, d) && forall f | f in facts ::
        facts[f].isRoot && facts[f].manual == VALID && facts[f].tokens == []
  {}

  lemma OnlyFirstLoses(a: FactId, b: FactId, c: FactId, d: FactId, separator: string, found: seq<Issue>)
    requires Precedes(a, b) && Precedes(c, d) && a != c && b != d
    requires Joined(a, separator, b) == Joined(c, separator, d) && (separator == ":" || separator == "|")
    requires var first, second := Issue(ExplicitContradiction, a, b), Issue(ExplicitContradiction, c, d);
             found == if PairKey(first) == PairKey(second) then [first] else [first, second]
    ensures c in Quarrel(a, b, c, d) && d in Quarrel(a, b, c, d)
    ensures c !in LosersOf(Quarrel(a, b, c, d), found, |found|) && d !in LosersOf(Quarrel(a, b, c, d), found, |found|)
  {
    var first := Issue(ExplicitContradiction, a, b);
    FirstLoser(a, b, c, d);
    hide Joined, Quarrel, Loser;
    assert |found| == 2 ==> BarKey(found[1]) == BarKey(found[0]);
    assert forall i | 0 <= i < |found| && IsFirst(found, i) :: i == 0;
  }

  lemma FirstLoser(a: FactId, b: FactId, c: FactId, d: FactId)
    requires Precedes(a, b) && Precedes(c, d) && a != c && b != d
    ensures Quarrel(a, b, c, d).Keys == Four(a, b, c, d) && a in Quarrel(a, b, c, d) && b in Quarrel(a, b, c, d)
    ensures Loser(Quarrel(a, b, c, d), Issue(ExplicitContradiction, a, b)) != c
    ensures Loser(Quarrel(a, b, c, d), Issue(ExplicitContradiction, a, b)) != d
  {
    hide StringLe, Targets;
    if a == d && b == c {
      StringLeAntisymmetric(a, b);
    }
  }

  lemma DifferentEnds(a: FactId, b: FactId, c: FactId, d: FactId, separator: string)
    requires Joined(a, separator, b) == Joined(c, separator, d) && !(a == c && b == d)
    ensures a != c && b != d
  {
    assert b == Joined(a, separator, b)[|a + separator|..];
    assert d == Joined(c, separator, d)[|c + separator|..];
    assert a == Joined(a, separator, b)[..|a|];
    assert c == Joined(c, separator, d)[..|c|];
  }

  lemma QuarrelReport(a: FactId, b: FactId, c: FactId, d: FactId, ids: set<FactId>, found: seq<Issue>)
    requires Four(a, b, c, d) <= ids && Precedes(a, b) && Precedes(c, d) && a != c
    requires var first, second := Issue(ExplicitContradiction, a, b), Issue(ExplicitContradiction, c, d);
             found == if PairKey(first) == PairKey(second) then [first] else [first, second]
    ensures Report(Quarrel(a, b, c, d), Quarrel(a, b, c, d).Keys, ids, {}, found)
  {
    var first, second := Issue(ExplicitContradiction, a, b), Issue(ExplicitContradiction, c, d);
    var facts := Quarrel(a, b, c, d);
    forall issue ensures Found(facts, facts.Keys, ids, {}, issue) <==> issue == first || issue == second {
      QuarrelIssues(a, b, c, d, facts.Keys, ids, issue);
    }
    hide Quarrel, Found, PairKey, Four, Precedes, KeysDiffer, KeyAmong;
    TwoKeys(first, second, found);
    assert forall x :: x in found ==> x == first || x == second;
  }

  lemma TwoKeys(first: Issue, second: Issue, found: seq<Issue>)
    requires first != second && found == if PairKey(first) == PairKey(second) then [first] else [first, second]
    ensures KeysDiffer(found) && KeyAmong(found, PairKey(first)) && KeyAmong(found, PairKey(second))
  {
    hide PairKey;
    assert first in found && (PairKey(first) != PairKey(second) ==> second in found);
  }

  /** Exactly which id lists one pass suffices for: those whose pairs are told apart by both joined texts. */
  lemma PassSufficesExactly(ids: set<FactId>)
    ensures PairsTold(ids) <==> !CanEscape(ids)
  {
    if !Unambiguous(ids, ":") {
      var a, b, c, d :| a in ids && b in ids && c in ids && d in ids && Precedes(a, b) && Precedes(c, d) &&
        Joined(a, ":", b) == Joined(c, ":", d) && !(a == c && b == d);
      AmbiguousPairsEscape(ids, a, b, c, d, ":");
    } else if !Unambiguous(ids, "|") {
      var a, b, c, d :| a in ids && b in ids && c in ids && d in ids && Precedes(a, b) && Precedes(c, d) &&
        Joined(a, "|", b) == Joined(c, "|", d) && !(a == c && b == d);
      AmbiguousPairsEscape(ids, a, b, c, d, "|");
    } else if CanEscape(ids) {
      var facts, found, left :| Escapes(facts, ids, found, left);
      assert found + [] == found;
      assert SameButReview(facts, facts);
      NothingLeft(facts, facts, facts.Keys, facts.Keys - LosersOf(facts, found, |found|), ids, {}, found, [], left);
    }
  }

  /** The shape of ids that cannot collide: none holds a colon or a bar. */
  lemma PlainIdsAreTold(ids: set<FactId>)
    requires forall id | id in ids :: ':' !in id && '|' !in id
    ensures PairsTold(ids)
  {
    forall a, b, c, d | a in ids && b in ids && c in ids && d in ids && Precedes(a, b) && Precedes(c, d)
      ensures Joined(a, ":", b) == Joined(c, ":", d) ==> a == c && b == d
      ensures Joined(a, "|", b) == Joined(c, "|", d) ==> a == c && b == d
    {
      hide Joined, Precedes;
      if Joined(a, ":", b) == Joined(c, ":", d) { PlainSplit(a, b, c, d, ':'); }
      if Joined(a, "|", b) == Joined(c, "|", d) { PlainSplit(a, b, c, d, '|'); }
    }
  }

  lemma PlainSplit(a: FactId, b: FactId, c: FactId, d: FactId, separator: char)
    requires separator !in a && separator !in b && separator !in c && separator !in d
    requires Joined(a, [separator], b) == Joined(c, [separator], d)
    ensures a == c && b == d
  {
    var s := Joined(a, [separator], b);
    assert s[|a|] == separator && s[|c|] == separator;
    assert forall k | 0 <= k < |a| :: s[k] == a[k] && a[k] in a;
    assert forall k | 0 <= k < |c| :: s[k] == c[k] && c[k] in c;
    assert a == s[..|a|] && c == s[..|c|] && b == s[|a| + 1..] && d == s[|c| + 1..];
  }

  /** Four ordinary-looking ids that are not told apart. */
  lemma ColonsCollide()
    ensures !PairsTold({"a", "a:b", "b:c", "c"})
  {
    var a, b, c, d := "a", "b:c", "a:b", "c";
    assert a[0] == 'a' && b[0] == 'b' && c[0] == 'a' && d[0] == 'c';
    assert Precedes(a, b) && Precedes(c, d);
    assert Joined(a, ":", b) == "a:b:c" == Joined(c, ":", d);
    assert !Unambiguous({"a", "a:b", "b:c", "c"}, ":");
  }
}
