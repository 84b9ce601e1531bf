/** Facts, dependency tokens and the rules that decide whether one dependency is satisfied. */
module Facts {
  import opened Strings

  type FactId = string
  type Status = real

  const INVALID: Status := 0.0
  const VALID: Status := 1.0
  const THRESHOLD: Status := 0.6
  const MAX_FACTS: nat := 80000

  datatype Option<+T> = None | Some(value: T)
  datatype Result<+T, +E> = Success(value: T) | Failure(error: E)

  /** The epistemic kind of a fact. An empty kind reads as Empirical; any text outside the four
      documented kinds is kept as OtherKind. */
  datatype Kind = Empirical | Uncertain | Hypothetical | Fictional | OtherKind(name: string)

  datatype VerificationStatus = Unknown | Unverified | Verified | Rejected
  datatype Verification = Verification(
    status: VerificationStatus, method_: string, sourceRef: string, reason: string, verifiedAt: int, required: bool)

  datatype ReviewStatus = NoReview | Pending | Approved | Waived | Refused
  datatype Review = Review(status: ReviewStatus, reason: string, reviewedAt: int)

  /** The provenance policy a derived fact can impose on its positive parents. */
  datatype Grounding = Grounding(allowedSourceTypes: seq<string>, requireVerified: bool, maxAgeSeconds: int)

  /** The parts of a payload that contradiction detection looks at, and the rest as text. */
  datatype Payload = Payload(
    claimKey: string, claimValue: string, subject: string, predicate_: string, object_: string,
    polarity: string, contradicts: seq<FactId>, body: string)

  /** A payload that claims nothing. */
  const BLANK: Payload := Payload("", "", "", "", "", "", [], "")

  /** What a caller asserts. The fields the engine computes live in the engine. */
  datatype Fact = Fact(
    payload: Payload, isRoot: bool, manual: Status, kind: Kind, validUntil: int, assertedAt: int,
    tokens: seq<seq<string>>, sourceType: string, verification: Verification, grounding: Grounding,
    entrenchment: real, entrenchmentLabel: string, review: Review, requiresHumanReview: bool)

  /** A fact without metadata. */
  function Bare(isRoot: bool, manual: Status, kind: Kind, tokens: seq<seq<string>>): Fact {
    Fact(BLANK, isRoot, manual, kind, 0, 1, tokens, "", Verification(Unknown, "", "", "", 0, false),
         Grounding([], false, 0), 0.0, "", Review(NoReview, "", 0), false)
  }

  const ROOT: Fact := Bare(true, VALID, Empirical, [])

  datatype DepRef = DepRef(id: FactId, negated: bool)

  /** How a dependency is written: the id, after `!` when negated. */
  function Token(ref: DepRef): string {
    if ref.negated then "!" + ref.id else ref.id
  }

  function ParseDependencyRef(raw: string): (r: Result<DepRef, string>)
    ensures r.Success? <==> raw != "" && raw != "!"
    ensures r.Success? ==> Token(r.value) == raw && r.value.id != "" && (r.value.negated <==> raw[0] == '!')
  {
    if raw == "" then Failure("dependency token cannot be empty")
    else if raw[0] == '!' then
      if raw[1..] == "" then Failure("dependency token is missing a fact id")
      else Success(DepRef(raw[1..], true))
    else Success(DepRef(raw, false))
  }

  /** Writing and parsing agree on every ref whose id is non-empty and does not itself start with `!`. */
  lemma ParseWritten(ref: DepRef)
    requires ref.id != "" && ref.id[0] != '!'
    ensures ParseDependencyRef(Token(ref)) == Success(ref)
  {
    if ref.negated {
      assert ("!" + ref.id)[1..] == ref.id;
    }
  }

  ghost predicate AllParse(tokens: seq<string>) {
    forall t | t in tokens :: ParseDependencyRef(t).Success?
  }

  ghost function Parsed(tokens: seq<string>): (r: seq<DepRef>)
    requires AllParse(tokens)
  {
    seq(|tokens|, i requires 0 <= i < |tokens| => ParseDependencyRef(tokens[i]).value)
  }

  datatype DependencySet = DependencySet(positive: seq<FactId>, negative: seq<FactId>, all: seq<FactId>) {
    /** The dependencies in the order the engine visits them: positive ones first. */
    ghost function Refs(): (r: seq<DepRef>)
    {
      seq(|positive|, i requires 0 <= i < |positive| => DepRef(positive[i], false)) +
      seq(|negative|, i requires 0 <= i < |negative| => DepRef(negative[i], true))
    }
  }

  /** Splits a justification set by polarity and drops repeated tokens. */
  method SplitDependencySet(tokens: seq<string>) returns (r: Result<DependencySet, string>)
    ensures r.Success? <==> AllParse(tokens)
    ensures r.Success? ==> forall ref :: ref in r.value.Refs() <==> ref in Parsed(tokens)
    ensures r.Success? ==> Distinct(r.value.positive) && Distinct(r.value.negative)
    ensures r.Success? ==> multiset(r.value.all) == multiset(r.value.positive) + multiset(r.value.negative)
  {
    var positive, negative, all := [], [], [];
    var seen: set<string> := {};
    for i := 0 to |tokens|
      invariant AllParse(tokens[..i])
      invariant forall ref: DepRef :: (if ref.negated then ref.id in negative else ref.id in positive) <==>
                                ref in Parsed(tokens[..i])
      invariant forall key :: key in seen <==> key in tokens[..i]
      invariant Distinct(positive) && Distinct(negative)
      invariant multiset(all) == multiset(positive) + multiset(negative)
    {
      var parsed := ParseDependencyRef(tokens[i]);
      if parsed.Failure? {
        return Failure(parsed.error);
      }
      var ref := parsed.value;
      var key := Token(ref);
      ParsedSnoc(tokens, i);
      if key in seen {
        RepeatedToken(tokens, i);
      } else {
        NewToken(tokens, i);
        seen := seen + {key};
        all := all + [ref.id];
        if ref.negated {
          negative := negative + [ref.id];
        } else {
          positive := positive + [ref.id];
        }
      }
    }
    assert tokens[..|tokens|] == tokens;
    r := Success(DependencySet(positive, negative, all));
    RefsMembers(r.value);
  }

  lemma ParsedSnoc(tokens: seq<string>, i: nat)
    requires i < |tokens| && AllParse(tokens[..i]) && ParseDependencyRef(tokens[i]).Success?
    ensures AllParse(tokens[..i + 1])
    ensures Parsed(tokens[..i + 1]) == Parsed(tokens[..i]) + [ParseDependencyRef(tokens[i]).value]
    ensures tokens[..i + 1] == tokens[..i] + [tokens[i]]
  {
    assert tokens[..i + 1] == tokens[..i] + [tokens[i]];
  }

  lemma RepeatedToken(tokens: seq<string>, i: nat)
    requires i < |tokens| && AllParse(tokens[..i]) && tokens[i] in tokens[..i]
    ensures ParseDependencyRef(tokens[i]).Success? && ParseDependencyRef(tokens[i]).value in Parsed(tokens[..i])
  {
    var k :| 0 <= k < i && tokens[..i][k] == tokens[i];
    assert Parsed(tokens[..i])[k] == ParseDependencyRef(tokens[i]).value;
  }

  lemma NewToken(tokens: seq<string>, i: nat)
    requires i < |tokens| && AllParse(tokens[..i]) && ParseDependencyRef(tokens[i]).Success?
    requires tokens[i] !in tokens[..i]
    ensures ParseDependencyRef(tokens[i]).value !in Parsed(tokens[..i])
  {
    forall k | 0 <= k < i ensures Parsed(tokens[..i])[k] != ParseDependencyRef(tokens[i]).value {
      assert Token(Parsed(tokens[..i])[k]) == tokens[..i][k];
    }
  }

  lemma RefsMembers(d: DependencySet)
    ensures |d.Refs()| == |d.positive| + |d.negative|
    ensures forall i | 0 <= i < |d.positive| :: d.Refs()[i] == DepRef(d.positive[i], false)
    ensures forall i | 0 <= i < |d.negative| :: d.Refs()[|d.positive| + i] == DepRef(d.negative[i], true)
    ensures forall ref :: ref in d.Refs() <==> (if ref.negated then ref.id in d.negative else ref.id in d.positive)
  {
    forall ref: DepRef | ref.negated && ref.id in d.negative ensures ref in d.Refs() {
      var i :| 0 <= i < |d.negative| && d.negative[i] == ref.id;
      assert d.Refs()[|d.positive| + i] == ref;
    }
    forall ref: DepRef | !ref.negated && ref.id in d.positive ensures ref in d.Refs() {
      var i :| 0 <= i < |d.positive| && d.positive[i] == ref.id;
      assert d.Refs()[i] == ref;
    }
  }

  /** The confidence a dependency contributes: the parent's status, mirrored when negated. */
  function DependencyConfidence(status: Status, negated: bool): (r: Status)
    ensures negated ==> 0.0 <= r <= 1.0 && (0.0 <= status <= 1.0 ==> r == 1.0 - status)
    ensures negated ==> (status < 0.0 ==> r == 1.0) && (status > 1.0 ==> r == 0.0)
    ensures !negated ==> r == status
  {
    if !negated then status
    else if status <= INVALID then VALID
    else if status >= VALID then INVALID
    else VALID - status
  }

  ghost predicate RealWorld(kind: Kind) {
    kind.Empirical? || kind.Uncertain?
  }

  ghost predicate Imagined(kind: Kind) {
    kind.Hypothetical? || kind.Fictional?
  }

  /** A hypothetical or fictional parent cannot ground an empirical or uncertain child. */
  predicate ScopeSatisfied(parent: Kind, child: Kind) {
    !((parent.Fictional? || parent.Hypothetical?) && (child.Empirical? || child.Uncertain?))
  }

  function FoldCase(s: string): string {
    seq(|s|, i requires 0 <= i < |s| => if 'A' <= s[i] <= 'Z' then s[i] - 'A' + 'a' else s[i])
  }

  ghost predicate SmallOf(small: char, capital: char) {
    'A' <= capital <= 'Z' && small as int == capital as int + 32
  }

  /** The texts differ at most in the case of their letters. */
  ghost predicate SameButCase(a: string, b: string) {
    |a| == |b| && forall k | 0 <= k < |a| :: a[k] == b[k] || SmallOf(a[k], b[k]) || SmallOf(b[k], a[k])
  }

  lemma FoldedAlike(a: string, b: string)
    ensures FoldCase(a) == FoldCase(b) <==> SameButCase(a, b)
  {
    if FoldCase(a) == FoldCase(b) {
      assert |FoldCase(a)| == |a| && |FoldCase(b)| == |b|;
      forall k | 0 <= k < |a| ensures a[k] == b[k] || SmallOf(a[k], b[k]) || SmallOf(b[k], a[k]) {
        assert FoldCase(a)[k] == FoldCase(b)[k];
      }
    }
    if SameButCase(a, b) {
      forall k | 0 <= k < |a| ensures FoldCase(a)[k] == FoldCase(b)[k] {
        assert a[k] == b[k] || SmallOf(a[k], b[k]) || SmallOf(b[k], a[k]);
      }
    }
  }

  ghost predicate SourceAllowed(sourceType: string, allowed: seq<string>) {
    allowed == [] || exists candidate :: candidate in allowed && SameButCase(candidate, sourceType)
  }

  ghost predicate TooOld(parent: Fact, child: Fact, now: int) {
    child.grounding.maxAgeSeconds > 0 && parent.assertedAt > 0 &&
    now - parent.assertedAt > child.grounding.maxAgeSeconds * 1000
  }

  /** The child's provenance policy accepts the parent. */
  ghost predicate Grounded(parent: Fact, child: Fact, now: int) {
    SourceAllowed(parent.sourceType, child.grounding.allowedSourceTypes) &&
    (child.grounding.requireVerified ==> parent.verification.status == Verified) &&
    !TooOld(parent, child, now)
  }

  method GroundingSatisfied(parent: Fact, child: Fact, now: int) returns (ok: bool)
    ensures ok <==> Grounded(parent, child, now)
  {
    var allowedTypes := child.grounding.allowedSourceTypes;
    if |allowedTypes| > 0 {
      var allowed := false;
      for i := 0 to |allowedTypes|
        invariant !allowed
        invariant forall k | 0 <= k < i :: !SameButCase(allowedTypes[k], parent.sourceType)
      {
        FoldedAlike(allowedTypes[i], parent.sourceType);
        if FoldCase(allowedTypes[i]) == FoldCase(parent.sourceType) {
          allowed := true;
          break;
        }
      }
      if !allowed {
        return false;
      }
    }
    if child.grounding.requireVerified && parent.verification.status != Verified {
      return false;
    }
    ok := true;
    if child.grounding.maxAgeSeconds > 0 && parent.assertedAt > 0 {
      if now - parent.assertedAt > child.grounding.maxAgeSeconds * 1000 {
        return false;
      }
    }
  }

  /** When a dependency on `parent`, read at `status`, counts towards a set of `child`. */
  ghost predicate Satisfied(parent: Fact, status: Status, negated: bool, child: Fact, now: int) {
    if negated then status < THRESHOLD
    else ScopeSatisfied(parent.kind, child.kind) && Grounded(parent, child, now) && status >= THRESHOLD
  }

  method DependencySatisfied(parent: Fact, status: Status, negated: bool, child: Fact, now: int) returns (ok: bool)
    ensures ok <==> Satisfied(parent, status, negated, child, now)
  {
    if negated {
      return status < THRESHOLD;
    }
    if !ScopeSatisfied(parent.kind, child.kind) {
      return false;
    }
    var grounded := GroundingSatisfied(parent, child, now);
    if !grounded {
      return false;
    }
    ok := status >= THRESHOLD;
  }
}
