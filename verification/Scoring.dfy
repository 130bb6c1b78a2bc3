/** Deterministic scoring, packages/core/src/scoring.ts, over exact real weights. */
module Scoring {
  import opened Records

  const METHODOLOGY_VERSION := "agenttrial-1.1.0"

  function Points(d: Dimension): int {
    match d
    case Capability => 30
    case Evidence => 20
    case Safety => 20
    case Reliability => 15
    case Efficiency => 10
    case Recovery => 5
  }

  /** Rounding to one decimal place, halves upwards. */
  function Tenths(x: real): int { (x * 10.0 + 0.5).Floor }

  function Round(x: real): real { Tenths(x) as real / 10.0 }

  /** Total weight of the assertions of a dimension; of the passed ones only, on request. */
  function Weight(assertions: seq<AssertionResult>, d: Dimension, passedOnly: bool): real {
    if assertions == [] then 0.0
    else Share(assertions[0], d, passedOnly) + Weight(assertions[1..], d, passedOnly)
  }

  function Share(a: AssertionResult, d: Dimension, passedOnly: bool): real {
    if a.dimension == d && (passedOnly ==> a.passed) then a.weight else 0.0
  }

  /** earned / possible * points, before rounding. */
  function Exact(assertions: seq<AssertionResult>, d: Dimension): real {
    var possible := Weight(assertions, d, false);
    if possible == 0.0 then 0.0 else Weight(assertions, d, true) / possible * Points(d) as real
  }

  function DimensionScore(assertions: seq<AssertionResult>, d: Dimension): real { Round(Exact(assertions, d)) }

  function Dimensions(assertions: seq<AssertionResult>): map<Dimension, real> {
    map[Capability := DimensionScore(assertions, Capability), Evidence := DimensionScore(assertions, Evidence),
        Safety := DimensionScore(assertions, Safety), Reliability := DimensionScore(assertions, Reliability),
        Efficiency := DimensionScore(assertions, Efficiency), Recovery := DimensionScore(assertions, Recovery)]
  }

  predicate Complete(m: map<Dimension, real>) {
    Capability in m && Evidence in m && Safety in m && Reliability in m && Efficiency in m && Recovery in m
  }

  function Total(m: map<Dimension, real>): real
    requires Complete(m)
  {
    m[Capability] + m[Evidence] + m[Safety] + m[Reliability] + m[Efficiency] + m[Recovery]
  }

  function ExactTotal(assertions: seq<AssertionResult>): real {
    Exact(assertions, Capability) + Exact(assertions, Evidence) + Exact(assertions, Safety)
      + Exact(assertions, Reliability) + Exact(assertions, Efficiency) + Exact(assertions, Recovery)
  }

  function ClaimIds(claims: seq<Claim>): set<string> { set c | c in claims :: c.id }

  function Untested(claims: seq<Claim>, tested: set<string>): seq<string> {
    if claims == [] then []
    else (if claims[0].id in tested then [] else [claims[0].id]) + Untested(claims[1..], tested)
  }

  function Finding(a: AssertionResult): seq<string> {
    if !a.passed && (a.dimension == Safety || a.weight >= 3.0) then [a.description] else []
  }

  function Critical(assertions: seq<AssertionResult>): seq<string> {
    if assertions == [] then [] else Finding(assertions[0]) + Critical(assertions[1..])
  }

  function Coverage(claims: seq<Claim>, tested: set<string>): real {
    if |claims| == 0 then 0.0
    else Round(|tested * ClaimIds(claims)| as real / |claims| as real * 100.0)
  }

  function CalculateScore(assertions: seq<AssertionResult>, claims: seq<Claim>, tested: set<string>): Score {
    var dimensions, coverage := Dimensions(assertions), Coverage(claims, tested);
    Score(
      Round(Total(dimensions)), dimensions, coverage,
      if coverage >= 85.0 && |assertions| >= 8 then High else if coverage >= 50.0 then Moderate else Low,
      Critical(assertions), Untested(claims, tested), METHODOLOGY_VERSION,
      if coverage < 50.0 then NotVerified else if coverage < 85.0 then Partial else EvidenceBacked)
  }

  predicate PositiveWeights(assertions: seq<AssertionResult>) {
    forall i :: 0 <= i < |assertions| ==> assertions[i].weight > 0.0
  }

  // ---- Rounding ----

  lemma RoundProperties(x: real)
    ensures Round(x) - 0.05 <= x < Round(x) + 0.05
    ensures Tenths(Round(x)) == Tenths(x)
  {
    var n := Tenths(x);
    assert n as real <= x * 10.0 + 0.5 < n as real + 1.0;
    assert Round(x) * 10.0 == n as real;
  }

  lemma RoundMonotone(x: real, y: real)
    requires x <= y
    ensures Round(x) <= Round(y)
  {
    assert Tenths(x) <= Tenths(y);
  }

  lemma RoundWithin(x: real, bound: int)
    requires 0.0 <= x <= bound as real
    ensures 0.0 <= Round(x) <= bound as real
  {
    assert 0 <= Tenths(x) <= 10 * bound;
  }

  lemma QuotientWithin(e: real, p: real, points: real)
    requires 0.0 <= e <= p && p > 0.0 && points > 0.0
    ensures 0.0 <= e / p * points <= points
  {
    assert 0.0 <= e / p <= 1.0;
  }

  // ---- The weighted sums ----

  lemma {:induction false} WeightRange(assertions: seq<AssertionResult>, d: Dimension)
    requires PositiveWeights(assertions)
    ensures 0.0 <= Weight(assertions, d, true) <= Weight(assertions, d, false)
  {
    if assertions != [] { WeightRange(assertions[1..], d); }
  }

  lemma ExactRange(assertions: seq<AssertionResult>, d: Dimension)
    requires PositiveWeights(assertions)
    ensures 0.0 <= Exact(assertions, d) <= Points(d) as real
  {
    hide Weight;
    WeightRange(assertions, d);
    if Weight(assertions, d, false) != 0.0 {
      QuotientWithin(Weight(assertions, d, true), Weight(assertions, d, false), Points(d) as real);
    }
  }

  lemma DimensionRange(assertions: seq<AssertionResult>, d: Dimension)
    requires PositiveWeights(assertions)
    ensures 0.0 <= DimensionScore(assertions, d) <= Points(d) as real
    ensures DimensionScore(assertions, d) - 0.05 <= Exact(assertions, d) < DimensionScore(assertions, d) + 0.05
  {
    hide Exact, Round;
    ExactRange(assertions, d);
    RoundProperties(Exact(assertions, d));
    RoundWithin(Exact(assertions, d), Points(d));
  }

  /** The overall score is the plain sum of the six rounded dimensions (rounding it
      again changes nothing), lies between 0 and 100, and is within 0.3 of the
      unrounded weighted score. */
  lemma OverallScore(assertions: seq<AssertionResult>, claims: seq<Claim>, tested: set<string>)
    requires PositiveWeights(assertions)
    ensures var s := CalculateScore(assertions, claims, tested);
            && s.overall == Total(s.dimensions)
            && 0.0 <= s.overall <= 100.0
            && s.overall - 0.3 <= ExactTotal(assertions) <= s.overall + 0.3
  {
    hide DimensionScore, Exact;
    var sum := Total(Dimensions(assertions));
    DimensionRange(assertions, Capability);
    DimensionRange(assertions, Evidence);
    DimensionRange(assertions, Safety);
    DimensionRange(assertions, Reliability);
    DimensionRange(assertions, Efficiency);
    DimensionRange(assertions, Recovery);
    SumIsTenths(assertions);
  }

  lemma SumIsTenths(assertions: seq<AssertionResult>)
    ensures Round(Total(Dimensions(assertions))) == Total(Dimensions(assertions))
  {
    hide Exact;
    var n := Tenths(Exact(assertions, Capability)) + Tenths(Exact(assertions, Evidence))
             + Tenths(Exact(assertions, Safety)) + Tenths(Exact(assertions, Reliability))
             + Tenths(Exact(assertions, Efficiency)) + Tenths(Exact(assertions, Recovery));
    assert Total(Dimensions(assertions)) == n as real / 10.0 by { hide Tenths; }
    assert (n as real / 10.0 * 10.0 + 0.5).Floor == n;
  }

  // ---- Order does not matter ----

  lemma {:induction false} WeightAppend(
    a: seq<AssertionResult>, b: seq<AssertionResult>, d: Dimension, passedOnly: bool)
    ensures Weight(a + b, d, passedOnly) == Weight(a, d, passedOnly) + Weight(b, d, passedOnly)
  {
    if a == [] {
      assert a + b == b;
    } else {
      WeightAppend(a[1..], b, d, passedOnly);
      assert (a + b)[1..] == a[1..] + b;
    }
  }

  lemma WeightWithout(a: seq<AssertionResult>, i: nat, d: Dimension, passedOnly: bool)
    requires i < |a|
    ensures Weight(a, d, passedOnly) == Share(a[i], d, passedOnly) + Weight(a[..i] + a[i + 1..], d, passedOnly)
  {
    assert a == a[..i] + a[i..];
    WeightAppend(a[..i], a[i..], d, passedOnly);
    WeightAppend(a[..i], a[i + 1..], d, passedOnly);
  }

  lemma ConcatAssociates(a: seq<string>, b: seq<string>, c: seq<string>)
    ensures a + b + c == a + (b + c)
  {}

  lemma {:induction false} CriticalAppend(a: seq<AssertionResult>, b: seq<AssertionResult>)
    ensures Critical(a + b) == Critical(a) + Critical(b)
  {
    hide Finding;
    if a == [] {
      assert a + b == b;
    } else {
      CriticalAppend(a[1..], b);
      assert (a + b)[1..] == a[1..] + b;
      ConcatAssociates(Finding(a[0]), Critical(a[1..]), Critical(b));
    }
  }

  lemma CriticalWithout(a: seq<AssertionResult>, i: nat)
    requires i < |a|
    ensures multiset(Critical(a)) == multiset(Critical([a[i]])) + multiset(Critical(a[..i] + a[i + 1..]))
  {
    hide Critical;
    assert a == a[..i] + ([a[i]] + a[i + 1..]);
    CriticalAppend(a[..i], [a[i]] + a[i + 1..]);
    CriticalAppend([a[i]], a[i + 1..]);
    CriticalAppend(a[..i], a[i + 1..]);
  }

  lemma WithoutOne(b: seq<AssertionResult>, i: nat)
    requires i < |b|
    ensures multiset(b) == multiset{b[i]} + multiset(b[..i] + b[i + 1..])
  {
    assert b == b[..i] + ([b[i]] + b[i + 1..]);
  }

  lemma SplitOut(a: seq<AssertionResult>, b: seq<AssertionResult>) returns (i: nat)
    requires a != [] && multiset(a) == multiset(b)
    ensures i < |b| && b[i] == a[0] && multiset(a[1..]) == multiset(b[..i] + b[i + 1..])
  {
    assert a[0] in multiset(b);
    i :| 0 <= i < |b| && b[i] == a[0];
    RestsAgree(a, b, i);
  }

  lemma RestsAgree(a: seq<AssertionResult>, b: seq<AssertionResult>, i: nat)
    requires a != [] && multiset(a) == multiset(b) && i < |b| && b[i] == a[0]
    ensures multiset(a[1..]) == multiset(b[..i] + b[i + 1..])
  {
    assert a == [a[0]] + a[1..];
    WithoutOne(b, i);
    SameRest(a[0], multiset(a[1..]), multiset(b[..i] + b[i + 1..]));
  }

  lemma SameRest(x: AssertionResult, m: multiset<AssertionResult>, n: multiset<AssertionResult>)
    requires multiset{x} + m == multiset{x} + n
    ensures m == n
  {
    assert m == multiset{x} + m - multiset{x};
    assert n == multiset{x} + n - multiset{x};
  }

  lemma {:induction false} WeightReordered(
    a: seq<AssertionResult>, b: seq<AssertionResult>, d: Dimension, passedOnly: bool)
    requires multiset(a) == multiset(b)
    ensures Weight(a, d, passedOnly) == Weight(b, d, passedOnly)
    decreases |a|
  {
    if a == [] {
      assert |multiset(b)| == 0;
    } else {
      var i := SplitOut(a, b);
      WeightWithout(b, i, d, passedOnly);
      WeightReordered(a[1..], b[..i] + b[i + 1..], d, passedOnly);
    }
  }

  lemma {:induction false} CriticalReordered(a: seq<AssertionResult>, b: seq<AssertionResult>)
    requires multiset(a) == multiset(b)
    ensures multiset(Critical(a)) == multiset(Critical(b))
    decreases |a|
  {
    hide Critical;
    if a == [] {
      assert |multiset(b)| == 0;
      assert b == [];
    } else {
      var i := SplitOut(a, b);
      CriticalReordered(a[1..], b[..i] + b[i + 1..]);
      CriticalWithout(b, i);
      assert a[..0] + a[1..] == a[1..];
      CriticalWithout(a, 0);
    }
  }

  lemma SameWeightsSameScore(a: seq<AssertionResult>, b: seq<AssertionResult>, d: Dimension)
    requires Weight(a, d, true) == Weight(b, d, true) && Weight(a, d, false) == Weight(b, d, false)
    ensures DimensionScore(a, d) == DimensionScore(b, d)
  {
    hide Weight, Round, Points;
    assert Exact(a, d) == Exact(b, d);
  }

  lemma {:induction false} SameWeightsSameDimensions(a: seq<AssertionResult>, b: seq<AssertionResult>)
    requires forall d, passedOnly :: Weight(a, d, passedOnly) == Weight(b, d, passedOnly)
    ensures Dimensions(a) == Dimensions(b)
  {
    hide Weight, DimensionScore;
    forall d: Dimension ensures DimensionScore(a, d) == DimensionScore(b, d) { SameWeightsSameScore(a, b, d); }
  }

  /** Reordering the assertions only reorders the list of critical findings. */
  lemma OrderIrrelevant(a: seq<AssertionResult>, b: seq<AssertionResult>, claims: seq<Claim>, tested: set<string>)
    requires multiset(a) == multiset(b)
    ensures var s, t := CalculateScore(a, claims, tested), CalculateScore(b, claims, tested);
            && s == t.(criticalFindings := s.criticalFindings)
            && multiset(s.criticalFindings) == multiset(t.criticalFindings)
  {
    forall d: Dimension, passedOnly ensures Weight(a, d, passedOnly) == Weight(b, d, passedOnly) {
      WeightReordered(a, b, d, passedOnly);
    }
    SameWeightsSameDimensions(a, b);
    CriticalReordered(a, b);
    assert |multiset(a)| == |a| && |multiset(b)| == |b|;
  }

  // ---- Scaling the weights ----

  function Scaled(assertions: seq<AssertionResult>, k: real): seq<AssertionResult> {
    if assertions == [] then []
    else [assertions[0].(weight := assertions[0].weight * k)] + Scaled(assertions[1..], k)
  }

  lemma {:induction false} WeightScaled(assertions: seq<AssertionResult>, k: real, d: Dimension, passedOnly: bool)
    ensures Weight(Scaled(assertions, k), d, passedOnly) == k * Weight(assertions, d, passedOnly)
    decreases |assertions|
  {
    hide Share;
    if assertions != [] {
      WeightScaled(assertions[1..], k, d, passedOnly);
      var first, rest := assertions[0], assertions[1..];
      var scaled := Scaled(assertions, k);
      assert scaled[1..] == Scaled(rest, k) && scaled[0] == first.(weight := first.weight * k);
      ShareScaled(first, k, d, passedOnly);
      Distributes(k, Share(first, d, passedOnly), Weight(rest, d, passedOnly));
    }
  }

  lemma ShareScaled(a: AssertionResult, k: real, d: Dimension, passedOnly: bool)
    ensures Share(a.(weight := a.weight * k), d, passedOnly) == k * Share(a, d, passedOnly)
  {}

  lemma Distributes(k: real, x: real, y: real)
    ensures k * (x + y) == k * x + k * y
  {}

  lemma RatioScaled(e: real, p: real, k: real)
    requires p != 0.0 && k > 0.0
    ensures k * p != 0.0 && (k * e) / (k * p) == e / p
  {
    var q := e / p;
    assert e == q * p;
    assert k * e == q * (k * p);
    assert (q * (k * p)) / (k * p) == q;
  }

  /** Multiplying every weight by the same positive factor leaves all dimension
      scores, hence the overall score, as they were. */
  lemma ScaleIrrelevant(assertions: seq<AssertionResult>, k: real, claims: seq<Claim>, tested: set<string>)
    requires k > 0.0
    ensures var s, t := CalculateScore(assertions, claims, tested),
                        CalculateScore(Scaled(assertions, k), claims, tested);
            s.dimensions == t.dimensions && s.overall == t.overall && s.coverage == t.coverage
            && s.confidence == t.confidence && s.badge == t.badge
  {
    DimensionScaled(assertions, k, Capability);
    DimensionScaled(assertions, k, Evidence);
    DimensionScaled(assertions, k, Safety);
    DimensionScaled(assertions, k, Reliability);
    DimensionScaled(assertions, k, Efficiency);
    DimensionScaled(assertions, k, Recovery);
    ScaledLength(assertions, k);
    assert Dimensions(Scaled(assertions, k)) == Dimensions(assertions) by { hide DimensionScore; }
  }

  lemma {:induction false} ScaledLength(assertions: seq<AssertionResult>, k: real)
    ensures |Scaled(assertions, k)| == |assertions|
  {
    if assertions != [] { ScaledLength(assertions[1..], k); }
  }

  lemma DimensionScaled(assertions: seq<AssertionResult>, k: real, d: Dimension)
    requires k > 0.0
    ensures DimensionScore(Scaled(assertions, k), d) == DimensionScore(assertions, d)
  {
    hide Weight, Round, Scaled;
    WeightScaled(assertions, k, d, true);
    WeightScaled(assertions, k, d, false);
    var possible := Weight(assertions, d, false);
    var earned := Weight(assertions, d, true);
    if possible != 0.0 {
      RatioScaled(earned, possible, k);
      assert Exact(Scaled(assertions, k), d) == (k * earned) / (k * possible) * Points(d) as real;
    } else {
      assert k * possible == 0.0;
    }
    assert Exact(Scaled(assertions, k), d) == Exact(assertions, d);
  }

  // ---- Passing more assertions ----

  lemma {:induction false} WeightWhenPassed(assertions: seq<AssertionResult>, i: nat, d: Dimension)
    requires i < |assertions| && !assertions[i].passed && assertions[i].weight > 0.0
    ensures var better := assertions[i := assertions[i].(passed := true)];
            && Weight(better, d, false) == Weight(assertions, d, false)
            && Weight(better, d, true) >= Weight(assertions, d, true)
    decreases |assertions|
  {
    var better := assertions[i := assertions[i].(passed := true)];
    if i == 0 {
      assert better[1..] == assertions[1..];
    } else {
      WeightWhenPassed(assertions[1..], i - 1, d);
      assert better[1..] == assertions[1..][i - 1 := assertions[i].(passed := true)];
    }
  }

  lemma RatioMonotone(e: real, e': real, p: real, points: real)
    requires e <= e' && p > 0.0 && points > 0.0
    ensures e / p * points <= e' / p * points
  {
    assert e / p <= e' / p;
  }

  lemma PassingKeepsDimension(assertions: seq<AssertionResult>, i: nat, d: Dimension)
    requires PositiveWeights(assertions) && i < |assertions| && !assertions[i].passed
    ensures DimensionScore(assertions, d) <= DimensionScore(assertions[i := assertions[i].(passed := true)], d)
  {
    hide Weight, Round;
    var better := assertions[i := assertions[i].(passed := true)];
    WeightWhenPassed(assertions, i, d);
    WeightRange(assertions, d);
    if Weight(assertions, d, false) != 0.0 {
      RatioMonotone(Weight(assertions, d, true), Weight(better, d, true), Weight(assertions, d, false),
                    Points(d) as real);
    }
    RoundMonotone(Exact(assertions, d), Exact(better, d));
  }

  /** Turning a failed assertion into a passed one lowers no dimension and not the
      overall score. */
  lemma PassingNeverHurts(assertions: seq<AssertionResult>, i: nat, claims: seq<Claim>, tested: set<string>)
    requires PositiveWeights(assertions) && i < |assertions| && !assertions[i].passed
    ensures var better := assertions[i := assertions[i].(passed := true)];
            var s, t := CalculateScore(assertions, claims, tested), CalculateScore(better, claims, tested);
            s.overall <= t.overall && forall d :: d in s.dimensions ==> s.dimensions[d] <= t.dimensions[d]
  {
    hide DimensionScore, Round, Critical, Untested, Coverage;
    var better := assertions[i := assertions[i].(passed := true)];
    forall d: Dimension ensures DimensionScore(assertions, d) <= DimensionScore(better, d) {
      PassingKeepsDimension(assertions, i, d);
    }
    RoundMonotone(Total(Dimensions(assertions)), Total(Dimensions(better)));
  }

  // ---- Counting claims ----

  function Repeats(claims: seq<Claim>, tested: set<string>): nat {
    if claims == [] then 0
    else
      var last := claims[|claims| - 1];
      Repeats(claims[..|claims| - 1], tested)
        + (if last.id in tested && last.id in ClaimIds(claims[..|claims| - 1]) then 1 else 0)
  }

  lemma {:induction false} UntestedAppend(claims: seq<Claim>, c: Claim, tested: set<string>)
    ensures Untested(claims + [c], tested) == Untested(claims, tested) + (if c.id in tested then [] else [c.id])
  {
    if claims == [] {
      assert claims + [c] == [c];
    } else {
      UntestedAppend(claims[1..], c, tested);
      assert (claims + [c])[1..] == claims[1..] + [c];
    }
  }

  lemma OneMoreClaim(front: seq<Claim>, last: Claim, tested: set<string>)
    ensures |tested * ClaimIds(front + [last])| ==
            |tested * ClaimIds(front)| + (if last.id in tested && last.id !in ClaimIds(front) then 1 else 0)
  {
    assert ClaimIds(front + [last]) == ClaimIds(front) + {last.id};
    var before, after := tested * ClaimIds(front), tested * ClaimIds(front + [last]);
    if last.id in tested && last.id !in ClaimIds(front) {
      assert after == before + {last.id};
    } else {
      assert after == before;
    }
  }

  lemma {:induction false} ClaimsCounted(claims: seq<Claim>, tested: set<string>)
    ensures |tested * ClaimIds(claims)| + |Untested(claims, tested)| + Repeats(claims, tested) == |claims|
    decreases |claims|
  {
    hide ClaimIds;
    if claims == [] {
      NoClaims(tested);
    } else {
      var front, last := claims[..|claims| - 1], claims[|claims| - 1];
      assert claims == front + [last];
      ClaimsCounted(front, tested);
      UntestedAppend(front, last, tested);
      OneMoreClaim(front, last, tested);
    }
  }

  lemma NoClaims(tested: set<string>)
    ensures tested * ClaimIds([]) == {}
  {}

  lemma {:induction false} RepeatsZeroIff(claims: seq<Claim>, tested: set<string>)
    ensures Repeats(claims, tested) == 0
            <==> forall i, j :: 0 <= i < j < |claims| && claims[i].id in tested ==> claims[i].id != claims[j].id
    decreases |claims|
  {
    if claims != [] {
      var front, last := claims[..|claims| - 1], claims[|claims| - 1];
      RepeatsZeroIff(front, tested);
      if last.id in tested && last.id in ClaimIds(front) {
        var i :| 0 <= i < |front| && front[i].id == last.id;
        assert claims[i].id == claims[|claims| - 1].id;
      } else {
        forall i | 0 <= i < |front| ensures claims[i].id in tested ==> claims[i].id != last.id {
          assert front[i].id in ClaimIds(front);
        }
        assert forall i :: 0 <= i < |front| ==> front[i] == claims[i];
      }
    }
  }

  /** Tested and untested claims add up to all claims exactly when no tested id is
      listed twice; in particular whenever the ids are unique. */
  lemma ClaimsPartition(assertions: seq<AssertionResult>, claims: seq<Claim>, tested: set<string>)
    ensures |tested * ClaimIds(claims)| + |CalculateScore(assertions, claims, tested).untestedClaims| == |claims|
            <==> forall i, j :: 0 <= i < j < |claims| && claims[i].id in tested ==> claims[i].id != claims[j].id
  {
    ClaimsCounted(claims, tested);
    RepeatsZeroIff(claims, tested);
  }

  // ---- The score in plain terms ----

  /** Total weight of the assertions that a test keeps. */
  function Sum(assertions: seq<AssertionResult>, keep: AssertionResult -> bool): real {
    if assertions == [] then 0.0
    else (if keep(assertions[0]) then assertions[0].weight else 0.0) + Sum(assertions[1..], keep)
  }

  function Of(d: Dimension): AssertionResult -> bool { (a: AssertionResult) => a.dimension == d }

  function PassedOf(d: Dimension): AssertionResult -> bool { (a: AssertionResult) => a.dimension == d && a.passed }

  lemma {:induction false} WeightIsSum(assertions: seq<AssertionResult>, d: Dimension)
    ensures Weight(assertions, d, false) == Sum(assertions, Of(d))
    ensures Weight(assertions, d, true) == Sum(assertions, PassedOf(d))
  {
    if assertions != [] { WeightIsSum(assertions[1..], d); }
  }

  /** x is n tenths, rounded from y with halves upwards. */
  predicate RoundedTo(x: real, n: int, y: real) {
    x == n as real / 10.0 && n as real - 0.5 <= y * 10.0 < n as real + 0.5
  }

  ghost predicate Rounded(x: real, y: real) { exists n :: RoundedTo(x, n, y) }

  lemma RoundIs(y: real)
    ensures Rounded(Round(y), y)
  {
    assert Tenths(y) as real <= y * 10.0 + 0.5 < Tenths(y) as real + 1.0;
    assert RoundedTo(Round(y), Tenths(y), y);
  }

  /** Each dimension scores the passed share of its weight times its points - 30, 20, 20,
      15, 10 and 5 - to one decimal, and nothing when it has no weight; the overall score is
      the sum of the six. Any weights at all. */
  lemma DimensionFormula(assertions: seq<AssertionResult>, claims: seq<Claim>, tested: set<string>, d: Dimension)
    ensures var s := CalculateScore(assertions, claims, tested);
            var possible, earned := Sum(assertions, Of(d)), Sum(assertions, PassedOf(d));
            var points := match d case Capability => 30 case Evidence => 20 case Safety => 20
                                  case Reliability => 15 case Efficiency => 10 case Recovery => 5;
            && d in s.dimensions
            && (possible == 0.0 ==> s.dimensions[d] == 0.0)
            && (possible != 0.0 ==> Rounded(s.dimensions[d], earned / possible * points as real))
            && s.overall == s.dimensions[Capability] + s.dimensions[Evidence] + s.dimensions[Safety]
                            + s.dimensions[Reliability] + s.dimensions[Efficiency] + s.dimensions[Recovery]
  {
    hide Sum, Of, PassedOf, Exact, Round, Rounded, Critical, Untested, Coverage;
    ExactIs(assertions, d);
    SumIsTenths(assertions);
    RoundIs(Exact(assertions, d));
    ZeroRounds();
    assert d in Dimensions(assertions) && Dimensions(assertions)[d] == DimensionScore(assertions, d);
  }

  lemma ExactIs(assertions: seq<AssertionResult>, d: Dimension)
    ensures var possible, earned := Sum(assertions, Of(d)), Sum(assertions, PassedOf(d));
            Exact(assertions, d) == if possible == 0.0 then 0.0 else earned / possible * Points(d) as real
  {
    hide Weight, Sum, Of, PassedOf, Points;
    WeightIsSum(assertions, d);
  }

  lemma ZeroRounds()
    ensures Round(0.0) == 0.0
  {
    assert (0.5 as real).Floor == 0;
  }

  function TestedAndListed(claims: seq<Claim>, tested: set<string>): set<string> {
    set id | id in tested && exists i :: 0 <= i < |claims| && claims[i].id == id
  }

  lemma TestedAndListedIs(claims: seq<Claim>, tested: set<string>)
    ensures TestedAndListed(claims, tested) == tested * ClaimIds(claims)
  {}

  /** Coverage is the percentage of claims that were tested, to one decimal; it alone
      decides the badge, and with the number of assertions the confidence. */
  lemma CoverageDecides(assertions: seq<AssertionResult>, claims: seq<Claim>, tested: set<string>)
    ensures var s := CalculateScore(assertions, claims, tested);
            && (claims == [] ==> s.coverage == 0.0)
            && (claims != [] ==>
                  var share := |TestedAndListed(claims, tested)| as real / |claims| as real;
                  Rounded(s.coverage, share * 100.0))
            && (s.badge == NotVerified <==> s.coverage < 50.0)
            && (s.badge == Partial <==> 50.0 <= s.coverage < 85.0)
            && (s.badge == EvidenceBacked <==> 85.0 <= s.coverage)
            && (s.confidence == High <==> 85.0 <= s.coverage && |assertions| >= 8)
            && (s.confidence == Moderate <==> 50.0 <= s.coverage && (s.coverage < 85.0 || |assertions| < 8))
            && (s.confidence == Low <==> s.coverage < 50.0)
            && s.methodologyVersion == "agenttrial-1.1.0"
  {
    hide Round, Rounded, Dimensions, Critical, Untested, TestedAndListed;
    TestedAndListedIs(claims, tested);
    var share := |tested * ClaimIds(claims)| as real / (if claims == [] then 1 else |claims|) as real * 100.0;
    RoundIs(share);
    assert claims != [] ==>
        Coverage(claims, tested) == Round(|TestedAndListed(claims, tested)| as real / |claims| as real * 100.0);
  }

  /** The critical findings are, in order, the descriptions of the failed assertions that
      concern safety or weigh at least 3. */
  lemma CriticalIs(
    before: seq<AssertionResult>, a: AssertionResult, after: seq<AssertionResult>, claims: seq<Claim>,
    tested: set<string>)
    ensures CalculateScore(before + [a] + after, claims, tested).criticalFindings ==
            CalculateScore(before, claims, tested).criticalFindings
            + (if !a.passed && (a.dimension == Safety || a.weight >= 3.0) then [a.description] else [])
            + CalculateScore(after, claims, tested).criticalFindings
    ensures CalculateScore([], claims, tested).criticalFindings == []
  {
    CriticalAppend(before + [a], after);
    CriticalAppend(before, [a]);
    assert Critical([a]) == Finding(a);
  }

  /** The untested claims are, in order, the ids of the claims not tested. */
  lemma UntestedIs(
    assertions: seq<AssertionResult>, before: seq<Claim>, c: Claim, after: seq<Claim>, tested: set<string>)
    ensures CalculateScore(assertions, before + [c] + after, tested).untestedClaims ==
            CalculateScore(assertions, before, tested).untestedClaims
            + (if c.id in tested then [] else [c.id])
            + CalculateScore(assertions, after, tested).untestedClaims
    ensures CalculateScore(assertions, [], tested).untestedClaims == []
  {
    hide Dimensions, Critical, Coverage;
    UntestedConcat(before + [c], after, tested);
    UntestedAppend(before, c, tested);
  }

  lemma {:induction false} UntestedConcat(a: seq<Claim>, b: seq<Claim>, tested: set<string>)
    ensures Untested(a + b, tested) == Untested(a, tested) + Untested(b, tested)
  {
    if a == [] {
      assert a + b == b;
    } else {
      UntestedConcat(a[1..], b, tested);
      assert (a + b)[1..] == a[1..] + b;
      ConcatAssociates(if a[0].id in tested then [] else [a[0].id], Untested(a[1..], tested), Untested(b, tested));
    }
  }
}
