/** Holm's step-down adjustment, packages/research/src/analysis.ts: sort, scale by the
    number of hypotheses still in play, keep a running maximum, scatter back. */
module Holm {

  type PValues = seq<real>

  predicate Probabilities(p: PValues) { forall i :: 0 <= i < |p| ==> 0.0 <= p[i] <= 1.0 }

  function Min(x: real, y: real): real { if x <= y then x else y }

  function Max(x: real, y: real): real { if x >= y then x else y }

  /** v scaled by a number of hypotheses. The proofs hide this product and use the
      two lemmas below. */
  function Times(v: real, count: nat): real { v * count as real }

  lemma TimesMonotone(u: real, v: real, a: nat, b: nat)
    requires 0.0 <= u <= v && a <= b
    ensures 0.0 <= Times(u, a) <= Times(v, b)
  {
    assert u * a as real <= v * a as real;
    assert v * a as real <= v * b as real;
  }

  lemma TimesNegative(v: real, count: nat)
    requires v < 0.0
    ensures Times(v, count) <= 0.0
  {}

  lemma TimesOne(v: real)
    ensures Times(v, 1) == v
  {}

  // ---- Sorting ----

  predicate IsIndexList(ranked: seq<nat>, m: nat) {
    && |ranked| == m
    && (forall r :: 0 <= r < m ==> ranked[r] < m)
    && (forall r, s :: 0 <= r < s < m ==> ranked[r] != ranked[s])
  }

  /** ranked lists every hypothesis once, by non-decreasing p-value; tied values may
      stand in any order. */
  predicate IsRanking(p: PValues, ranked: seq<nat>) {
    && IsIndexList(ranked, |p|)
    && (forall r, s :: 0 <= r < s < |p| ==> p[ranked[r]] <= p[ranked[s]])
  }

  function InsertIndex(p: PValues, ranked: seq<nat>, i: nat): (out: seq<nat>)
    requires i < |p| && forall r :: 0 <= r < |ranked| ==> ranked[r] < i
    requires forall r, s :: 0 <= r < s < |ranked| ==> ranked[r] != ranked[s]
    requires forall r, s :: 0 <= r < s < |ranked| ==> p[ranked[r]] <= p[ranked[s]]
    ensures |out| == |ranked| + 1
    ensures forall r :: 0 <= r < |out| ==> out[r] <= i && (out[r] == i || out[r] in ranked)
    ensures forall r, s :: 0 <= r < s < |out| ==> out[r] != out[s] && p[out[r]] <= p[out[s]]
  {
    if ranked == [] || p[ranked[|ranked| - 1]] <= p[i] then ranked + [i]
    else
      var rest := InsertIndex(p, ranked[..|ranked| - 1], i);
      rest + [ranked[|ranked| - 1]]
  }

  /** Stable insertion of the first n hypotheses. */
  function RankFirst(p: PValues, n: nat): (ranked: seq<nat>)
    requires n <= |p|
    ensures IsIndexList(ranked, n)
    ensures forall r, s :: 0 <= r < s < n ==> p[ranked[r]] <= p[ranked[s]]
  {
    if n == 0 then [] else InsertIndex(p, RankFirst(p, n - 1), n - 1)
  }

  // ---- The loop ----

  /** The running maximum after ranks 0 .. n-1. */
  function RunningMax(p: PValues, ranked: seq<nat>, n: nat): real
    requires IsRanking(p, ranked) && n <= |p|
  {
    if n == 0 then 0.0
    else Max(RunningMax(p, ranked, n - 1), Min(1.0, Times(p[ranked[n - 1]], |p| - (n - 1))))
  }

  method HolmAdjust(pValues: PValues) returns (adjusted: array<real>)
    ensures adjusted.Length == |pValues|
    ensures forall i :: 0 <= i < |pValues| ==> adjusted[i] == Adjusted(pValues, i)
  {
    hide Times, Adjusted, RankFirst, RunningMax;
    var m := |pValues|;
    var ranked := RankFirst(pValues, m);
    adjusted := new real[m](_ => 1.0);
    var previous := 0.0;
    assert IsRanking(pValues, ranked);
    NextMax(pValues, ranked, 0);
    for rank := 0 to m
      invariant previous == RunningMax(pValues, ranked, rank)
      invariant forall r :: 0 <= r < rank ==> adjusted[ranked[r]] == RunningMax(pValues, ranked, r + 1)
    {
      NextMax(pValues, ranked, rank + 1);
      var current := Min(1.0, Times(pValues[ranked[rank]], m - rank));
      previous := Max(previous, current);
      adjusted[ranked[rank]] := previous;
    }
    ScatterCovers(pValues, ranked, adjusted[..]);
  }

  lemma NextMax(p: PValues, ranked: seq<nat>, n: nat)
    requires IsRanking(p, ranked) && n <= |p|
    ensures RunningMax(p, ranked, n) ==
            if n == 0 then 0.0
            else Max(RunningMax(p, ranked, n - 1), Min(1.0, Times(p[ranked[n - 1]], |p| - (n - 1))))
  {}

  lemma ScatterCovers(p: PValues, ranked: seq<nat>, adjusted: seq<real>)
    requires IsRanking(p, ranked) && |adjusted| == |p|
    requires forall r :: 0 <= r < |p| ==> adjusted[ranked[r]] == RunningMax(p, ranked, r + 1)
    ensures forall i :: 0 <= i < |p| ==> adjusted[i] == Adjusted(p, i)
  {
    hide Adjusted, RunningMax;
    forall i | 0 <= i < |p| ensures adjusted[i] == Adjusted(p, i) {
      var r := RankOf(p, ranked, i);
      RunningMaxIsAdjusted(p, ranked, r);
    }
  }

  // ---- An order-free description of the outcome ----

  function CountAtLeast(p: PValues, v: real): nat { |set i: nat | i < |p| && p[i] >= v| }

  /** The Bonferroni bound of v against the hypotheses whose p-value is not below it. */
  function Scaled(p: PValues, v: real): real { Min(1.0, Times(v, CountAtLeast(p, v))) }

  function LargestScaled(p: PValues, limit: real, n: nat): real
    requires n <= |p|
  {
    if n == 0 then 0.0
    else if p[n - 1] <= limit then Max(LargestScaled(p, limit, n - 1), Scaled(p, p[n - 1]))
    else LargestScaled(p, limit, n - 1)
  }

  /** The adjusted p-value of hypothesis i, without reference to any sort order. */
  function Adjusted(p: PValues, i: nat): real
    requires i < |p|
  {
    LargestScaled(p, p[i], |p|)
  }

  lemma {:induction false} LargestScaledIsLub(p: PValues, limit: real, n: nat)
    requires n <= |p|
    ensures LargestScaled(p, limit, n) >= 0.0
    ensures forall j :: 0 <= j < n && p[j] <= limit ==> Scaled(p, p[j]) <= LargestScaled(p, limit, n)
    ensures LargestScaled(p, limit, n) == 0.0
            || exists j :: 0 <= j < n && p[j] <= limit && LargestScaled(p, limit, n) == Scaled(p, p[j])
  {
    hide Scaled;
    if n > 0 { LargestScaledIsLub(p, limit, n - 1); }
  }

  lemma AdjustedIsLub(p: PValues, i: nat)
    requires i < |p| && Probabilities(p)
    ensures forall j :: 0 <= j < |p| && p[j] <= p[i] ==> Scaled(p, p[j]) <= Adjusted(p, i)
    ensures exists j :: 0 <= j < |p| && p[j] <= p[i] && Adjusted(p, i) == Scaled(p, p[j])
  {
    LargestScaledIsLub(p, p[i], |p|);
    ScaledRange(p, i);
  }

  // ---- Counting through a ranking ----

  /** The hypotheses standing at ranks lo .. hi-1. */
  ghost function Image(ranked: seq<nat>, lo: nat, hi: nat): (image: set<nat>)
    requires lo <= hi <= |ranked|
    ensures forall r :: lo <= r < hi ==> ranked[r] in image
    ensures forall x :: x in image ==> exists r :: lo <= r < hi && ranked[r] == x
    ensures (forall r, s :: lo <= r < s < hi ==> ranked[r] != ranked[s]) ==> |image| == hi - lo
  {
    if lo == hi then {} else Image(ranked, lo, hi - 1) + {ranked[hi - 1]}
  }

  ghost function UpTo(m: nat): (all: set<nat>)
    ensures forall i: nat :: i in all <==> i < m
    ensures |all| == m
  {
    if m == 0 then {} else UpTo(m - 1) + {m - 1}
  }

  lemma SubsetFull(a: set<nat>, b: set<nat>)
    requires a <= b && |a| == |b|
    ensures a == b
  {
    assert |b - a| == |b| - |a|;
  }

  /** A list of m distinct indices below m mentions every index. */
  lemma IndexListCovers(ranked: seq<nat>, m: nat)
    requires IsIndexList(ranked, m)
    ensures forall i: nat :: i < m ==> i in ranked
  {
    SubsetFull(Image(ranked, 0, m), UpTo(m));
    forall i: nat | i < m ensures i in ranked { assert i in UpTo(m); }
  }

  lemma RankOf(p: PValues, ranked: seq<nat>, i: nat) returns (r: nat)
    requires IsRanking(p, ranked) && i < |p|
    ensures r < |p| && ranked[r] == i
  {
    IndexListCovers(ranked, |p|);
    assert i in ranked;
    r :| 0 <= r < |p| && ranked[r] == i;
  }

  lemma CountFromRank(p: PValues, ranked: seq<nat>, r: nat)
    requires IsRanking(p, ranked) && r < |p|
    ensures CountAtLeast(p, p[ranked[r]]) >= |p| - r
    ensures (forall s :: 0 <= s < r ==> p[ranked[s]] < p[ranked[r]]) ==> CountAtLeast(p, p[ranked[r]]) == |p| - r
  {
    var m, v := |p|, p[ranked[r]];
    var image, atLeast := Image(ranked, r, m), set i: nat | i < m && p[i] >= v;
    assert image <= atLeast;
    SubsetSize(image, atLeast);
    if forall s :: 0 <= s < r ==> p[ranked[s]] < v {
      forall i | i in atLeast ensures i in image {
        var s := RankOf(p, ranked, i);
        assert s >= r;
      }
      assert atLeast == image;
    }
  }

  lemma SubsetSize<T>(a: set<T>, b: set<T>)
    requires a <= b
    ensures |a| <= |b|
  {
    assert b == a + (b - a);
  }

  lemma {:induction false} RunningMaxBounds(p: PValues, ranked: seq<nat>, n: nat)
    requires IsRanking(p, ranked) && n <= |p|
    ensures forall r :: 0 <= r < n ==> Min(1.0, Times(p[ranked[r]], |p| - r)) <= RunningMax(p, ranked, n)
    ensures RunningMax(p, ranked, n) >= 0.0
  {
    if n > 0 { RunningMaxBounds(p, ranked, n - 1); }
  }

  lemma {:induction false} RunningMaxBelow(p: PValues, ranked: seq<nat>, k: nat, n: nat)
    requires IsRanking(p, ranked) && n <= k + 1 <= |p|
    ensures RunningMax(p, ranked, n) <= Adjusted(p, ranked[k])
  {
    hide Times, CountAtLeast;
    LargestScaledIsLub(p, p[ranked[k]], |p|);
    if n > 0 {
      RunningMaxBelow(p, ranked, k, n - 1);
      var v := p[ranked[n - 1]];
      if v >= 0.0 {
        CountFromRank(p, ranked, n - 1);
        TimesMonotone(v, v, |p| - (n - 1), CountAtLeast(p, v));
        assert Scaled(p, v) <= Adjusted(p, ranked[k]);
      } else {
        TimesNegative(v, |p| - (n - 1));
      }
    }
  }

  lemma {:induction false} FirstOfTie(p: PValues, ranked: seq<nat>, r: nat) returns (f: nat)
    requires IsRanking(p, ranked) && r < |p|
    ensures f <= r && p[ranked[f]] == p[ranked[r]]
    ensures forall s :: 0 <= s < f ==> p[ranked[s]] < p[ranked[r]]
  {
    f := r;
    if r > 0 && p[ranked[r - 1]] == p[ranked[r]] { f := FirstOfTie(p, ranked, r - 1); }
  }

  /** What the loop stores at rank k does not depend on how ties were ordered. */
  lemma RunningMaxIsAdjusted(p: PValues, ranked: seq<nat>, k: nat)
    requires IsRanking(p, ranked) && k < |p|
    ensures RunningMax(p, ranked, k + 1) == Adjusted(p, ranked[k])
  {
    hide Times, CountAtLeast, LargestScaled;
    RunningMaxBelow(p, ranked, k, k + 1);
    RunningMaxBounds(p, ranked, k + 1);
    LargestScaledIsLub(p, p[ranked[k]], |p|);
    if Adjusted(p, ranked[k]) != 0.0 {
      var j :| 0 <= j < |p| && p[j] <= p[ranked[k]] && Adjusted(p, ranked[k]) == Scaled(p, p[j]);
      var r := RankOf(p, ranked, j);
      var f := FirstOfTie(p, ranked, r);
      CountFromRank(p, ranked, f);
    }
  }

  // ---- Properties of the adjusted values ----

  lemma CountAtLeastRange(p: PValues, i: nat)
    requires i < |p|
    ensures 1 <= CountAtLeast(p, p[i]) <= |p|
  {
    var s := set k: nat | k < |p| && p[k] >= p[i];
    assert i in s;
    SubsetSize({i}, s);
    SubsetSize(s, UpTo(|p|));
  }

  lemma ScaledRange(p: PValues, i: nat)
    requires i < |p| && Probabilities(p)
    ensures p[i] <= Scaled(p, p[i]) <= Min(1.0, Times(p[i], |p|))
  {
    hide Times, CountAtLeast;
    CountAtLeastRange(p, i);
    TimesOne(p[i]);
    TimesMonotone(p[i], p[i], 1, CountAtLeast(p, p[i]));
    TimesMonotone(p[i], p[i], CountAtLeast(p, p[i]), |p|);
  }

  /** Never below the raw value, never above Bonferroni's. */
  lemma BetweenRawAndBonferroni(p: PValues, i: nat)
    requires i < |p| && Probabilities(p)
    ensures p[i] <= Adjusted(p, i) <= Min(1.0, |p| as real * p[i])
  {
    hide Scaled, Adjusted;
    AdjustedIsLub(p, i);
    ScaledRange(p, i);
    var j :| 0 <= j < |p| && p[j] <= p[i] && Adjusted(p, i) == Scaled(p, p[j]);
    ScaledRange(p, j);
    TimesMonotone(p[j], p[i], |p|, |p|);
    assert Times(p[i], |p|) == |p| as real * p[i];
  }

  /** A larger raw value never gets a smaller adjusted one; equal raw values get
      equal adjusted ones. */
  lemma KeepsOrder(p: PValues, i: nat, j: nat)
    requires i < |p| && j < |p| && Probabilities(p) && p[i] <= p[j]
    ensures Adjusted(p, i) <= Adjusted(p, j)
  {
    hide Scaled, Adjusted;
    AdjustedIsLub(p, i);
    AdjustedIsLub(p, j);
  }

  /** Raising any of the p-values lowers none of the adjusted ones. */
  lemma MonotoneInEveryPValue(p: PValues, q: PValues, i: nat)
    requires |p| == |q| && i < |p| && Probabilities(p) && Probabilities(q)
    requires forall k :: 0 <= k < |p| ==> p[k] <= q[k]
    ensures Adjusted(p, i) <= Adjusted(q, i)
  {
    hide Times, Adjusted;
    AdjustedIsLub(p, i);
    AdjustedIsLub(q, i);
    var j :| 0 <= j < |p| && p[j] <= p[i] && Adjusted(p, i) == Scaled(p, p[j]);
    var upper := set k: nat | k < |p| && p[k] >= p[j];
    var low := Smallest(q, upper, i);
    var upper' := set k: nat | k < |q| && q[k] >= q[low];
    SubsetSize(upper, upper');
    TimesMonotone(p[j], q[low], |upper|, |upper'|);
    assert Scaled(p, p[j]) <= Scaled(q, q[low]);
  }

  lemma {:induction false} Smallest(q: PValues, s: set<nat>, i: nat) returns (low: nat)
    requires i in s && forall k :: k in s ==> k < |q|
    ensures low in s && forall k :: k in s ==> q[low] <= q[k]
    decreases s
  {
    if s == {i} { return i; }
    assert s - {i} != {} by { assert s != {i}; }
    var other :| other in s - {i};
    low := Smallest(q, s - {other}, i);
    if q[other] < q[low] { low := other; }
  }

  /** Permuting the hypotheses permutes the adjusted values, ties included. */
  lemma PermutationEquivariant(p: PValues, q: PValues, perm: seq<nat>, i: nat)
    requires Probabilities(p) && IsIndexList(perm, |p|) && |q| == |p| && i < |p|
    requires forall k :: 0 <= k < |p| ==> q[k] == p[perm[k]]
    ensures Adjusted(q, i) == Adjusted(p, perm[i])
  {
    hide Adjusted, Scaled;
    AdjustedIsLub(p, perm[i]);
    AdjustedIsLub(q, i);
    var j :| 0 <= j < |q| && q[j] <= q[i] && Adjusted(q, i) == Scaled(q, q[j]);
    ScaledPermuted(p, q, perm, q[j]);
    assert Scaled(p, p[perm[j]]) <= Adjusted(p, perm[i]);
    var k :| 0 <= k < |p| && p[k] <= p[perm[i]] && Adjusted(p, perm[i]) == Scaled(p, p[k]);
    IndexListCovers(perm, |p|);
    assert k in perm;
    var k' :| 0 <= k' < |p| && perm[k'] == k;
    ScaledPermuted(p, q, perm, q[k']);
    assert Scaled(q, q[k']) <= Adjusted(q, i);
  }

  lemma ScaledPermuted(p: PValues, q: PValues, perm: seq<nat>, v: real)
    requires IsIndexList(perm, |p|) && |q| == |p|
    requires forall k :: 0 <= k < |p| ==> q[k] == p[perm[k]]
    ensures Scaled(q, v) == Scaled(p, v)
  {
    var inP, inQ := set k: nat | k < |p| && p[k] >= v, set k: nat | k < |q| && q[k] >= v;
    IndexListCovers(perm, |p|);
    ImageSize(perm, |p|, inQ);
    var image := set k | k in inQ :: perm[k];
    assert image <= inP;
    forall k | k in inP ensures k in image {
      assert k in perm;
      var r :| 0 <= r < |p| && perm[r] == k;
      assert r in inQ;
    }
    assert image == inP;
  }

  lemma {:induction false} ImageSize(perm: seq<nat>, m: nat, s: set<nat>)
    requires IsIndexList(perm, m) && forall k :: k in s ==> k < m
    ensures |set k | k in s :: perm[k]| == |s|
    decreases s
  {
    var image := set k | k in s :: perm[k];
    if s == {} {
      assert image == {};
    } else {
      var x: nat :| x in s;
      ImageSize(perm, m, s - {x});
      assert image == (set k | k in s - {x} :: perm[k]) + {perm[x]};
      assert perm[x] !in (set k | k in s - {x} :: perm[k]);
    }
  }

  // ---- The step-down procedure ----

  /** Sequential Holm: starting at rank r, reject while the next smallest p-value is
      within alpha divided by the number of hypotheses left; the result is the first
      rank that is not rejected. */
  function StepDown(p: PValues, ranked: seq<nat>, alpha: real, r: nat): (stop: nat)
    requires IsRanking(p, ranked) && r <= |p|
    ensures r <= stop <= |p|
    decreases |p| - r
  {
    if r < |p| && p[ranked[r]] <= alpha / (|p| - r) as real then StepDown(p, ranked, alpha, r + 1) else r
  }

  lemma {:induction false} StepDownStops(p: PValues, ranked: seq<nat>, alpha: real, r: nat, k: nat)
    requires IsRanking(p, ranked) && r <= k < |p|
    ensures k < StepDown(p, ranked, alpha, r)
            <==> forall s :: r <= s <= k ==> p[ranked[s]] <= alpha / (|p| - s) as real
    decreases |p| - r
  {
    if p[ranked[r]] <= alpha / (|p| - r) as real && r < k { StepDownStops(p, ranked, alpha, r + 1, k); }
  }

  lemma Threshold(v: real, alpha: real, left: nat)
    requires left > 0 && alpha < 1.0
    ensures Min(1.0, Times(v, left)) <= alpha <==> v <= alpha / left as real
  {
    var l := left as real;
    assert alpha / l * l == alpha;
    if v <= alpha / l { assert v * l <= alpha / l * l; }
    if v > alpha / l { assert v * l > alpha / l * l; }
  }

  lemma {:induction false} RunningMaxWithin(p: PValues, ranked: seq<nat>, alpha: real, n: nat)
    requires IsRanking(p, ranked) && 0 < n <= |p| && alpha < 1.0 && Probabilities(p)
    ensures RunningMax(p, ranked, n) <= alpha
            <==> forall s :: 0 <= s < n ==> p[ranked[s]] <= alpha / (|p| - s) as real
  {
    hide Times;
    var last := p[ranked[n - 1]];
    Threshold(last, alpha, |p| - (n - 1));
    TimesMonotone(0.0, last, 0, |p| - (n - 1));
    if n > 1 { RunningMaxWithin(p, ranked, alpha, n - 1); }
  }

  /** Comparing an adjusted value with alpha is the step-down decision. */
  lemma AdjustedDecidesStepDown(p: PValues, ranked: seq<nat>, alpha: real, k: nat)
    requires Probabilities(p) && IsRanking(p, ranked) && k < |p| && alpha < 1.0
    ensures Adjusted(p, ranked[k]) <= alpha <==> k < StepDown(p, ranked, alpha, 0)
  {
    hide Adjusted, RunningMax;
    RunningMaxIsAdjusted(p, ranked, k);
    RunningMaxWithin(p, ranked, alpha, k + 1);
    StepDownStops(p, ranked, alpha, 0, k);
  }
}
