/** The exact McNemar test of packages/research/src/analysis.ts: a binomial
    coefficient built by multiplying before dividing, and a capped doubled tail. */
module McNemar {

  /** Pascal's triangle. */
  function Choose(n: nat, k: nat): nat {
    if k == 0 then 1
    else if n == 0 then 0
    else Choose(n - 1, k - 1) + Choose(n - 1, k)
  }

  function Pow2(n: nat): (p: nat)
    ensures p > 0
  {
    if n == 0 then 1 else 2 * Pow2(n - 1)
  }

  lemma {:induction false} UnfoldChoose(n: nat, k: nat)
    ensures Choose(n, k) == if k == 0 then 1 else if n == 0 then 0 else Choose(n - 1, k - 1) + Choose(n - 1, k)
  {}

  lemma {:induction false} ChooseZeroAbove(n: nat, k: nat)
    requires k > n
    ensures Choose(n, k) == 0
  {
    if n > 0 {
      ChooseZeroAbove(n - 1, k - 1);
      ChooseZeroAbove(n - 1, k);
    }
  }

  lemma {:induction false} ChoosePositive(n: nat, k: nat)
    requires k <= n
    ensures Choose(n, k) > 0
  {
    if k > 0 { ChoosePositive(n - 1, k - 1); }
  }

  lemma {:induction false} ChooseSymmetric(n: nat, k: nat)
    requires k <= n
    ensures Choose(n, k) == Choose(n, n - k)
    decreases n
  {
    if n == 0 {
    } else if k == 0 {
      ChooseZeroAbove(n - 1, n);
      ChooseSymmetric(n - 1, 0);
    } else if k == n {
      ChooseZeroAbove(n - 1, n);
      ChooseSymmetric(n - 1, n - 1);
    } else {
      ChooseSymmetric(n - 1, k - 1);
      ChooseSymmetric(n - 1, k);
    }
  }

  /** k * C(n, k) == n * C(n - 1, k - 1): what makes every division below exact. */
  lemma {:induction false} Absorption(n: nat, k: nat)
    requires n > 0 && k > 0
    ensures k * Choose(n, k) == n * Choose(n - 1, k - 1)
    decreases n
  {
    hide Choose;
    UnfoldChoose(n, k);
    UnfoldChoose(n - 1, k - 1);
    UnfoldChoose(n - 1, k);
    if n == 1 {
    } else if k == 1 {
      Absorption(n - 1, 1);
      UnfoldChoose(n - 2, 0);
    } else {
      Absorption(n - 1, k - 1);
      Absorption(n - 1, k);
      AbsorptionStep(n, k, Choose(n - 2, k - 2), Choose(n - 2, k - 1), Choose(n - 1, k));
    }
  }

  lemma AbsorptionStep(n: int, k: int, x: int, y: int, z: int)
    requires (k - 1) * (x + y) == (n - 1) * x
    requires k * z == (n - 1) * y
    ensures k * ((x + y) + z) == n * (x + y)
  {
    assert k * ((x + y) + z) == (x + y) + (k - 1) * (x + y) + k * z;
    assert n * (x + y) == (x + y) + (n - 1) * x + (n - 1) * y;
  }

  /** The loop's intermediate product is always a multiple of the next divisor. */
  lemma ExactStep(n: nat, k: nat)
    requires n > 0 && k > 0
    ensures Choose(n - 1, k - 1) * n % k == 0
    ensures Choose(n - 1, k - 1) * n / k == Choose(n, k)
  {
    Absorption(n, k);
    var c := Choose(n, k);
    assert Choose(n - 1, k - 1) * n == k * c;
    DivideProduct(k, c);
  }

  lemma DivideProduct(k: int, c: int)
    requires k > 0
    ensures k * c % k == 0 && k * c / k == c
  {
    var q, r := k * c / k, k * c % k;
    assert k * (c - q) == r;
    if c != q { Multiple(k, c - q); }
  }

  lemma Multiple(k: int, d: int)
    requires k > 0
    ensures d > 0 ==> k * d >= k
    ensures d < 0 ==> k * d < 0
  {}

  method Combination(n: nat, k: int) returns (value: nat)
    ensures value == if 0 <= k <= n then Choose(n, k) else 0
  {
    if k < 0 || k > n { return 0; }
    var limit := if k <= n - k then k else n - k;
    value := 1;
    var index := 1;
    while index <= limit
      invariant 1 <= index <= limit + 1
      invariant value == Choose(n - limit + index - 1, index - 1)
    {
      ExactStep(n - limit + index, index);
      value := value * (n - limit + index) / index;
      index := index + 1;
    }
    ChooseSymmetric(n, k);
  }

  /** Number of outcomes of n fair flips with at most `upto - 1` heads. */
  function Tail(n: nat, upto: nat): nat {
    if upto == 0 then 0 else Tail(n, upto - 1) + Choose(n, upto - 1)
  }

  /** Number of outcomes of n fair flips, among those with fewer than `upto` heads,
      whose imbalance |heads - tails| is at least `imbalance`. */
  function Extreme(n: nat, imbalance: nat, upto: nat): nat {
    if upto == 0 then 0
    else Extreme(n, imbalance, upto - 1) + (if Imbalance(n, upto - 1) >= imbalance then Choose(n, upto - 1) else 0)
  }

  function Imbalance(n: nat, heads: nat): nat {
    if 2 * heads >= n then 2 * heads - n else n - 2 * heads
  }

  /** The two-sided exact p-value: the share of outcomes at least as imbalanced as
      the observed one. */
  function PValue(b: nat, c: nat): real {
    Extreme(b + c, Imbalance(b + c, b), b + c + 1) as real / Pow2(b + c) as real
  }

  lemma {:induction false} RowSum(n: nat, upto: nat)
    requires n > 0 && upto > 0
    ensures Tail(n, upto) == Tail(n - 1, upto - 1) + Tail(n - 1, upto)
  {
    if upto > 1 { RowSum(n, upto - 1); }
  }

  lemma {:induction false} TailTotal(n: nat)
    ensures Tail(n, n + 1) == Pow2(n)
  {
    if n > 0 {
      RowSum(n, n + 1);
      TailTotal(n - 1);
      ChooseZeroAbove(n - 1, n);
    }
  }

  /** The lower tail below k and the upper tail from n + 1 - k on mirror each other. */
  lemma {:induction false} TailMirror(n: nat, k: nat)
    requires k <= n + 1
    ensures Tail(n, k) + Tail(n, n + 1 - k) == Pow2(n)
  {
    if k == 0 {
      TailTotal(n);
    } else {
      TailMirror(n, k - 1);
      ChooseSymmetric(n, k - 1);
    }
  }

  lemma {:induction false} TailMonotone(n: nat, j: nat, k: nat)
    requires j <= k
    ensures Tail(n, j) <= Tail(n, k)
  {
    if j < k { TailMonotone(n, j, k - 1); }
  }

  /** Splits the extreme outcomes at the two tail boundaries. */
  lemma {:induction false} ExtremeSplit(n: nat, lower: nat, upto: nat)
    requires 2 * lower <= n && upto <= n + 1
    ensures Extreme(n, n - 2 * lower, upto) ==
            if 2 * lower == n || upto <= lower + 1 then Tail(n, upto)
            else if upto <= n - lower then Tail(n, lower + 1)
            else Tail(n, lower + 1) + Tail(n, upto) - Tail(n, n - lower)
  {
    if upto > 0 { ExtremeSplit(n, lower, upto - 1); }
  }

  /** Extreme outcomes are twice the lower tail, except that a perfectly balanced
      split makes every outcome extreme. */
  lemma ExtremeIsDoubledTail(b: nat, c: nat)
    ensures var n, lower := b + c, if b <= c then b else c;
            Extreme(n, Imbalance(n, b), n + 1) ==
            if b == c then Pow2(n) else 2 * Tail(n, lower + 1)
  {
    var n, lower := b + c, if b <= c then b else c;
    ExtremeSplit(n, lower, n + 1);
    TailTotal(n);
    if b != c { TailMirror(n, lower + 1); }
  }

  lemma {:induction false} TailPositive(n: nat, k: nat)
    requires k > 0
    ensures Tail(n, k) > 0
  {
    TailMonotone(n, 1, k);
    assert Tail(n, 1) == Tail(n, 0) + Choose(n, 0) == 1;
  }

  /** The doubled tail exceeds the whole distribution exactly when the two
      discordant counts are equal; otherwise it fits. */
  lemma CapCutsOnlyTies(b: nat, c: nat)
    ensures var n, lower := b + c, if b <= c then b else c;
            2 * Tail(n, lower + 1) > Pow2(n) <==> b == c
  {
    var n, lower := b + c, if b <= c then b else c;
    TailMirror(n, lower + 1);
    if b == c {
      ChoosePositive(n, lower);
      assert Tail(n, n + 1 - (lower + 1)) == Tail(n, lower);
    } else {
      TailMonotone(n, lower + 1, n + 1 - (lower + 1));
    }
  }

  function HalfPower(n: nat): real { if n == 0 then 1.0 else 0.5 * HalfPower(n - 1) }

  lemma {:induction false} HalfPowerIsReciprocal(n: nat)
    ensures HalfPower(n) * Pow2(n) as real == 1.0
  {
    if n > 0 {
      HalfPowerIsReciprocal(n - 1);
      var h, p := HalfPower(n - 1), Pow2(n - 1) as real;
      assert Pow2(n) as real == 2.0 * p;
      assert (0.5 * h) * (2.0 * p) == h * p;
    }
  }

  lemma Ratio(t: real, h: real, p: real)
    requires p > 0.0 && h * p == 1.0
    ensures t * h == t / p
  {
    assert t * h * p == t * (h * p) == t;
    assert (t * h) * p / p == t * h;
  }

  lemma DivideMonotone(x: real, y: real, p: real)
    requires p > 0.0 && x <= y
    ensures x / p <= y / p
    ensures x < y ==> x / p < y / p
  {}

  lemma {:induction false} UnfoldTail(n: nat, upto: nat)
    ensures Tail(n, upto) == if upto == 0 then 0 else Tail(n, upto - 1) + Choose(n, upto - 1)
  {}

  /** All n discordant pairs on one side: the two extreme outcomes of 2^n. */
  lemma AllOnOneSide(n: nat)
    requires n >= 1
    ensures PValue(n, 0) == 2.0 / Pow2(n) as real
  {
    ExtremeIsDoubledTail(n, 0);
    assert Tail(n, 1) == Tail(n, 0) + Choose(n, 0) == 1;
  }

  lemma NoDiscordance()
    ensures PValue(0, 0) == 1.0
  {
    assert Extreme(0, 0, 1) == Extreme(0, 0, 0) + Choose(0, 0) == 1;
  }

  lemma SharesAdd(tail: nat, ways: nat, h: real)
    ensures (tail + ways) as real * h == tail as real * h + ways as real * h
  {}

  method ExactMcNemar(baselineOnly: nat, agenttrialOnly: nat) returns (pValue: real)
    ensures pValue == PValue(baselineOnly, agenttrialOnly)
  {
    hide *;
    var discordant := baselineOnly + agenttrialOnly;
    if discordant == 0 {
      NoDiscordance();
      return 1.0;
    }
    var lowerTail := if baselineOnly <= agenttrialOnly then baselineOnly else agenttrialOnly;
    var probability := 0.0;
    var count := 0;
    UnfoldTail(discordant, 0);
    while count <= lowerTail
      invariant 0 <= count <= lowerTail + 1
      invariant probability == Tail(discordant, count) as real * HalfPower(discordant)
    {
      var ways := Combination(discordant, count);
      UnfoldTail(discordant, count + 1);
      SharesAdd(Tail(discordant, count), ways, HalfPower(discordant));
      probability := probability + ways as real * HalfPower(discordant);
      count := count + 1;
    }
    assert count == lowerTail + 1;
    var doubled := 2.0 * probability;
    pValue := if doubled < 1.0 then doubled else 1.0;
    CappedTail(baselineOnly, agenttrialOnly);
  }

  lemma CappedShare(tail: nat, p: nat, h: real, extreme: nat, tie: bool)
    requires p > 0 && h * p as real == 1.0
    requires 2 * tail > p <==> tie
    requires extreme == if tie then p else 2 * tail
    ensures var doubled := 2.0 * (tail as real * h);
            extreme as real / p as real == if doubled < 1.0 then doubled else 1.0
  {
    var t, q := tail as real, p as real;
    Ratio(2.0 * t, h, q);
    Regroup(t, h);
    if tie {
      DivideMonotone(q, 2.0 * t, q);
    } else {
      DivideMonotone(2.0 * t, q, q);
    }
  }

  lemma Regroup(t: real, h: real)
    ensures 2.0 * (t * h) == 2.0 * t * h
  {}

  lemma CappedTail(b: nat, c: nat)
    ensures var n, lower := b + c, if b <= c then b else c;
            var doubled := 2.0 * (Tail(n, lower + 1) as real * HalfPower(n));
            PValue(b, c) == if doubled < 1.0 then doubled else 1.0
  {
    hide Tail, HalfPower, Pow2, Extreme, Choose, Imbalance;
    var n, lower := b + c, if b <= c then b else c;
    HalfPowerIsReciprocal(n);
    ExtremeIsDoubledTail(b, c);
    CapCutsOnlyTies(b, c);
    var tail, extreme := Tail(n, lower + 1), Extreme(n, Imbalance(n, b), n + 1);
    CappedShare(tail, Pow2(n), HalfPower(n), extreme, b == c);
    assert PValue(b, c) == extreme as real / Pow2(n) as real;
  }

  lemma PValueSymmetric(b: nat, c: nat)
    ensures PValue(b, c) == PValue(c, b)
  {}

  lemma {:induction false} ExtremeBounds(n: nat, imbalance: nat, upto: nat)
    ensures Extreme(n, imbalance, upto) <= Tail(n, upto)
    ensures forall larger: nat :: imbalance <= larger ==> Extreme(n, larger, upto) <= Extreme(n, imbalance, upto)
  {
    if upto > 0 { ExtremeBounds(n, imbalance, upto - 1); }
  }

  lemma QuotientRange(e: real, p: real)
    requires 0.0 < e <= p
    ensures 0.0 < e / p <= 1.0
    ensures e / p == 1.0 <==> e == p
  {}

  /** The p-value is a positive probability, and is certain exactly when the two
      counts differ by at most one. */
  lemma PValueRange(b: nat, c: nat)
    ensures 0.0 < PValue(b, c) <= 1.0
    ensures PValue(b, c) == 1.0 <==> b - c <= 1 && c - b <= 1
  {
    hide Tail, Pow2, Extreme, Choose;
    var n, lower := b + c, if b <= c then b else c;
    ExtremeIsDoubledTail(b, c);
    CapCutsOnlyTies(b, c);
    TailPositive(n, lower + 1);
    TailMirror(n, lower + 1);
    if lower + 1 < n - lower {
      ChoosePositive(n, lower + 1);
      UnfoldTail(n, lower + 2);
      TailMonotone(n, lower + 2, n - lower);
    }
    QuotientRange(Extreme(n, Imbalance(n, b), n + 1) as real, Pow2(n) as real);
  }

  /** With the number of discordant pairs fixed, a larger imbalance never raises
      the p-value. */
  lemma PValueFallsWithImbalance(b: nat, c: nat, b': nat, c': nat)
    requires b + c == b' + c'
    requires Imbalance(b + c, b) <= Imbalance(b + c, b')
    ensures PValue(b', c') <= PValue(b, c)
  {
    hide Tail, Pow2, Extreme;
    var n := b + c;
    ExtremeBounds(n, Imbalance(n, b), n + 1);
    var e, e', p := Extreme(n, Imbalance(n, b), n + 1) as real,
                    Extreme(n, Imbalance(n, b'), n + 1) as real, Pow2(n) as real;
    DivideMonotone(e', e, p);
  }
}
