/** Paired comparison and the seeded hierarchical bootstrap of
    packages/research/src/analysis.ts, over exact reals. */
module Bootstrap {
  import opened Wrappers
  import McNemar

  datatype BinaryPair = BinaryPair(configurationId: string, baseline: bool, agenttrial: bool)

  // ---- The paired difference ----

  function Bit(b: bool): nat { if b then 1 else 0 }

  function Latest(records: seq<BinaryPair>): BinaryPair
    requires records != []
  {
    records[|records| - 1]
  }

  /** How many records the baseline, or AgentTrial, accepted wrongly. */
  function Marginal(records: seq<BinaryPair>, ofBaseline: bool): nat {
    if records == [] then 0
    else Marginal(records[..|records| - 1], ofBaseline)
         + Bit(if ofBaseline then Latest(records).baseline else Latest(records).agenttrial)
  }

  /** How many records have exactly this pair of outcomes. */
  function Count(records: seq<BinaryPair>, baseline: bool, agenttrial: bool): nat {
    if records == [] then 0
    else Count(records[..|records| - 1], baseline, agenttrial)
         + Bit(Latest(records).baseline == baseline && Latest(records).agenttrial == agenttrial)
  }

  function Difference(records: seq<BinaryPair>): real
    requires records != []
  {
    (Marginal(records, true) - Marginal(records, false)) as real / |records| as real
  }

  /** difference is absent where the source divides by zero. */
  datatype Paired = Paired(total: nat, difference: Option<real>, baselineOnly: nat, agenttrialOnly: nat, pValue: real)

  function PairedFalseAcceptance(records: seq<BinaryPair>): Paired {
    var baselineOnly, agenttrialOnly := Count(records, true, false), Count(records, false, true);
    Paired(|records|, if records == [] then None else Some(Difference(records)), baselineOnly, agenttrialOnly,
           McNemar.PValue(baselineOnly, agenttrialOnly))
  }

  lemma {:induction false} MarginalsFromDiscordance(records: seq<BinaryPair>)
    ensures Marginal(records, true) - Marginal(records, false) ==
            Count(records, true, false) - Count(records, false, true)
    ensures Count(records, true, false) + Count(records, false, true) <= |records|
  {
    if records != [] { MarginalsFromDiscordance(records[..|records| - 1]); }
  }

  /** The two counts are of the records with just those outcomes. */
  lemma {:induction false} CountsAre(records: seq<BinaryPair>, baseline: bool, agenttrial: bool)
    ensures Count(records, baseline, agenttrial) ==
            |set i: nat | i < |records| && records[i].baseline == baseline && records[i].agenttrial == agenttrial|
  {
    var chosen :=
      set i: nat | i < |records| && records[i].baseline == baseline && records[i].agenttrial == agenttrial;
    if records == [] {
      assert chosen == {};
    } else {
      var n := |records| - 1;
      var front := records[..n];
      CountsAre(front, baseline, agenttrial);
      var before := set i: nat | i < |front| && front[i].baseline == baseline && front[i].agenttrial == agenttrial;
      if records[n].baseline == baseline && records[n].agenttrial == agenttrial {
        assert chosen == before + {n};
      } else {
        assert chosen == before;
      }
    }
  }

  lemma DifferenceInRange(records: seq<BinaryPair>)
    requires records != []
    ensures -1.0 <= Difference(records) <= 1.0
  {
    MarginalsFromDiscordance(records);
    Quotient(Marginal(records, true) - Marginal(records, false), |records|);
  }

  lemma Quotient(b: int, n: int)
    requires n > 0 && -n <= b <= n
    ensures -1.0 <= b as real / n as real <= 1.0
  {}

  /** Concordant records cancel: the difference depends on the discordant counts alone,
      and so does the p-value, which is 1 exactly when those counts differ by at most one. */
  lemma PairedDifference(records: seq<BinaryPair>)
    ensures var r := PairedFalseAcceptance(records);
            && (r.difference.None? <==> records == [])
            && (r.difference.Some? ==>
                  && r.difference.value == (r.baselineOnly - r.agenttrialOnly) as real / r.total as real
                  && -1.0 <= r.difference.value <= 1.0)
            && 0.0 < r.pValue <= 1.0
            && (r.pValue == 1.0 <==> -1 <= r.baselineOnly - r.agenttrialOnly <= 1)
  {
    hide McNemar.PValue;
    MarginalsFromDiscordance(records);
    if records != [] { DifferenceInRange(records); }
    McNemar.PValueRange(Count(records, true, false), Count(records, false, true));
  }

  // ---- The generator ----

  const MODULUS := 0x1_0000_0000
  const MULTIPLIER := 1664525
  const INCREMENT := 1013904223
  const SAFE := 0x20_0000_0000_0000 // 2^53
  const INVERSE := 4276115653

  function NextState(s: int): int { (MULTIPLIER * s + INCREMENT) % MODULUS }

  function PreviousState(s: int): int { (INVERSE * (s - INCREMENT)) % MODULUS }

  /** From any 32-bit state the product and sum stay below 2^53, so the floating-point
      computation is exact, and the step is a permutation of the 32-bit states. */
  lemma GeneratorIsExactPermutation(s: int)
    requires 0 <= s < MODULUS
    ensures 0 <= MULTIPLIER * s + INCREMENT < SAFE
    ensures 0 <= NextState(s) < MODULUS && 0 <= PreviousState(s) < MODULUS
    ensures PreviousState(NextState(s)) == s && NextState(PreviousState(s)) == s
  {
    var t := NextState(s);
    var q := (MULTIPLIER * s + INCREMENT) / MODULUS;
    assert MULTIPLIER * INVERSE == 1657219 * MODULUS + 1;
    assert t == MULTIPLIER * s + INCREMENT - q * MODULUS;
    assert INVERSE * (t - INCREMENT) == s + (1657219 * s - INVERSE * q) * MODULUS;
    Residue(INVERSE * (t - INCREMENT), s, 1657219 * s - INVERSE * q);
    var u := PreviousState(s);
    var r := INVERSE * (s - INCREMENT) / MODULUS;
    assert u == INVERSE * (s - INCREMENT) - r * MODULUS;
    assert MULTIPLIER * u + INCREMENT == s + (1657219 * (s - INCREMENT) - MULTIPLIER * r) * MODULUS;
    Residue(MULTIPLIER * u + INCREMENT, s, 1657219 * (s - INCREMENT) - MULTIPLIER * r);
  }

  lemma Residue(x: int, s: int, k: int)
    requires 0 <= s < MODULUS && x == s + k * MODULUS
    ensures x % MODULUS == s
  {}

  class Generator {
    var value: int

    ghost predicate Valid()
      reads this
    {
      0 <= value < MODULUS
    }

    constructor (seed: int)
      ensures Valid() && value == seed % MODULUS
    {
      value := seed % MODULUS;
    }

    /** Math.floor(random(state) * bound) */
    method Pick(bound: nat) returns (index: nat)
      requires Valid() && bound > 0
      modifies this
      ensures Valid() && value == NextState(old(value)) && index == Draw(old(value), bound)
      ensures value == (1664525 * old(value) + 1013904223) % 0x1_0000_0000
      ensures index * 0x1_0000_0000 <= bound * value < (index + 1) * 0x1_0000_0000
    {
      value := (MULTIPLIER * value + INCREMENT) % MODULUS;
      index := value * bound / MODULUS;
      DivisionBounds(value * bound);
    }
  }

  lemma PickInRange(state: int, bound: nat)
    requires 0 <= state < MODULUS && bound > 0
    ensures 0 <= state * bound / MODULUS < bound
  {
    assert 0 <= state * bound < MODULUS * bound;
    QuotientBelow(state * bound, bound);
  }

  lemma QuotientBelow(x: int, bound: int)
    requires 0 <= x < MODULUS * bound
    ensures 0 <= x / MODULUS < bound
  {}

  /** The pick that follows state s; always in range. */
  function Draw(s: int, bound: nat): (index: nat)
    requires bound > 0
    ensures index < bound
  {
    PickInRange(NextState(s), bound);
    NextState(s) * bound / MODULUS
  }

  lemma DivisionBounds(x: int)
    ensures x / MODULUS * MODULUS <= x < (x / MODULUS + 1) * MODULUS
  {}

  /** A pick is the integer part of the next state's share of the bound. */
  lemma DrawIff(s: int, bound: nat, i: nat)
    requires bound > 0
    ensures Draw(s, bound) == i <==>
              var next := (1664525 * s + 1013904223) % 0x1_0000_0000;
              i * 0x1_0000_0000 <= bound * next < (i + 1) * 0x1_0000_0000
  {
    DivisionBounds(NextState(s) * bound);
  }

  // ---- Every pick is equally likely ----

  lemma {:induction false} SameSize<A, B>(a: set<A>, b: set<B>, f: A -> B, g: B -> A)
    requires forall x :: x in a ==> f(x) in b && g(f(x)) == x
    requires forall y :: y in b ==> g(y) in a && f(g(y)) == y
    ensures |a| == |b|
    decreases a
  {
    if x :| x in a {
      SameSize(a - {x}, b - {f(x)}, f, g);
    } else {
      assert a == {};
      if y :| y in b { assert g(y) in a; }
      assert b == {};
    }
  }

  ghost function Between(lo: int, hi: int): (all: set<int>)
    requires lo <= hi
    ensures forall t :: t in all <==> lo <= t < hi
    ensures |all| == hi - lo
    decreases hi - lo
  {
    if lo == hi then {} else Between(lo, hi - 1) + {hi - 1}
  }

  function CeilDiv(x: nat, b: nat): (q: nat)
    requires b > 0
  {
    (x + b - 1) / b
  }

  lemma CeilDivIs(x: nat, b: nat)
    requires b > 0
    ensures (CeilDiv(x, b) - 1) * b < x <= CeilDiv(x, b) * b
  {
    var y := x + b - 1;
    assert y / b * b <= y < y / b * b + b;
  }

  lemma TimesKeepsOrder(x: int, y: int, b: int)
    requires b > 0
    ensures x <= y <==> x * b <= y * b
    ensures x < y <==> x * b < y * b
  {
    var d := y - x;
    assert y * b - x * b == d * b;
    if d > 0 { assert d * b >= b; }
    if d < 0 { assert d * b <= -b; }
  }

  lemma AtLeastCeil(t: int, x: nat, b: nat)
    requires b > 0
    ensures t >= CeilDiv(x, b) <==> t * b >= x
  {
    CeilDivIs(x, b);
    var c: int := CeilDiv(x, b);
    hide CeilDiv;
    TimesKeepsOrder(c, t, b);
    TimesKeepsOrder(t, c - 1, b);
  }

  predicate InStretch(t: int, b: nat, x: nat, m: nat) { x <= t * b < x + m }

  /** How many values below m have their b-fold in a stretch of length m: m / b, rounded. */
  lemma PartSize(m: nat, b: nat, x: nat)
    requires 0 < b <= m && x + m <= m * b
    ensures var part := set t: int | 0 <= t < m && InStretch(t, b, x, m);
            m / b <= |part| <= CeilDiv(m, b)
  {
    hide CeilDiv;
    var lo, hi := CeilDiv(x, b), CeilDiv(x + m, b);
    var part := set t: int | 0 <= t < m && InStretch(t, b, x, m);
    CeilDivIs(x, b);
    CeilDivIs(x + m, b);
    WidthBounds(m, b, x, lo, hi);
    AtLeastCeil(m, x + m, b);
    AtLeastCeil(-1, x, b);
    forall t: int ensures t in part <==> t in Between(lo, hi) {
      AtLeastCeil(t, x, b);
      AtLeastCeil(t, x + m, b);
    }
    assert part == Between(lo, hi);
  }

  lemma WidthBounds(m: nat, b: nat, x: nat, lo: nat, hi: nat)
    requires 0 < b <= m && (lo - 1) * b < x <= lo * b && (hi - 1) * b < x + m <= hi * b
    ensures lo <= hi && m / b <= hi - lo <= CeilDiv(m, b)
  {
    hide CeilDiv;
    var w := hi - lo;
    WidthProduct(m, b, x, lo, hi);
    FloorBelow(m, b, w);
    AtLeastCeil(w - 1, m, b);
    AtLeastCeil(w, m, b);
    assert (w - 1) * b == w * b - b;
    CeilAbove(m, b, w);
  }

  lemma WidthProduct(m: nat, b: nat, x: nat, lo: nat, hi: nat)
    requires (lo - 1) * b < x <= lo * b && (hi - 1) * b < x + m <= hi * b
    ensures m - b < (hi - lo) * b < m + b
  {
    assert (hi - lo) * b == hi * b - lo * b;
    assert (hi - 1) * b == hi * b - b && (lo - 1) * b == lo * b - b;
  }

  lemma FloorBelow(m: nat, b: nat, w: int)
    requires 0 < b <= m && w * b > m - b
    ensures w >= m / b && w >= 0
  {
    var q := m / b;
    assert q * b <= m;
    assert (q - 1) * b == q * b - b;
    TimesKeepsOrder(q - 1, w, b);
    TimesKeepsOrder(-1, w, b);
  }

  lemma CeilAbove(m: nat, b: nat, w: int)
    requires b > 0 && w * b < m + b
    ensures w <= CeilDiv(m, b)
  {
    CeilDivIs(m, b);
    var c := CeilDiv(m, b);
    hide CeilDiv;
    assert (c + 1) * b == c * b + b;
    TimesKeepsOrder(w, c + 1, b);
  }

  /** Each index below the bound is picked from as many of the 2^32 states as the bound
      divides them into, give or take the rounding: none is left out, none is favoured. */
  lemma PicksAreUniform(bound: nat, i: nat)
    requires 0 < bound <= 0x1_0000_0000 && i < bound
    ensures var states := set s: int | 0 <= s < 0x1_0000_0000 && Draw(s, bound) == i;
            && 1 <= |states|
            && 0x1_0000_0000 / bound <= |states| <= (0x1_0000_0000 + bound - 1) / bound
  {
    var states := set s: int | 0 <= s < MODULUS && Draw(s, bound) == i;
    var part := set t: int | 0 <= t < MODULUS && InStretch(t, bound, i * MODULUS, MODULUS);
    forall s | s in states ensures NextState(s) in part && PreviousState(NextState(s)) == s {
      GeneratorIsExactPermutation(s);
      DrawIff(s, bound, i);
    }
    forall t | t in part ensures PreviousState(t) in states && NextState(PreviousState(t)) == t {
      GeneratorIsExactPermutation(t);
      DrawIff(PreviousState(t), bound, i);
    }
    SameSize(states, part, NextState, PreviousState);
    PartFits(bound, i);
    PartSize(MODULUS, bound, i * MODULUS);
    AtLeastOne(bound);
  }

  lemma PartFits(bound: nat, i: nat)
    requires i < bound
    ensures (i + 1) * MODULUS == i * MODULUS + MODULUS <= MODULUS * bound
  {}

  lemma AtLeastOne(bound: nat)
    requires 0 < bound <= 0x1_0000_0000
    ensures 0x1_0000_0000 / bound >= 1
  {}

  // ---- Grouping by configuration ----

  /** The records of one configuration, in order. */
  function GroupOf(records: seq<BinaryPair>, id: string): (group: seq<BinaryPair>)
    ensures forall r :: r in group ==> r in records && r.configurationId == id
  {
    if records == [] then []
    else GroupOf(records[..|records| - 1], id)
         + (if Latest(records).configurationId == id then [Latest(records)] else [])
  }

  function IdsOf(records: seq<BinaryPair>): (ids: seq<string>)
    ensures forall i, j :: 0 <= i < j < |ids| ==> ids[i] != ids[j]
    ensures forall id :: id in ids <==> exists r :: r in records && r.configurationId == id
  {
    if records == [] then []
    else
      var before, last := IdsOf(records[..|records| - 1]), Latest(records);
      assert forall r :: r in records <==> r in records[..|records| - 1] || r == last;
      if last.configurationId in before then before else before + [last.configurationId]
  }

  function Gathered(records: seq<BinaryPair>, ids: seq<string>): seq<BinaryPair> {
    if ids == [] then [] else Gathered(records, ids[..|ids| - 1]) + GroupOf(records, ids[|ids| - 1])
  }

  /** The groups, one after the other, hold every record exactly once. */
  lemma {:induction false} GroupsPartition(records: seq<BinaryPair>)
    ensures multiset(Gathered(records, IdsOf(records))) == multiset(records)
  {
    if records == [] {
    } else {
      var front, last := records[..|records| - 1], Latest(records);
      assert records == front + [last];
      GroupsPartition(front);
      var ids := IdsOf(front);
      if last.configurationId in ids {
        GatheredPlusOne(records, ids);
      } else {
        GatheredPlusOne(records, ids);
        NoGroup(front, last.configurationId);
        var longer := ids + [last.configurationId];
        assert longer[..|longer| - 1] == ids;
      }
    }
  }

  lemma {:induction false} NoGroup(records: seq<BinaryPair>, id: string)
    requires forall r :: r in records ==> r.configurationId != id
    ensures GroupOf(records, id) == []
  {
    if records != [] { NoGroup(records[..|records| - 1], id); }
  }

  /** Adding a last record adds it to its own group, if that is among the ids. */
  lemma {:induction false} GatheredPlusOne(records: seq<BinaryPair>, ids: seq<string>)
    requires records != [] && forall i, j :: 0 <= i < j < |ids| ==> ids[i] != ids[j]
    ensures multiset(Gathered(records, ids)) ==
            multiset(Gathered(records[..|records| - 1], ids))
            + (if Latest(records).configurationId in ids then multiset{Latest(records)} else multiset{})
    decreases |ids|
  {
    hide GroupOf;
    if ids != [] {
      var front, id := ids[..|ids| - 1], ids[|ids| - 1];
      GatheredPlusOne(records, front);
      GroupPlusOne(records, id);
      assert ids == front + [id];
    }
  }

  lemma GroupPlusOne(records: seq<BinaryPair>, id: string)
    requires records != []
    ensures multiset(GroupOf(records, id)) ==
            multiset(GroupOf(records[..|records| - 1], id))
            + (if Latest(records).configurationId == id then multiset{Latest(records)} else multiset{})
  {}

  lemma {:induction false} GroupComplete(records: seq<BinaryPair>, r: BinaryPair)
    requires r in records
    ensures r in GroupOf(records, r.configurationId)
  {
    if Latest(records) != r { GroupComplete(records[..|records| - 1], r); }
  }

  /** Configuration id to its records. */
  function Groups(records: seq<BinaryPair>): (groups: map<string, seq<BinaryPair>>)
    ensures Grouping(groups, IdsOf(records))
  {
    var ids := IdsOf(records);
    GroupsAreNonEmpty(records);
    map id | id in ids :: GroupOf(records, id)
  }

  lemma GroupsAreNonEmpty(records: seq<BinaryPair>)
    ensures forall id :: id in IdsOf(records) ==> GroupOf(records, id) != []
  {
    forall id | id in IdsOf(records) ensures GroupOf(records, id) != [] {
      var r :| r in records && r.configurationId == id;
      GroupComplete(records, r);
    }
  }

  predicate Grouping(groups: map<string, seq<BinaryPair>>, ids: seq<string>) {
    forall id :: id in ids ==> id in groups && groups[id] != []
  }

  lemma NothingGrouped()
    ensures IdsOf([]) == []
  {}

  lemma GroupingStep(before: seq<BinaryPair>, r: BinaryPair)
    ensures IdsOf(before + [r]) == IdsOf(before)
            + (if r.configurationId in IdsOf(before) then [] else [r.configurationId])
    ensures forall id ::
              GroupOf(before + [r], id) == GroupOf(before, id) + (if r.configurationId == id then [r] else [])
    ensures r.configurationId !in IdsOf(before) ==> GroupOf(before, r.configurationId) == []
  {
    assert (before + [r])[..|before|] == before;
    if r.configurationId !in IdsOf(before) { NoGroup(before, r.configurationId); }
  }

  /** The map built by the source, with its keys in insertion order. */
  method Group(records: seq<BinaryPair>) returns (groups: map<string, seq<BinaryPair>>, ids: seq<string>)
    ensures ids == IdsOf(records) && groups == Groups(records)
  {
    hide GroupOf, IdsOf;
    NothingGrouped();
    groups, ids := map[], [];
    for i := 0 to |records|
      invariant ids == IdsOf(records[..i])
      invariant forall id :: id in groups <==> id in ids
      invariant forall id :: id in groups ==> groups[id] == GroupOf(records[..i], id)
    {
      var r := records[i];
      assert records[..i + 1] == records[..i] + [r];
      GroupingStep(records[..i], r);
      if r.configurationId in groups {
        groups := groups[r.configurationId := groups[r.configurationId] + [r]];
      } else {
        groups := groups[r.configurationId := [r]];
        ids := ids + [r.configurationId];
      }
    }
    assert records[..|records|] == records;
  }

  // ---- The bootstrap ----

  datatype Interval = Interval(estimate: real, lower: real, upper: real)

  predicate Sorted(s: seq<real>) { forall i, j :: 0 <= i < j < |s| ==> s[i] <= s[j] }

  predicate AllWithinOne(s: seq<real>) { forall i :: 0 <= i < |s| ==> -1.0 <= s[i] <= 1.0 }

  function InsertSorted(s: seq<real>, x: real): (out: seq<real>)
    requires Sorted(s)
    ensures Sorted(out) && multiset(out) == multiset(s) + multiset{x} && |out| == |s| + 1
    ensures forall y :: y in out ==> y == x || y in s
  {
    if s == [] || s[|s| - 1] <= x then s + [x]
    else
      assert s == s[..|s| - 1] + [s[|s| - 1]];
      var rest := InsertSorted(s[..|s| - 1], x);
      assert forall i :: 0 <= i < |rest| ==> rest[i] in rest;
      rest + [s[|s| - 1]]
  }

  function SortReals(s: seq<real>): (out: seq<real>)
    ensures Sorted(out) && multiset(out) == multiset(s) && |out| == |s|
  {
    if s == [] then []
    else
      assert s == s[..|s| - 1] + [s[|s| - 1]];
      InsertSorted(SortReals(s[..|s| - 1]), s[|s| - 1])
  }

  /** n records drawn from one group, and the generator's state after them. */
  function DrawRecords(group: seq<BinaryPair>, s: int, n: nat): (drawn: (seq<BinaryPair>, int))
    requires group != []
    ensures |drawn.0| == n && forall r :: r in drawn.0 ==> r in group
  {
    if n == 0 then ([], s)
    else
      var (before, t) := DrawRecords(group, s, n - 1);
      (before + [group[Draw(t, |group|)]], NextState(t))
  }

  /** n groups drawn, each then resampled to its own size. */
  function DrawGroups(
    groups: map<string, seq<BinaryPair>>, ids: seq<string>, s: int, n: nat): (drawn: (seq<BinaryPair>, int))
    requires ids != [] && Grouping(groups, ids)
    ensures |drawn.0| >= n
  {
    if n == 0 then ([], s)
    else
      var (before, t) := DrawGroups(groups, ids, s, n - 1);
      var group := groups[ids[Draw(t, |ids|)]];
      var (more, u) := DrawRecords(group, NextState(t), |group|);
      (before + more, u)
  }

  /** The differences of n resampled data sets. */
  function Estimates(groups: map<string, seq<BinaryPair>>, ids: seq<string>, s: int, n: nat): (drawn: (seq<real>, int))
    requires ids != [] && Grouping(groups, ids)
    ensures |drawn.0| == n
  {
    if n == 0 then ([], s)
    else
      var (before, t) := Estimates(groups, ids, s, n - 1);
      var (sample, u) := DrawGroups(groups, ids, t, |ids|);
      (before + [Difference(sample)], u)
  }

  function At(s: seq<real>, k: nat, otherwise: real): real { if k < |s| then s[k] else otherwise }

  function LowIndex(iterations: nat): nat { iterations * 25 / 1000 }

  function HighIndex(iterations: nat): nat { iterations * 975 / 1000 }

  function EstimatesOf(records: seq<BinaryPair>, iterations: nat, seed: int): seq<real>
    requires records != []
  {
    EmptyIffNoIds(records);
    Estimates(Groups(records), IdsOf(records), seed % MODULUS, iterations).0
  }

  function IntervalOf(records: seq<BinaryPair>, iterations: nat, seed: int): Interval {
    if records == [] then Interval(0.0, 0.0, 0.0)
    else
      var sorted, observed := SortReals(EstimatesOf(records, iterations, seed)), Difference(records);
      Interval(observed, At(sorted, LowIndex(iterations), observed), At(sorted, HighIndex(iterations), observed))
  }

  lemma EmptyIffNoIds(records: seq<BinaryPair>)
    ensures IdsOf(records) == [] <==> records == []
  {
    if records != [] { assert Latest(records) in records; }
  }

  method Resample(groups: map<string, seq<BinaryPair>>, ids: seq<string>, state: Generator)
    returns (sample: seq<BinaryPair>)
    requires ids != [] && state.Valid() && Grouping(groups, ids)
    modifies state
    ensures state.Valid()
    ensures (sample, state.value) == DrawGroups(groups, ids, old(state.value), |ids|)
  {
    hide Draw, NextState;
    sample := [];
    for groupIndex := 0 to |ids|
      invariant state.Valid()
      invariant (sample, state.value) == DrawGroups(groups, ids, old(state.value), groupIndex)
    {
      var pick := state.Pick(|ids|);
      var group := groups[ids[pick]];
      var before, start := sample, state.value;
      for repeat := 0 to |group|
        invariant state.Valid()
        invariant sample == before + DrawRecords(group, start, repeat).0
        invariant state.value == DrawRecords(group, start, repeat).1
      {
        var which := state.Pick(|group|);
        sample := sample + [group[which]];
      }
    }
  }

  method HierarchicalBootstrap(records: seq<BinaryPair>, iterations: nat, seed: int) returns (interval: Interval)
    ensures interval == IntervalOf(records, iterations, seed)
  {
    hide DrawGroups, Difference, Groups, IdsOf, SortReals;
    var groups, ids := Group(records);
    EmptyIffNoIds(records);
    if |ids| == 0 { return Interval(0.0, 0.0, 0.0); }
    var state := new Generator(seed);
    var estimates: seq<real> := [];
    for iteration := 0 to iterations
      invariant state.Valid() && fresh(state)
      invariant (estimates, state.value) == Estimates(groups, ids, seed % MODULUS, iteration)
    {
      var sample := Resample(groups, ids, state);
      estimates := estimates + [Difference(sample)];
    }
    var sorted := SortReals(estimates);
    var observed := Difference(records);
    interval := Interval(observed, At(sorted, iterations * 25 / 1000, observed),
                         At(sorted, iterations * 975 / 1000, observed));
  }

  // ---- What is drawn ----

  /** The generator's state after k steps. */
  function Orbit(s: int, k: nat): int { if k == 0 then s else NextState(Orbit(s, k - 1)) }

  lemma {:induction false} OrbitShift(s: int, k: nat, m: nat)
    ensures Orbit(Orbit(s, k), m) == Orbit(s, k + m)
  {
    if m > 0 { OrbitShift(s, k, m - 1); }
  }

  /** Records are drawn one by one, each by its own step of the generator. */
  lemma {:induction false} RecordsDrawn(group: seq<BinaryPair>, s: int, n: nat)
    requires group != []
    ensures var (drawn, t) := DrawRecords(group, s, n);
            && |drawn| == n && t == Orbit(s, n)
            && forall k :: 0 <= k < n ==> drawn[k] == group[Draw(Orbit(s, k), |group|)]
  {
    hide Draw, NextState;
    if n > 0 { RecordsDrawn(group, s, n - 1); }
  }

  /** The group picked by step `start` of the generator. */
  function GroupAt(groups: map<string, seq<BinaryPair>>, ids: seq<string>, s: int, start: nat): seq<BinaryPair>
    requires ids != [] && Grouping(groups, ids)
  {
    groups[ids[Draw(Orbit(s, start), |ids|)]]
  }

  /** From position `at` on, the sample holds as many records as the group has, picked by
      the steps of the generator from `start` on. */
  predicate Block(sample: seq<BinaryPair>, at: int, group: seq<BinaryPair>, s: int, start: nat) {
    && 0 <= at && at + |group| <= |sample|
    && forall p :: at <= p < at + |group| ==> sample[p] == group[Draw(Orbit(s, start + (p - at)), |group|)]
  }

  /** A sample is made of n blocks. Block k starts at step starts[k] of the generator: that
      step picks the group, and the next ones pick as many of its records as it has. */
  lemma {:induction false} BlocksDrawn(groups: map<string, seq<BinaryPair>>, ids: seq<string>, s: int, n: nat)
    returns (starts: seq<nat>)
    requires ids != [] && Grouping(groups, ids)
    ensures |starts| == n + 1 && starts[0] == 0
    ensures forall k :: 0 <= k < n ==> starts[k + 1] == starts[k] + 1 + |GroupAt(groups, ids, s, starts[k])|
    ensures var (sample, t) := DrawGroups(groups, ids, s, n);
            && |sample| + n == starts[n] && t == Orbit(s, starts[n])
            && forall k :: 0 <= k < n ==>
                 Block(sample, starts[k] - k, GroupAt(groups, ids, s, starts[k]), s, starts[k] + 1)
  {
    hide Draw, NextState, Orbit, DrawRecords, Block;
    if n == 0 {
      starts := [0];
      OrbitStart(s);
    } else {
      var before := BlocksDrawn(groups, ids, s, n - 1);
      var (front, t) := DrawGroups(groups, ids, s, n - 1);
      var last := before[n - 1];
      var group := GroupAt(groups, ids, s, last);
      starts := before + [last + 1 + |group|];
      OrbitStep(s, last);
      var (more, u) := DrawRecords(group, Orbit(s, last + 1), |group|);
      RecordsDrawn(group, Orbit(s, last + 1), |group|);
      OrbitShift(s, last + 1, |group|);
      assert DrawGroups(groups, ids, s, n) == (front + more, u);
      LastBlock(front, more, group, s, last + 1);
      forall k | 0 <= k < n
        ensures Block(front + more, starts[k] - k, GroupAt(groups, ids, s, starts[k]), s, starts[k] + 1)
      {
        if k < n - 1 {
          EarlierBlock(front, more, starts[k] - k, GroupAt(groups, ids, s, starts[k]), s, starts[k] + 1);
        }
      }
    }
  }

  lemma RecordDrawn(group: seq<BinaryPair>, s: int, n: nat, k: nat)
    requires group != [] && k < n
    ensures DrawRecords(group, s, n).0[k] == group[Draw(Orbit(s, k), |group|)]
  {
    hide Draw, Orbit, DrawRecords;
    RecordsDrawn(group, s, n);
  }

  lemma LastRecord(
    front: seq<BinaryPair>, more: seq<BinaryPair>, group: seq<BinaryPair>, s: int, start: nat, r: nat)
    requires group != [] && more == DrawRecords(group, Orbit(s, start), |group|).0 && r < |group|
    ensures (front + more)[|front| + r] == group[Draw(Orbit(s, start + r), |group|)]
  {
    hide Draw, Orbit, DrawRecords;
    RecordDrawn(group, Orbit(s, start), |group|, r);
    OrbitShift(s, start, r);
  }

  lemma LastBlock(front: seq<BinaryPair>, more: seq<BinaryPair>, group: seq<BinaryPair>, s: int, start: nat)
    requires group != [] && more == DrawRecords(group, Orbit(s, start), |group|).0
    ensures Block(front + more, |front|, group, s, start)
  {
    hide Draw, Orbit, DrawRecords;
    var sample, at := front + more, |front|;
    forall p | at <= p < at + |group|
      ensures sample[p] == group[Draw(Orbit(s, start + (p - at)), |group|)]
    {
      LastRecord(front, more, group, s, start, p - at);
    }
  }

  lemma EarlierBlock(
    front: seq<BinaryPair>, more: seq<BinaryPair>, at: int, group: seq<BinaryPair>, s: int, start: nat)
    requires Block(front, at, group, s, start)
    ensures Block(front + more, at, group, s, start)
  {
    hide Draw, Orbit;
  }

  lemma OrbitStart(s: int)
    ensures Orbit(s, 0) == s
  {}

  lemma OrbitStep(s: int, k: nat)
    ensures Orbit(s, k + 1) == NextState(Orbit(s, k))
  {}

  /** The k-th estimate is the difference of a sample of as many groups as there are, and
      each sample goes on where the generator stood after the one before. */
  lemma {:induction false} EstimatesDrawn(groups: map<string, seq<BinaryPair>>, ids: seq<string>, s: int, n: nat)
    returns (states: seq<int>)
    requires ids != [] && Grouping(groups, ids)
    ensures |states| == n + 1 && states[0] == s && states[n] == Estimates(groups, ids, s, n).1
    ensures forall k :: 0 <= k < n ==>
              var (sample, t) := DrawGroups(groups, ids, states[k], |ids|);
              t == states[k + 1] && Estimates(groups, ids, s, n).0[k] == Difference(sample)
  {
    hide DrawGroups, Difference;
    if n == 0 {
      states := [s];
    } else {
      var before := EstimatesDrawn(groups, ids, s, n - 1);
      states := before + [DrawGroups(groups, ids, before[n - 1], |ids|).1];
    }
  }

  // ---- What the interval means ----

  /** Every resampled difference, hence both bounds, lies in [-1, 1]; the bounds are in
      order; without iterations both are the observed difference. */
  lemma IntervalIsOrdered(records: seq<BinaryPair>, iterations: nat, seed: int)
    ensures var i := IntervalOf(records, iterations, seed);
            && -1.0 <= i.lower <= i.upper <= 1.0
            && (iterations == 0 ==> i.lower == i.upper == i.estimate)
  {
    hide Estimates, Groups, IdsOf, Difference;
    if records != [] {
      EmptyIffNoIds(records);
      DifferenceInRange(records);
      EstimatesWithinOne(Groups(records), IdsOf(records), seed % MODULUS, iterations);
      SortedWithinOne(EstimatesOf(records, iterations, seed));
    }
  }

  lemma {:induction false} EstimatesWithinOne(groups: map<string, seq<BinaryPair>>, ids: seq<string>, s: int, n: nat)
    requires ids != [] && Grouping(groups, ids)
    ensures AllWithinOne(Estimates(groups, ids, s, n).0)
  {
    hide DrawGroups, Difference;
    if n > 0 {
      EstimatesWithinOne(groups, ids, s, n - 1);
      DifferenceInRange(DrawGroups(groups, ids, Estimates(groups, ids, s, n - 1).1, |ids|).0);
    }
  }

  lemma SortedWithinOne(s: seq<real>)
    requires AllWithinOne(s)
    ensures AllWithinOne(SortReals(s))
  {
    var out := SortReals(s);
    forall i | 0 <= i < |out| ensures -1.0 <= out[i] <= 1.0 {
      assert out[i] in multiset(out);
      assert out[i] in multiset(s);
      assert out[i] in s;
    }
  }

  /** How many of the values are below v, or at most v. */
  function Below(s: seq<real>, v: real, orEqual: bool): nat {
    if s == [] then 0
    else Below(s[..|s| - 1], v, orEqual) + Bit(s[|s| - 1] < v || (orEqual && s[|s| - 1] == v))
  }

  lemma {:induction false} InsertCounts(s: seq<real>, x: real, v: real, orEqual: bool)
    requires Sorted(s)
    ensures Below(InsertSorted(s, x), v, orEqual) == Below(s, v, orEqual) + Bit(x < v || (orEqual && x == v))
  {
    hide Below;
    var n := |s|;
    if s == [] || s[n - 1] <= x {
      BelowPlusOne(s, x, v, orEqual);
    } else {
      var front, last := s[..n - 1], s[n - 1];
      InsertCounts(front, x, v, orEqual);
      BelowPlusOne(InsertSorted(front, x), last, v, orEqual);
      BelowPlusOne(front, last, v, orEqual);
      assert s == front + [last];
    }
  }

  lemma BelowPlusOne(s: seq<real>, x: real, v: real, orEqual: bool)
    ensures Below(s + [x], v, orEqual) == Below(s, v, orEqual) + Bit(x < v || (orEqual && x == v))
  {
    assert (s + [x])[..|s|] == s;
  }

  lemma {:induction false} SortCounts(s: seq<real>, v: real, orEqual: bool)
    ensures Below(SortReals(s), v, orEqual) == Below(s, v, orEqual)
  {
    if s != [] {
      SortCounts(s[..|s| - 1], v, orEqual);
      InsertCounts(SortReals(s[..|s| - 1]), s[|s| - 1], v, orEqual);
    }
  }

  /** In a sorted list exactly the first n values can be below a value that the others reach. */
  lemma {:induction false} CountsInSorted(s: seq<real>, v: real, n: nat)
    requires n <= |s|
    ensures (forall i :: n <= i < |s| ==> v <= s[i]) ==> Below(s, v, false) <= n
    ensures (forall i :: 0 <= i < n ==> s[i] <= v) ==> Below(s, v, true) >= n
  {
    if s != [] {
      var front := s[..|s| - 1];
      CountsInSorted(front, v, if n < |s| then n else n - 1);
      assert forall i :: 0 <= i < |front| ==> front[i] == s[i];
    }
  }

  /** The bounds are the 2.5 and 97.5 per cent order statistics of the resampled
      differences, whatever order those were drawn in. */
  lemma BoundsAreOrderStatistics(records: seq<BinaryPair>, iterations: nat, seed: int)
    requires records != [] && iterations > 0
    ensures var i, drawn := IntervalOf(records, iterations, seed), EstimatesOf(records, iterations, seed);
            && |drawn| == iterations && i.estimate == Difference(records)
            && drawn == Estimates(Groups(records), IdsOf(records), seed % 0x1_0000_0000, iterations).0
            && 1000 * Below(drawn, i.lower, false) <= 25 * iterations < 1000 * Below(drawn, i.lower, true)
            && 1000 * Below(drawn, i.upper, false) <= 975 * iterations < 1000 * Below(drawn, i.upper, true)
  {
    hide EstimatesOf, SortReals, Below;
    var i, drawn := IntervalOf(records, iterations, seed), EstimatesOf(records, iterations, seed);
    var sorted := SortReals(drawn);
    EstimateCount(records, iterations, seed);
    AtIndex(drawn, LowIndex(iterations));
    AtIndex(drawn, HighIndex(iterations));
    DrawnFromSeed(records, iterations, seed);
  }

  lemma DrawnFromSeed(records: seq<BinaryPair>, iterations: nat, seed: int)
    requires records != []
    ensures Grouping(Groups(records), IdsOf(records)) && IdsOf(records) != []
    ensures EstimatesOf(records, iterations, seed)
            == Estimates(Groups(records), IdsOf(records), seed % 0x1_0000_0000, iterations).0
  {
    EmptyIffNoIds(records);
  }

  lemma EstimateCount(records: seq<BinaryPair>, iterations: nat, seed: int)
    requires records != []
    ensures |EstimatesOf(records, iterations, seed)| == iterations
  {}

  lemma AtIndex(drawn: seq<real>, k: nat)
    requires k < |drawn|
    ensures var v := SortReals(drawn)[k]; Below(drawn, v, false) <= k < Below(drawn, v, true)
  {
    hide SortReals, Below;
    var sorted := SortReals(drawn);
    var v := sorted[k];
    CountsInSorted(sorted, v, k);
    CountsInSorted(sorted, v, k + 1);
    SortCounts(drawn, v, false);
    SortCounts(drawn, v, true);
  }
}
