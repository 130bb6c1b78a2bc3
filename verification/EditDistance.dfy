/** The word error rate of scripts/mimo-demo-audio.mts: a one-row dynamic program
    over two word lists, proved against the recursive edit distance, which is itself
    proved to be the cheapest edit script and a metric. */
module EditDistance {

  function Min(x: int, y: int): int { if x <= y then x else y }

  function Mismatch<T(==)>(x: T, y: T): nat { if x == y then 0 else 1 }

  /** Edit distance between the first i words of a and the first j words of b. */
  function Distance<T(==)>(a: seq<T>, b: seq<T>, i: nat, j: nat): nat
    requires i <= |a| && j <= |b|
    decreases i + j
  {
    if i == 0 then j
    else if j == 0 then i
    else Min(Min(Distance(a, b, i - 1, j) + 1, Distance(a, b, i, j - 1) + 1),
             Distance(a, b, i - 1, j - 1) + Mismatch(a[i - 1], b[j - 1]))
  }

  /** One step of the recurrence; the proofs below hide the definition and use this,
      because unfolding a three-way recursion freely is costly. */
  lemma {:induction false} Unfold<T>(a: seq<T>, b: seq<T>, i: nat, j: nat)
    requires i <= |a| && j <= |b|
    ensures Distance(a, b, i, j) ==
            if i == 0 then j
            else if j == 0 then i
            else Min(Min(Distance(a, b, i - 1, j) + 1, Distance(a, b, i, j - 1) + 1),
                     Distance(a, b, i - 1, j - 1) + Mismatch(a[i - 1], b[j - 1]))
  {}

  function WordDistance<T(==)>(a: seq<T>, b: seq<T>): nat { Distance(a, b, |a|, |b|) }

  lemma {:induction false} Column<T>(a: seq<T>, b: seq<T>, n: nat)
    requires n <= |b|
    ensures forall j: nat :: j <= n ==> Distance(a, b, 0, j) == j
  {}

  /** The single row is overwritten in place; `diagonal` saves the entry that the
      previous column has just destroyed. */
  method WordErrorRate<T(==)>(expected: seq<T>, actual: seq<T>) returns (rate: real)
    ensures rate == WordDistance(expected, actual) as real
                    / (if |expected| > 1 then |expected| else 1) as real
  {
    hide Distance;
    Column(expected, actual, |actual|);
    var row := new int[|actual| + 1](index => index);
    var i := 1;
    while i <= |expected|
      invariant 1 <= i <= |expected| + 1
      invariant forall k :: 0 <= k <= |actual| ==> row[k] == Distance(expected, actual, i - 1, k)
    {
      var diagonal := row[0];
      Unfold(expected, actual, i, 0);
      row[0] := i;
      var j := 1;
      while j <= |actual|
        invariant 1 <= j <= |actual| + 1
        invariant diagonal == Distance(expected, actual, i - 1, j - 1)
        invariant forall k :: 0 <= k < j ==> row[k] == Distance(expected, actual, i, k)
        invariant forall k :: j <= k <= |actual| ==> row[k] == Distance(expected, actual, i - 1, k)
      {
        var above := row[j];
        Unfold(expected, actual, i, j);
        row[j] := Min(Min(row[j] + 1, row[j - 1] + 1),
                      diagonal + Mismatch(expected[i - 1], actual[j - 1]));
        diagonal := above;
        j := j + 1;
      }
      i := i + 1;
    }
    rate := row[|actual|] as real / (if |expected| > 1 then |expected| else 1) as real;
  }

  lemma {:induction false} Bounds<T>(a: seq<T>, b: seq<T>, i: nat, j: nat)
    requires i <= |a| && j <= |b|
    ensures i - j <= Distance(a, b, i, j) && j - i <= Distance(a, b, i, j)
    ensures Distance(a, b, i, j) <= (if i <= j then j else i)
    decreases i + j
  {
    hide Distance;
    Unfold(a, b, i, j);
    if i > 0 && j > 0 {
      Bounds(a, b, i - 1, j);
      Bounds(a, b, i, j - 1);
      Bounds(a, b, i - 1, j - 1);
    }
  }

  lemma {:induction false} Symmetric<T>(a: seq<T>, b: seq<T>, i: nat, j: nat)
    requires i <= |a| && j <= |b|
    ensures Distance(a, b, i, j) == Distance(b, a, j, i)
    decreases i + j
  {
    hide Distance;
    Unfold(a, b, i, j);
    Unfold(b, a, j, i);
    if i > 0 && j > 0 {
      Symmetric(a, b, i - 1, j);
      Symmetric(a, b, i, j - 1);
      Symmetric(a, b, i - 1, j - 1);
    }
  }

  lemma {:induction false} ZeroIffEqual<T>(a: seq<T>, b: seq<T>, i: nat, j: nat)
    requires i <= |a| && j <= |b|
    ensures Distance(a, b, i, j) == 0 <==> a[..i] == b[..j]
    decreases i + j
  {
    hide Distance;
    Unfold(a, b, i, j);
    if i > 0 && j > 0 {
      ZeroIffEqual(a, b, i - 1, j - 1);
      assert a[..i] == a[..i - 1] + [a[i - 1]];
      assert b[..j] == b[..j - 1] + [b[j - 1]];
    }
  }

  lemma MismatchTriangle<T>(x: T, y: T, z: T)
    ensures Mismatch(x, z) <= Mismatch(x, y) + Mismatch(y, z) && Mismatch(x, y) <= 1 && Mismatch(y, z) <= 1
  {}

  lemma {:induction false} Triangle<T>(a: seq<T>, b: seq<T>, c: seq<T>, i: nat, j: nat, k: nat)
    requires i <= |a| && j <= |b| && k <= |c|
    ensures Distance(a, c, i, k) <= Distance(a, b, i, j) + Distance(b, c, j, k)
    decreases i + j + k
  {
    hide Distance, Mismatch;
    Unfold(a, b, i, j);
    Unfold(b, c, j, k);
    Unfold(a, c, i, k);
    if i == 0 {
      Bounds(b, c, j, k);
    } else if k == 0 {
      Bounds(a, b, i, j);
    } else if j == 0 {
      Bounds(a, c, i, k);
    } else {
      MismatchTriangle(a[i - 1], b[j - 1], c[k - 1]);
      var d, e := Distance(a, b, i, j), Distance(b, c, j, k);
      if d == Distance(a, b, i - 1, j) + 1 {
        Triangle(a, b, c, i - 1, j, k);
      } else if e == Distance(b, c, j, k - 1) + 1 {
        Triangle(a, b, c, i, j, k - 1);
      } else if d == Distance(a, b, i, j - 1) + 1 && e == Distance(b, c, j - 1, k) + 1 {
        Triangle(a, b, c, i, j - 1, k);
      } else if d == Distance(a, b, i, j - 1) + 1 {
        Triangle(a, b, c, i, j - 1, k - 1);
      } else if e == Distance(b, c, j - 1, k) + 1 {
        Triangle(a, b, c, i - 1, j - 1, k);
      } else {
        Triangle(a, b, c, i - 1, j - 1, k - 1);
      }
    }
  }

  /** WordDistance is a metric on word lists, and lies between the length
      difference and the larger length. */
  lemma Metric<T>(a: seq<T>, b: seq<T>, c: seq<T>)
    ensures WordDistance(a, b) == 0 <==> a == b
    ensures WordDistance(a, b) == WordDistance(b, a)
    ensures WordDistance(a, c) <= WordDistance(a, b) + WordDistance(b, c)
    ensures |a| - |b| <= WordDistance(a, b) <= (if |a| <= |b| then |b| else |a|)
    ensures |b| - |a| <= WordDistance(a, b)
  {
    ZeroIffEqual(a, b, |a|, |b|);
    assert a[..|a|] == a && b[..|b|] == b;
    Symmetric(a, b, |a|, |b|);
    Triangle(a, b, c, |a|, |b|, |c|);
    Bounds(a, b, |a|, |b|);
  }

  // An independent reference: edit scripts, read from the last word backwards.

  datatype Script<T> =
    | Done
    | Keep(rest: Script<T>)
    | Delete(rest: Script<T>)
    | Insert(word: T, rest: Script<T>)
    | Replace(word: T, rest: Script<T>)

  function Cost<T>(s: Script<T>): nat {
    match s
    case Done => 0
    case Keep(rest) => Cost(rest)
    case Delete(rest) => 1 + Cost(rest)
    case Insert(_, rest) => 1 + Cost(rest)
    case Replace(_, rest) => 1 + Cost(rest)
  }

  /** Does script s turn the word list a into b? */
  predicate Rewrites<T(==)>(s: Script<T>, a: seq<T>, b: seq<T>)
    decreases s
  {
    match s
    case Done => a == [] && b == []
    case Keep(rest) =>
      a != [] && b != [] && a[|a| - 1] == b[|b| - 1] && Rewrites(rest, a[..|a| - 1], b[..|b| - 1])
    case Delete(rest) => a != [] && Rewrites(rest, a[..|a| - 1], b)
    case Insert(w, rest) => b != [] && b[|b| - 1] == w && Rewrites(rest, a, b[..|b| - 1])
    case Replace(w, rest) =>
      a != [] && b != [] && b[|b| - 1] == w && Rewrites(rest, a[..|a| - 1], b[..|b| - 1])
  }

  lemma {:induction false} NoCheaperScript<T>(s: Script<T>, a: seq<T>, b: seq<T>, i: nat, j: nat)
    requires i <= |a| && j <= |b|
    requires Rewrites(s, a[..i], b[..j])
    ensures Distance(a, b, i, j) <= Cost(s)
    decreases s
  {
    hide Distance;
    Unfold(a, b, i, j);
    match s
    case Done =>
    case Keep(rest) =>
      assert a[..i][..i - 1] == a[..i - 1] && b[..j][..j - 1] == b[..j - 1];
      NoCheaperScript(rest, a, b, i - 1, j - 1);
    case Delete(rest) =>
      assert a[..i][..i - 1] == a[..i - 1];
      NoCheaperScript(rest, a, b, i - 1, j);
      Bounds(a, b, i - 1, j);
    case Insert(w, rest) =>
      assert b[..j][..j - 1] == b[..j - 1];
      NoCheaperScript(rest, a, b, i, j - 1);
      Bounds(a, b, i, j - 1);
    case Replace(w, rest) =>
      assert a[..i][..i - 1] == a[..i - 1] && b[..j][..j - 1] == b[..j - 1];
      NoCheaperScript(rest, a, b, i - 1, j - 1);
  }

  /** A cheapest script, read off the recurrence. */
  function Optimal<T(==)>(a: seq<T>, b: seq<T>, i: nat, j: nat): Script<T>
    requires i <= |a| && j <= |b|
    decreases i + j
  {
    if i == 0 then (if j == 0 then Done else Insert(b[j - 1], Optimal(a, b, i, j - 1)))
    else if j == 0 || Distance(a, b, i, j) == Distance(a, b, i - 1, j) + 1 then
      Delete(Optimal(a, b, i - 1, j))
    else if Distance(a, b, i, j) == Distance(a, b, i, j - 1) + 1 then
      Insert(b[j - 1], Optimal(a, b, i, j - 1))
    else if a[i - 1] == b[j - 1] then Keep(Optimal(a, b, i - 1, j - 1))
    else Replace(b[j - 1], Optimal(a, b, i - 1, j - 1))
  }

  lemma {:induction false} OptimalRewrites<T>(a: seq<T>, b: seq<T>, i: nat, j: nat)
    requires i <= |a| && j <= |b|
    ensures Rewrites(Optimal(a, b, i, j), a[..i], b[..j])
    ensures Cost(Optimal(a, b, i, j)) == Distance(a, b, i, j)
    decreases i + j
  {
    hide Distance;
    Unfold(a, b, i, j);
    if i == 0 {
      if j > 0 {
        assert b[..j][..j - 1] == b[..j - 1];
        OptimalRewrites(a, b, i, j - 1);
        Unfold(a, b, i, j - 1);
      }
    } else if j == 0 || Distance(a, b, i, j) == Distance(a, b, i - 1, j) + 1 {
      assert a[..i][..i - 1] == a[..i - 1];
      OptimalRewrites(a, b, i - 1, j);
      Unfold(a, b, i - 1, j);
    } else if Distance(a, b, i, j) == Distance(a, b, i, j - 1) + 1 {
      assert b[..j][..j - 1] == b[..j - 1];
      OptimalRewrites(a, b, i, j - 1);
    } else {
      assert a[..i][..i - 1] == a[..i - 1] && b[..j][..j - 1] == b[..j - 1];
      OptimalRewrites(a, b, i - 1, j - 1);
    }
  }

  /** The distance is the least number of word insertions, deletions and
      replacements that turn a into b. */
  lemma LeastScriptCost<T(!new)>(a: seq<T>, b: seq<T>)
    ensures forall s: Script<T> :: Rewrites(s, a, b) ==> WordDistance(a, b) <= Cost(s)
    ensures exists s: Script<T> :: Rewrites(s, a, b) && Cost(s) == WordDistance(a, b)
  {
    assert a[..|a|] == a && b[..|b|] == b;
    forall s: Script<T> | Rewrites(s, a, b) ensures WordDistance(a, b) <= Cost(s) {
      NoCheaperScript(s, a, b, |a|, |b|);
    }
    OptimalRewrites(a, b, |a|, |b|);
  }
}
