/**
 * `levenshtein_distance` (fuzzy_match.py; the same code is in latestStable.py):
 * case-insensitive edit distance filled into a dynamic-programming table.
 */
module Levenshtein {
  import opened PlateText

  function Min3(a: nat, b: nat, c: nat): nat {
    if a <= b && a <= c then a else if b <= c then b else c
  }

  function Cost(x: char, y: char): nat {
    if x == y then 0 else 1
  }

  /**
   * Edit distance (unit-cost deletion, insertion and substitution) between
   * the first `i` characters of `a` and the first `j` characters of `b`:
   * the value of cell `dp[i][j]`.
   */
  function DistAt(a: string, b: string, i: nat, j: nat): nat
    requires i <= |a| && j <= |b|
    decreases i + j
  {
    if i == 0 then j
    else if j == 0 then i
    else
      Min3(DistAt(a, b, i - 1, j) + 1,
           DistAt(a, b, i, j - 1) + 1,
           DistAt(a, b, i - 1, j - 1) + Cost(a[i - 1], b[j - 1]))
  }

  /** Edit distance between two whole strings. */
  function Dist(a: string, b: string): nat {
    DistAt(a, b, |a|, |b|)
  }

  /** The distance the source computes: both sides upper-cased first. */
  function EditDistance(s1: string, s2: string): nat {
    Dist(Upper(s1), Upper(s2))
  }

  /** What cell `dp[i][j]` of the table holds once it is filled. */
  ghost function Cell(a: string, b: string, i: nat, j: nat): nat
    requires i <= |a| && j <= |b|
  {
    DistAt(a, b, i, j)
  }

  /** The recurrence that fills one cell from its three neighbours. */
  lemma CellStep(a: string, b: string, i: nat, j: nat)
    requires 1 <= i <= |a| && 1 <= j <= |b|
    ensures Cell(a, b, i, j) == Min3(Cell(a, b, i - 1, j) + 1, Cell(a, b, i, j - 1) + 1,
                                     Cell(a, b, i - 1, j - 1) + Cost(a[i - 1], b[j - 1]))
  {
  }

  /** The dynamic-programming table of the source, one row per prefix of `s1`. */
  method LevenshteinDistance(s1: string, s2: string) returns (d: nat)
    ensures d == EditDistance(s1, s2)
  {
    var a := Upper(s1);
    var b := Upper(s2);
    var m, n := |a|, |b|;
    if m == 0 {
      return n;
    }
    if n == 0 {
      return m;
    }
    var dp := new nat[m + 1, n + 1];
    var i := 0;
    while i <= m
      invariant 0 <= i <= m + 1
      invariant forall p :: 0 <= p < i ==> dp[p, 0] == p
    {
      dp[i, 0] := i;
      i := i + 1;
    }
    var j := 0;
    while j <= n
      invariant 0 <= j <= n + 1
      invariant forall q :: 0 <= q < j ==> dp[0, q] == q
      invariant forall p :: 1 <= p <= m ==> dp[p, 0] == p
    {
      dp[0, j] := j;
      j := j + 1;
    }
    i := 1;
    while i <= m
      invariant 1 <= i <= m + 1
      invariant forall p, q {:trigger dp[p, q]} :: 0 <= p < i && 0 <= q <= n ==> dp[p, q] == Cell(a, b, p, q)
      invariant forall p :: i <= p <= m ==> dp[p, 0] == p
    {
      j := 1;
      while j <= n
        invariant 1 <= j <= n + 1
        invariant forall p, q {:trigger dp[p, q]} :: 0 <= p < i && 0 <= q <= n ==> dp[p, q] == Cell(a, b, p, q)
        invariant forall q {:trigger dp[i, q]} :: 0 <= q < j ==> dp[i, q] == Cell(a, b, i, q)
        invariant forall p :: i < p <= m ==> dp[p, 0] == p
      {
        var cost := if a[i - 1] == b[j - 1] then 0 else 1;
        var deletion := dp[i - 1, j] + 1;
        var insertion := dp[i, j - 1] + 1;
        var substitution := dp[i - 1, j - 1] + cost;
        CellStep(a, b, i, j);
        dp[i, j] := Min3(deletion, insertion, substitution);
        j := j + 1;
      }
      i := i + 1;
    }
    d := dp[m, n];
    assert d == Cell(a, b, m, n);
  }

  /** Equal prefixes are at distance 0. */
  lemma {:induction false} DistAtEqualPrefixes(a: string, b: string, i: nat)
    requires i <= |a| && i <= |b| && a[..i] == b[..i]
    ensures DistAt(a, b, i, i) == 0
  {
    if i > 0 {
      assert a[..i - 1] == a[..i][..i - 1] == b[..i][..i - 1] == b[..i - 1];
      assert a[i - 1] == a[..i][i - 1] == b[..i][i - 1] == b[i - 1];
      DistAtEqualPrefixes(a, b, i - 1);
    }
  }

  lemma Min3Swap(x: nat, y: nat, z: nat)
    ensures Min3(x, y, z) == Min3(y, x, z)
  {
  }

  /** Distance is symmetric. */
  lemma {:induction false} DistAtSymmetric(a: string, b: string, i: nat, j: nat)
    requires i <= |a| && j <= |b|
    ensures DistAt(a, b, i, j) == DistAt(b, a, j, i)
    decreases i + j
  {
    if i > 0 && j > 0 {
      var up, left, diag := DistAt(a, b, i - 1, j), DistAt(a, b, i, j - 1), DistAt(a, b, i - 1, j - 1);
      var c := Cost(a[i - 1], b[j - 1]);
      assert up == DistAt(b, a, j, i - 1) by { DistAtSymmetric(a, b, i - 1, j); }
      assert left == DistAt(b, a, j - 1, i) by { DistAtSymmetric(a, b, i, j - 1); }
      assert diag == DistAt(b, a, j - 1, i - 1) by { DistAtSymmetric(a, b, i - 1, j - 1); }
      assert c == Cost(b[j - 1], a[i - 1]);
      Min3Swap(up + 1, left + 1, diag + c);
    }
  }

  /** Distance lies between the length difference and the longer length. */
  lemma {:induction false} DistAtBounds(a: string, b: string, i: nat, j: nat)
    requires i <= |a| && j <= |b|
    ensures i - j <= DistAt(a, b, i, j) && j - i <= DistAt(a, b, i, j)
    ensures DistAt(a, b, i, j) <= if i >= j then i else j
    decreases i + j
  {
    if i > 0 && j > 0 {
      DistAtBounds(a, b, i - 1, j);
      DistAtBounds(a, b, i, j - 1);
      DistAtBounds(a, b, i - 1, j - 1);
    }
  }

  /** Distance 0 only between equal prefixes. */
  lemma {:induction false} DistAtZero(a: string, b: string, i: nat, j: nat)
    requires i <= |a| && j <= |b| && DistAt(a, b, i, j) == 0
    ensures a[..i] == b[..j]
    decreases i + j
  {
    if i > 0 && j > 0 {
      var up, left, diag := DistAt(a, b, i - 1, j), DistAt(a, b, i, j - 1), DistAt(a, b, i - 1, j - 1);
      assert Min3(up + 1, left + 1, diag + Cost(a[i - 1], b[j - 1])) == 0;
      DistAtZero(a, b, i - 1, j - 1);
      assert a[..i] == a[..i - 1] + [a[i - 1]];
      assert b[..j] == b[..j - 1] + [b[j - 1]];
    }
  }

  /** Distance 0 exactly when the two prefixes are equal. */
  lemma DistAtZeroIff(a: string, b: string, i: nat, j: nat)
    requires i <= |a| && j <= |b|
    ensures DistAt(a, b, i, j) == 0 <==> a[..i] == b[..j]
  {
    if a[..i] == b[..j] {
      assert |a[..i]| == i && |b[..j]| == j;
      DistAtEqualPrefixes(a, b, i);
    } else if DistAt(a, b, i, j) == 0 {
      DistAtZero(a, b, i, j);
    }
  }

  /** Changing the last character of a string costs exactly one edit. */
  lemma SubstituteLast(a: string, x: char, y: char)
    requires x != y
    ensures Dist(a + [x], a + [y]) == 1
  {
    var ax, ay, n := a + [x], a + [y], |a|;
    assert ax[..n] == a == ay[..n];
    DistAtZeroIff(ax, ay, n, n);
  }

  /** Identity, symmetry, bounds and zero-iff-equal for whole strings. */
  lemma DistMetric(a: string, b: string)
    ensures Dist(a, a) == 0
    ensures Dist(a, b) == Dist(b, a)
    ensures |a| - |b| <= Dist(a, b) && |b| - |a| <= Dist(a, b)
    ensures Dist(a, b) <= if |a| >= |b| then |a| else |b|
    ensures Dist(a, b) == 0 <==> a == b
  {
    DistAtEqualPrefixes(a, a, |a|);
    DistAtSymmetric(a, b, |a|, |b|);
    DistAtBounds(a, b, |a|, |b|);
    DistAtZeroIff(a, b, |a|, |b|);
    assert a[..|a|] == a && b[..|b|] == b;
  }

  /** The source's distance ignores case: it equals the distance of the upper-cased texts. */
  lemma EditDistanceCaseInsensitive(s1: string, s2: string)
    ensures EditDistance(s1, s2) == EditDistance(Upper(s1), Upper(s2))
  {
    assert Upper(Upper(s1)) == Upper(s1);
    assert Upper(Upper(s2)) == Upper(s2);
  }

  /** With an empty side the distance is the other side's length. */
  lemma EditDistanceEmpty(s: string)
    ensures EditDistance("", s) == |s| && EditDistance(s, "") == |s|
  {
  }

  /** The metric properties carried over to the case-insensitive distance. */
  lemma EditDistanceMetric(s1: string, s2: string)
    ensures EditDistance(s1, s1) == 0
    ensures EditDistance(s1, s2) == EditDistance(s2, s1)
    ensures |s1| - |s2| <= EditDistance(s1, s2) && |s2| - |s1| <= EditDistance(s1, s2)
    ensures EditDistance(s1, s2) <= if |s1| >= |s2| then |s1| else |s2|
    ensures EditDistance(s1, s2) == 0 <==> Upper(s1) == Upper(s2)
  {
    DistMetric(Upper(s1), Upper(s2));
    DistMetric(Upper(s1), Upper(s1));
  }
}
