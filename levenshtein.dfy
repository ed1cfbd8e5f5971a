/**
 * Edit distance between two strings: the recurrence, its properties, and the
 * matrix-filling procedure of `levenshteinDistance` proved to compute it.
 */
module Levenshtein {

  function Min3(x: nat, y: nat, z: nat): (m: nat)
    ensures m <= x && m <= y && m <= z
    ensures m == x || m == y || m == z
  {
    if x <= y && x <= z then x else if y <= z then y else z
  }

  function Max(x: nat, y: nat): nat { if x >= y then x else y }

  /**
   * The standard recurrence on prefixes: deleting the last character of `a`,
   * inserting the last character of `b`, or substituting one for the other.
   */
  function Distance(a: string, b: string): nat
    decreases |a| + |b|
  {
    if |a| == 0 then |b|
    else if |b| == 0 then |a|
    else
      Min3(Distance(a[..|a| - 1], b) + 1,
           Distance(a, b[..|b| - 1]) + 1,
           Distance(a[..|a| - 1], b[..|b| - 1]) + (if a[|a| - 1] == b[|b| - 1] then 0 else 1))
  }

  /** The distance does not depend on the order of its arguments. */
  lemma {:induction false} DistanceSymmetric(a: string, b: string)
    ensures Distance(a, b) == Distance(b, a)
    decreases |a| + |b|
  {
    if |a| > 0 && |b| > 0 {
      DistanceSymmetric(a[..|a| - 1], b);
      DistanceSymmetric(a, b[..|b| - 1]);
      DistanceSymmetric(a[..|a| - 1], b[..|b| - 1]);
    }
  }

  /** A string is at distance 0 from itself. */
  lemma {:induction false} DistanceSelf(a: string)
    ensures Distance(a, a) == 0
  {
    if |a| > 0 {
      DistanceSelf(a[..|a| - 1]);
    }
  }

  /** Distance 0 only between equal strings. */
  lemma {:induction false} DistanceZero(a: string, b: string)
    requires Distance(a, b) == 0
    ensures a == b
    decreases |a| + |b|
  {
    if |a| > 0 && |b| > 0 {
      DistanceZero(a[..|a| - 1], b[..|b| - 1]);
      assert a == a[..|a| - 1] + [a[|a| - 1]];
      assert b == b[..|b| - 1] + [b[|b| - 1]];
    }
  }

  /** Distance 0 exactly between equal strings. */
  lemma DistanceZeroIff(a: string, b: string)
    ensures Distance(a, b) == 0 <==> a == b
  {
    if Distance(a, b) == 0 { DistanceZero(a, b); }
    if a == b { DistanceSelf(a); }
  }

  /** Never more edits than the longer string has characters. */
  lemma {:induction false} DistanceUpper(a: string, b: string)
    ensures Distance(a, b) <= Max(|a|, |b|)
    decreases |a| + |b|
  {
    if |a| > 0 && |b| > 0 {
      DistanceUpper(a[..|a| - 1], b[..|b| - 1]);
    }
  }

  /** At least as many edits as the difference in length. */
  lemma {:induction false} DistanceLower(a: string, b: string)
    ensures Distance(a, b) >= |a| - |b| && Distance(a, b) >= |b| - |a|
    decreases |a| + |b|
  {
    if |a| > 0 && |b| > 0 {
      DistanceLower(a[..|a| - 1], b);
      DistanceLower(a, b[..|b| - 1]);
      DistanceLower(a[..|a| - 1], b[..|b| - 1]);
    }
  }

  /** One cell of the matrix, in terms of its three neighbours. */
  lemma DistanceStep(a: string, b: string, i: nat, j: nat)
    requires 0 < i <= |a| && 0 < j <= |b|
    ensures Distance(a[..i], b[..j]) ==
      Min3(Distance(a[..i - 1], b[..j]) + 1,
           Distance(a[..i], b[..j - 1]) + 1,
           Distance(a[..i - 1], b[..j - 1]) + (if a[i - 1] == b[j - 1] then 0 else 1))
  {
    assert a[..i][..i - 1] == a[..i - 1] && b[..j][..j - 1] == b[..j - 1];
  }

  /** Fill row `i` of the matrix from row `i - 1` (the inner loop of `levenshteinDistance`). */
  method FillRow(matrix: array2<nat>, a: string, b: string, i: nat)
    requires matrix.Length0 == |a| + 1 && matrix.Length1 == |b| + 1
    requires 0 < i <= |a|
    requires forall c :: 0 <= c <= |b| ==> matrix[i - 1, c] == Distance(a[..i - 1], b[..c])
    requires matrix[i, 0] == i
    modifies matrix
    ensures forall r, c :: 0 <= r < matrix.Length0 && r != i && 0 <= c < matrix.Length1 ==> matrix[r, c] == old(matrix[r, c])
    ensures forall c :: 0 <= c <= |b| ==> matrix[i, c] == Distance(a[..i], b[..c])
  {
    assert matrix[i, 0] == Distance(a[..i], b[..0]);
    for j := 1 to |b| + 1
      invariant forall r, c :: 0 <= r < matrix.Length0 && r != i && 0 <= c < matrix.Length1 ==> matrix[r, c] == old(matrix[r, c])
      invariant forall c :: 0 <= c < j ==> matrix[i, c] == Distance(a[..i], b[..c])
    {
      var cost := if a[i - 1] == b[j - 1] then 0 else 1;
      DistanceStep(a, b, i, j);
      matrix[i, j] := Min3(matrix[i - 1, j] + 1, matrix[i, j - 1] + 1, matrix[i - 1, j - 1] + cost);
    }
  }

  /** `levenshteinDistance`: early returns for an empty side, otherwise fill the (|a|+1) x (|b|+1) matrix row by row. */
  method LevenshteinDistance(a: string, b: string) returns (d: nat)
    ensures d == Distance(a, b)
  {
    if |a| == 0 { return |b|; }
    if |b| == 0 { return |a|; }

    var matrix := new nat[|a| + 1, |b| + 1];
    for i := 0 to |a| + 1
      invariant forall r :: 0 <= r < i ==> matrix[r, 0] == r
    {
      matrix[i, 0] := i;
    }
    for j := 0 to |b| + 1
      invariant forall r :: 0 <= r <= |a| ==> matrix[r, 0] == r
      invariant forall c :: 0 <= c < j ==> matrix[0, c] == c
    {
      matrix[0, j] := j;
    }
    assert forall c :: 0 <= c <= |b| ==> matrix[0, c] == Distance(a[..0], b[..c]);

    for i := 1 to |a| + 1
      invariant forall c :: 0 <= c <= |b| ==> matrix[i - 1, c] == Distance(a[..i - 1], b[..c])
      invariant forall r :: i <= r <= |a| ==> matrix[r, 0] == r
    {
      FillRow(matrix, a, b, i);
    }
    assert a[..|a|] == a && b[..|b|] == b;
    d := matrix[|a|, |b|];
  }
}
