/** `KeywordMatcher.levenshteinDistance` (src/services/keywordMatcher.ts:242-267): the classic
    edit-distance table, filled row by row. */
module Levenshtein {

  function Min3(x: nat, y: nat, z: nat): (r: nat)
    ensures r <= x && r <= y && r <= z
    ensures r == x || r == y || r == z
  {
    if x <= y && x <= z then x else if y <= z then y else z
  }

  function Max(x: nat, y: nat): nat {
    if x < y then y else x
  }

  /** The edit distance of `a` and `b` (insertions, deletions and substitutions of one character,
      each costing one), by the recurrence the table implements: cell `[j][i]` holds
      `EditDistance(a[..i], b[..j])`. It never exceeds the longer length and is never below the
      difference of the lengths. */
  function EditDistance(a: string, b: string): (r: nat)
    decreases |a| + |b|
  {
    if |a| == 0 then |b|
    else if |b| == 0 then |a|
    else
      Min3(EditDistance(a[..|a| - 1], b) + 1,
           EditDistance(a, b[..|b| - 1]) + 1,
           EditDistance(a[..|a| - 1], b[..|b| - 1]) + (if a[|a| - 1] == b[|b| - 1] then 0 else 1))
  }

  /** The distance never exceeds the longer length and is never below the difference of the
      lengths. */
  lemma {:induction false} EditDistanceBounds(a: string, b: string)
    ensures EditDistance(a, b) <= Max(|a|, |b|)
    ensures EditDistance(a, b) >= |a| - |b| && EditDistance(a, b) >= |b| - |a|
    decreases |a| + |b|
  {
    if |a| > 0 && |b| > 0 {
      EditDistanceBounds(a[..|a| - 1], b);
      EditDistanceBounds(a, b[..|b| - 1]);
      EditDistanceBounds(a[..|a| - 1], b[..|b| - 1]);
    }
  }

  /** Two strings without a common character are as far apart as the longer one is long. */
  lemma {:induction false} EditDistanceDisjoint(a: string, b: string)
    requires forall i, j :: 0 <= i < |a| && 0 <= j < |b| ==> a[i] != b[j]
    ensures EditDistance(a, b) == Max(|a|, |b|)
    decreases |a| + |b|
  {
    EditDistanceBounds(a, b);
    if |a| > 0 && |b| > 0 {
      var a', b' := a[..|a| - 1], b[..|b| - 1];
      EditDistanceDisjoint(a', b);
      EditDistanceDisjoint(a, b');
      EditDistanceDisjoint(a', b');
      assert a[|a| - 1] != b[|b| - 1];
    }
  }

  /** The distance is zero exactly when the strings are equal. */
  lemma {:induction false} EditDistanceZeroIffEqual(a: string, b: string)
    ensures EditDistance(a, b) == 0 <==> a == b
    decreases |a| + |b|
  {
    if |a| > 0 && |b| > 0 {
      var a', b' := a[..|a| - 1], b[..|b| - 1];
      EditDistanceZeroIffEqual(a', b');
      EditDistanceBounds(a[..|a| - 1], b);
      EditDistanceBounds(a, b[..|b| - 1]);
      if a == b {
        assert a' == b';
      }
      if EditDistance(a, b) == 0 {
        assert a == a' + [a[|a| - 1]] && b == b' + [b[|b| - 1]];
      }
    }
  }

  /** One cell of the table in terms of its three neighbours. */
  lemma DistanceStep(s1: string, s2: string, i: nat, j: nat)
    requires 1 <= i <= |s1| && 1 <= j <= |s2|
    ensures EditDistance(s1[..i], s2[..j])
         == Min3(EditDistance(s1[..i - 1], s2[..j]) + 1,
                 EditDistance(s1[..i], s2[..j - 1]) + 1,
                 EditDistance(s1[..i - 1], s2[..j - 1]) + (if s1[i - 1] == s2[j - 1] then 0 else 1))
  {
    assert s1[..i][..i - 1] == s1[..i - 1] && s2[..j][..j - 1] == s2[..j - 1];
  }

  /** Cell `[j][i]` of the table: the distance between the prefixes `s1[..i]` and `s2[..j]`. */
  function Cell(s1: string, s2: string, j: nat, i: nat): nat
    requires i <= |s1| && j <= |s2|
  {
    EditDistance(s1[..i], s2[..j])
  }

  /** Fills the `(|s2| + 1) x (|s1| + 1)` table and returns its last cell. */
  method LevenshteinDistance(s1: string, s2: string) returns (d: nat)
    ensures d == EditDistance(s1, s2)
  {
    var matrix := new nat[|s2| + 1, |s1| + 1];
    for i := 0 to |s1| + 1
      invariant forall k :: 0 <= k < i ==> matrix[0, k] == k
    {
      matrix[0, i] := i;
    }
    for j := 0 to |s2| + 1
      invariant forall k :: 0 <= k <= |s1| ==> matrix[0, k] == Cell(s1, s2, 0, k)
      invariant forall k :: 0 <= k < j ==> matrix[k, 0] == k
    {
      matrix[j, 0] := j;
    }
    for prev := 0 to |s2|
      invariant forall ii :: 0 <= ii <= |s1| ==> matrix[prev, ii] == Cell(s1, s2, prev, ii)
      invariant forall jj :: prev < jj <= |s2| ==> matrix[jj, 0] == jj
    {
      FillRow(matrix, s1, s2, prev, prev + 1);
    }
    assert s1[..|s1|] == s1 && s2[..|s2|] == s2;
    d := matrix[|s2|, |s1|];
  }

  /** The inner loop: fills row `j` from row `j - 1` and the cell to the left. */
  method FillRow(matrix: array2<nat>, s1: string, s2: string, prev: nat, j: nat)
    requires matrix.Length0 == |s2| + 1 && matrix.Length1 == |s1| + 1
    requires j == prev + 1 <= |s2|
    requires forall ii :: 0 <= ii <= |s1| ==> matrix[prev, ii] == Cell(s1, s2, prev, ii)
    requires matrix[j, 0] == j
    modifies matrix
    ensures forall ii :: 0 <= ii <= |s1| ==> matrix[j, ii] == Cell(s1, s2, j, ii)
    ensures forall jj :: j < jj <= |s2| ==> matrix[jj, 0] == old(matrix[jj, 0])
  {
    assert matrix[j, 0] == Cell(s1, s2, j, 0);
    for i := 1 to |s1| + 1
      invariant forall ii :: 0 <= ii <= |s1| ==> matrix[prev, ii] == Cell(s1, s2, prev, ii)
      invariant forall jj :: j < jj <= |s2| ==> matrix[jj, 0] == old(matrix[jj, 0])
      invariant forall ii :: 0 <= ii < i ==> matrix[j, ii] == Cell(s1, s2, j, ii)
    {
      var indicator := if s1[i - 1] == s2[j - 1] then 0 else 1;
      DistanceStep(s1, s2, i, j);
      var cell := Min3(matrix[j, i - 1] + 1, matrix[prev, i] + 1, matrix[prev, i - 1] + indicator);
      assert cell == Cell(s1, s2, j, i);
      matrix[j, i] := cell;
    }
  }
}
