/** The editor's "did you mean" hint (packages/editor/src/index.tsx): the
    Levenshtein distance computed over a matrix of prefixes, and the search
    for the known command name closest to an unknown one. */
module CommandSuggest {
  import opened Wrappers

  function Min3(x: int, y: int, z: int): (r: int)
    ensures r <= x && r <= y && r <= z
    ensures r == x || r == y || r == z
  {
    if x <= y && x <= z then x else if y <= z then y else z
  }

  /** Substituting `x` by `y` costs nothing when they are equal. */
  function Cost(x: char, y: char): nat {
    if x == y then 0 else 1
  }

  /** The edit distance between the first `i` characters of `a` and the
      first `j` characters of `b`: the cheapest of deleting `a`'s last
      character, inserting `b`'s last character, or matching the two. */
  function PrefixDistance(a: string, b: string, i: nat, j: nat): nat
    requires i <= |a| && j <= |b|
    decreases i + j
  {
    if i == 0 then j
    else if j == 0 then i
    else Min3(PrefixDistance(a, b, i - 1, j) + 1,
              PrefixDistance(a, b, i, j - 1) + 1,
              PrefixDistance(a, b, i - 1, j - 1) + Cost(a[i - 1], b[j - 1]))
  }

  /** The edit distance between the two whole strings: zero exactly when
      the strings are equal. */
  function EditDistance(a: string, b: string): (d: nat)
    ensures d == 0 <==> a == b
  {
    PrefixDistanceZero(a, b, |a|, |b|);
    assert a[..|a|] == a && b[..|b|] == b;
    PrefixDistance(a, b, |a|, |b|)
  }

  /** Against the empty string the distance is the other string's length. */
  lemma EmptyDistance(s: string)
    ensures EditDistance(s, "") == |s|
    ensures EditDistance("", s) == |s|
  {
  }

  /** The distance is at least the difference of the lengths. */
  lemma {:induction false} PrefixDistanceLower(a: string, b: string, i: nat, j: nat)
    requires i <= |a| && j <= |b|
    ensures i - j <= PrefixDistance(a, b, i, j) && j - i <= PrefixDistance(a, b, i, j)
    decreases i + j
  {
    if i > 0 && j > 0 {
      PrefixDistanceLower(a, b, i - 1, j);
      PrefixDistanceLower(a, b, i, j - 1);
      PrefixDistanceLower(a, b, i - 1, j - 1);
    }
  }

  /** The distance is at most the longer length. */
  lemma {:induction false} PrefixDistanceUpper(a: string, b: string, i: nat, j: nat)
    requires i <= |a| && j <= |b|
    ensures PrefixDistance(a, b, i, j) <= if i <= j then j else i
    decreases i + j
  {
    if i > 0 && j > 0 {
      PrefixDistanceUpper(a, b, i - 1, j - 1);
    }
  }

  lemma DistanceBounds(a: string, b: string)
    ensures |a| - |b| <= EditDistance(a, b) && |b| - |a| <= EditDistance(a, b)
    ensures EditDistance(a, b) <= if |a| <= |b| then |b| else |a|
  {
    PrefixDistanceLower(a, b, |a|, |b|);
    PrefixDistanceUpper(a, b, |a|, |b|);
  }

  /** Distance zero between prefixes means the prefixes are equal, and back. */
  lemma {:induction false} PrefixDistanceZero(a: string, b: string, i: nat, j: nat)
    requires i <= |a| && j <= |b|
    ensures PrefixDistance(a, b, i, j) == 0 <==> a[..i] == b[..j]
    decreases i + j
  {
    if i > 0 && j > 0 {
      PrefixDistanceZero(a, b, i - 1, j - 1);
      PrefixSnoc(a, b, i, j);
    }
  }

  /** Two non-empty prefixes are equal exactly when their last characters
      and the prefixes before them are. */
  lemma PrefixSnoc(a: string, b: string, i: nat, j: nat)
    requires 0 < i <= |a| && 0 < j <= |b|
    ensures a[..i] == b[..j] <==> a[..i - 1] == b[..j - 1] && a[i - 1] == b[j - 1]
  {
    assert a[..i] == a[..i - 1] + [a[i - 1]];
    assert b[..j] == b[..j - 1] + [b[j - 1]];
    if a[..i] == b[..j] {
      assert a[..i - 1] == a[..i][..i - 1];
      assert b[..j - 1] == b[..j][..j - 1];
    }
  }

  /** `levenshteinDistance`: after the shortcuts for an empty string, row 0
      and column 0 of the matrix are numbered, and each further cell is the
      cheapest of its left, upper and diagonal neighbours. */
  method LevenshteinDistance(a: string, b: string) returns (d: int)
    ensures d == EditDistance(a, b)
  {
    if |a| == 0 { return |b|; }
    if |b| == 0 { return |a|; }
    var matrix := new int[|b| + 1, |a| + 1];
    var i := 0;
    while i <= |a|
      invariant 0 <= i <= |a| + 1
      invariant forall k :: 0 <= k < i ==> matrix[0, k] == k
    {
      matrix[0, i] := i;
      i := i + 1;
    }
    var j := 0;
    while j <= |b|
      invariant 0 <= j <= |b| + 1
      invariant forall k :: 0 <= k <= |a| ==> matrix[0, k] == k
      invariant forall l :: 0 <= l < j ==> matrix[l, 0] == l
    {
      matrix[j, 0] := j;
      j := j + 1;
    }
    j := 1;
    while j <= |b|
      invariant 1 <= j <= |b| + 1
      invariant forall l, k :: 0 <= l < j && 0 <= k <= |a| ==> matrix[l, k] == PrefixDistance(a, b, k, l)
      invariant forall l :: j <= l <= |b| ==> matrix[l, 0] == l
    {
      FillRow(matrix, a, b, j);
      j := j + 1;
    }
    return matrix[|b|, |a|];
  }

  /** The first `n` cells of row `l` hold the distances of the prefixes of
      `a` to the first `l` characters of `b`. */
  predicate RowDone(matrix: array2<int>, a: string, b: string, l: nat, n: nat)
    requires matrix.Length0 == |b| + 1 && matrix.Length1 == |a| + 1 && l <= |b| && n <= |a| + 1
    reads matrix
  {
    forall k :: 0 <= k < n ==> matrix[l, k] == PrefixDistance(a, b, k, l)
  }

  /** Row `j` of the matrix, from the row above it and its first cell. */
  method FillRow(matrix: array2<int>, a: string, b: string, j: nat)
    requires matrix.Length0 == |b| + 1 && matrix.Length1 == |a| + 1 && 1 <= j <= |b|
    requires RowDone(matrix, a, b, j - 1, |a| + 1)
    requires matrix[j, 0] == j
    modifies matrix
    ensures RowDone(matrix, a, b, j, |a| + 1)
    ensures forall l, k :: 0 <= l <= |b| && l != j && 0 <= k <= |a| ==> matrix[l, k] == old(matrix[l, k])
  {
    var i := 1;
    while i <= |a|
      invariant 1 <= i <= |a| + 1
      invariant RowDone(matrix, a, b, j, i)
      invariant forall l, k :: 0 <= l <= |b| && l != j && 0 <= k <= |a| ==> matrix[l, k] == old(matrix[l, k])
    {
      var cost := if a[i - 1] == b[j - 1] then 0 else 1;
      matrix[j, i] := Min3(matrix[j, i - 1] + 1, matrix[j - 1, i] + 1, matrix[j - 1, i - 1] + cost);
      i := i + 1;
    }
  }

  /** `strings[k]` is at least as close to `input` as every candidate, and
      strictly closer than every candidate before it. */
  predicate ClosestAt(input: string, strings: seq<string>, k: int) {
    0 <= k < |strings| &&
    (forall m :: 0 <= m < |strings| ==> EditDistance(input, strings[k]) <= EditDistance(input, strings[m])) &&
    (forall m :: 0 <= m < k ==> EditDistance(input, strings[k]) < EditDistance(input, strings[m]))
  }

  /** At most one position is the closest: the earliest minimum. */
  lemma ClosestUnique(input: string, strings: seq<string>, k1: int, k2: int)
    requires ClosestAt(input, strings, k1) && ClosestAt(input, strings, k2)
    ensures k1 == k2
  {
    // the two are equally close, so neither is strictly closer than the other
    assert EditDistance(input, strings[k1]) <= EditDistance(input, strings[k2]);
    assert EditDistance(input, strings[k2]) <= EditDistance(input, strings[k1]);
  }

  /** The running minimum, starting at `Infinity`. */
  datatype Bound = Finite(n: int) | Infinity

  predicate Below(d: int, bound: Bound) {
    bound.Infinity? || d < bound.n
  }

  /** `findClosestMatch`: `null` for no candidates, otherwise the candidate
      nearest to the input, the first of them on a tie since only a strictly
      smaller distance replaces the one kept. */
  method FindClosestMatch(input: string, strings: seq<string>) returns (closest: Option<string>)
    ensures closest.None? <==> strings == []
    ensures closest.Some? ==> exists k :: ClosestAt(input, strings, k) && strings[k] == closest.value
  {
    closest := None;
    var minDistance := Infinity;
    ghost var best := 0;
    for n := 0 to |strings|
      invariant closest.None? <==> n == 0
      invariant minDistance.Infinity? <==> n == 0
      invariant n > 0 ==> best < n && closest == Some(strings[best])
      invariant n > 0 ==> minDistance == Finite(EditDistance(input, strings[best]))
      invariant n > 0 ==> forall m :: 0 <= m < n ==> EditDistance(input, strings[best]) <= EditDistance(input, strings[m])
      invariant n > 0 ==> forall m :: 0 <= m < best ==> EditDistance(input, strings[best]) < EditDistance(input, strings[m])
    {
      var distance := LevenshteinDistance(input, strings[n]);
      if Below(distance, minDistance) {
        minDistance := Finite(distance);
        closest := Some(strings[n]);
        best := n;
      }
    }
    if closest.Some? {
      assert ClosestAt(input, strings, best);
    }
  }
}
