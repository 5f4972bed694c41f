/**
 * Levenshtein edit distance: the recursive specification, its algebraic
 * properties, and the dynamic-programming table of `editDistance`
 * (scripts.js) proved to compute it.
 */
module Levenshtein {

  function Min3(x: nat, y: nat, z: nat): (m: nat)
    ensures m <= x && m <= y && m <= z
    ensures m == x || m == y || m == z
  {
    if x <= y && x <= z then x else if y <= z then y else z
  }

  /** The longer of two lengths. */
  function Max(x: nat, y: nat): nat {
    if x >= y then x else y
  }

  /**
   * The textbook distance between a and b: the cheapest of substituting
   * (free when the last characters agree), inserting b's last character,
   * or deleting a's last character.
   */
  function Lev(a: seq<char>, b: seq<char>): nat
    decreases |a| + |b|
  {
    if |a| == 0 then |b|
    else if |b| == 0 then |a|
    else
      Min3(Lev(a[..|a| - 1], b[..|b| - 1]) + (if a[|a| - 1] == b[|b| - 1] then 0 else 1),
           Lev(a, b[..|b| - 1]) + 1,
           Lev(a[..|a| - 1], b) + 1)
  }

  /** The distance is at least the difference of the lengths and at most the longer length. */
  lemma {:induction false} LevBounds(a: seq<char>, b: seq<char>)
    ensures |a| - |b| <= Lev(a, b) && |b| - |a| <= Lev(a, b)
    ensures Lev(a, b) <= Max(|a|, |b|)
    decreases |a| + |b|
  {
    if |a| > 0 && |b| > 0 {
      LevBounds(a[..|a| - 1], b[..|b| - 1]);
      LevBounds(a, b[..|b| - 1]);
      LevBounds(a[..|a| - 1], b);
    }
  }

  /** A string is at distance 0 from itself. */
  lemma {:induction false} LevSelf(s: seq<char>)
    ensures Lev(s, s) == 0
  {
    if |s| > 0 {
      LevSelf(s[..|s| - 1]);
    }
  }

  /** The distance is 0 exactly when the strings are equal. */
  lemma {:induction false} LevZeroIff(a: seq<char>, b: seq<char>)
    ensures Lev(a, b) == 0 <==> a == b
    decreases |a| + |b|
  {
    if Lev(a, b) == 0 && |a| > 0 && |b| > 0 {
      var a', b' := a[..|a| - 1], b[..|b| - 1];
      assert Lev(a', b') == 0 && a[|a| - 1] == b[|b| - 1];
      LevZeroIff(a', b');
      assert a == a' + [a[|a| - 1]];
      assert b == b' + [b[|b| - 1]];
    }
    if a == b {
      LevSelf(a);
    }
  }

  /** The distance does not depend on which string is transformed into which. */
  lemma {:induction false} LevSymmetric(a: seq<char>, b: seq<char>)
    ensures Lev(a, b) == Lev(b, a)
    decreases |a| + |b|
  {
    if |a| > 0 && |b| > 0 {
      LevSymmetric(a[..|a| - 1], b[..|b| - 1]);
      LevSymmetric(a, b[..|b| - 1]);
      LevSymmetric(a[..|a| - 1], b);
    }
  }

  /** Dropping the last character of the first string changes the distance by at most one, either way. */
  lemma {:induction false} LevDropLast(a: seq<char>, b: seq<char>)
    requires |a| > 0
    ensures Lev(a[..|a| - 1], b) <= Lev(a, b) + 1
    ensures Lev(a, b) <= Lev(a[..|a| - 1], b) + 1
    decreases |b|
  {
    var a' := a[..|a| - 1];
    if |b| == 0 {
    } else if |a'| == 0 {
      LevBounds(a, b);
    } else {
      var b' := b[..|b| - 1];
      LevDropLast(a, b');
    }
  }

  /** Dropping the last character of the second string changes the distance by at most one, either way. */
  lemma LevDropLastRight(a: seq<char>, b: seq<char>)
    requires |b| > 0
    ensures Lev(a, b[..|b| - 1]) <= Lev(a, b) + 1
    ensures Lev(a, b) <= Lev(a, b[..|b| - 1]) + 1
  {
    LevDropLast(b, a);
    LevSymmetric(a, b);
    LevSymmetric(a, b[..|b| - 1]);
  }

  /**
   * When the last characters agree the distance is the distance of the two
   * shortened strings: the shortcut `editDistance` takes on a match.
   */
  lemma LevMatch(a: seq<char>, b: seq<char>)
    requires |a| > 0 && |b| > 0 && a[|a| - 1] == b[|b| - 1]
    ensures Lev(a, b) == Lev(a[..|a| - 1], b[..|b| - 1])
  {
    LevDropLast(a, b[..|b| - 1]);
    LevDropLastRight(a[..|a| - 1], b);
  }

  /** Appending t to s costs at most |t| edits. */
  lemma {:induction false} LevAppend(s: seq<char>, t: seq<char>)
    ensures Lev(s, s + t) <= |t|
    decreases |t|
  {
    if |t| == 0 {
      assert s + t == s;
      LevSelf(s);
    } else {
      var t' := t[..|t| - 1];
      assert (s + t)[..|s + t| - 1] == s + t';
      LevAppend(s, t');
      if |s| > 0 {
        assert Lev(s, s + t) <= Lev(s, s + t') + 1;
      }
    }
  }

  /** A string and the same string with a tail t appended are exactly |t| edits apart. */
  lemma LevAppendExact(s: seq<char>, t: seq<char>)
    ensures Lev(s, s + t) == |t| && Lev(s + t, s) == |t|
  {
    LevAppend(s, t);
    LevBounds(s, s + t);
    LevSymmetric(s, s + t);
  }

  /**
   * One cell of the table in terms of its neighbours, exactly as
   * `editDistance` fills it (prefixes a[..i] and b[..j]).
   */
  lemma LevCell(a: seq<char>, b: seq<char>, i: nat, j: nat)
    requires 0 < i <= |a| && 0 < j <= |b|
    ensures Lev(a[..i], b[..j]) ==
      if a[i - 1] == b[j - 1] then Lev(a[..i - 1], b[..j - 1])
      else Min3(Lev(a[..i - 1], b[..j - 1]) + 1, Lev(a[..i], b[..j - 1]) + 1, Lev(a[..i - 1], b[..j]) + 1)
  {
    var x, y := a[..i], b[..j];
    assert x[..|x| - 1] == a[..i - 1];
    assert y[..|y| - 1] == b[..j - 1];
    assert x[|x| - 1] == a[i - 1] && y[|y| - 1] == b[j - 1];
    if a[i - 1] == b[j - 1] {
      LevMatch(x, y);
    } else {
      LevUnfold(x, y);
    }
  }

  /** The recursive case of Lev for a mismatch: one plus the cheapest of the three edits. */
  lemma LevUnfold(x: seq<char>, y: seq<char>)
    requires |x| > 0 && |y| > 0 && x[|x| - 1] != y[|y| - 1]
    ensures Lev(x, y) == 1 + Min3(Lev(x[..|x| - 1], y[..|y| - 1]), Lev(x, y[..|y| - 1]), Lev(x[..|x| - 1], y))
  {
  }

  /** Rows 0 to n - 1 of the table hold the distances between prefixes of a and of b. */
  ghost predicate Filled(matrix: array2<nat>, a: seq<char>, b: seq<char>, n: nat)
    reads matrix
    requires matrix.Length0 == |b| + 1 && matrix.Length1 == |a| + 1 && n <= |b| + 1
  {
    forall jj, ii :: 0 <= jj < n && 0 <= ii <= |a| ==> matrix[jj, ii] == Lev(a[..ii], b[..jj])
  }

  /** The inner loop of `editDistance`: fills row j from rows j - 1 and its own first cell. */
  method FillRow(matrix: array2<nat>, a: seq<char>, b: seq<char>, j: nat)
    requires matrix.Length0 == |b| + 1 && matrix.Length1 == |a| + 1
    requires 0 < j <= |b|
    requires Filled(matrix, a, b, j) && matrix[j, 0] == j
    modifies matrix
    ensures Filled(matrix, a, b, j + 1)
    ensures forall jj, ii :: 0 <= jj < matrix.Length0 && 0 <= ii < matrix.Length1 && jj != j ==>
      matrix[jj, ii] == old(matrix[jj, ii])
  {
    assert matrix[j, 0] == Lev(a[..0], b[..j]);
    for i := 1 to |a| + 1
      invariant Filled(matrix, a, b, j)
      invariant forall jj, ii :: 0 <= jj < matrix.Length0 && 0 <= ii < matrix.Length1 && jj != j ==>
        matrix[jj, ii] == old(matrix[jj, ii])
      invariant forall ii :: 0 <= ii < i ==> matrix[j, ii] == Lev(a[..ii], b[..j])
    {
      var diagonal, left, up := matrix[j - 1, i - 1], matrix[j, i - 1], matrix[j - 1, i];
      assert diagonal == Lev(a[..i - 1], b[..j - 1]);
      assert left == Lev(a[..i - 1], b[..j]);
      assert up == Lev(a[..i], b[..j - 1]);
      LevCell(a, b, i, j);
      if a[i - 1] == b[j - 1] {
        matrix[j, i] := diagonal;
      } else {
        matrix[j, i] := Min3(diagonal + 1, left + 1, up + 1);
      }
    }
  }

  /**
   * `editDistance(str1, str2)`: fills a (|b|+1) x (|a|+1) table whose cell
   * (j, i) is the distance between a[..i] and b[..j], and returns the
   * bottom-right cell.
   */
  method EditDistance(a: seq<char>, b: seq<char>) returns (d: nat)
    ensures d == Lev(a, b)
    ensures |a| == 0 ==> d == |b|
    ensures |b| == 0 ==> d == |a|
  {
    var matrix := new nat[|b| + 1, |a| + 1];
    for i := 0 to |a| + 1
      invariant forall k :: 0 <= k < i ==> matrix[0, k] == k
    {
      matrix[0, i] := i;
    }
    for j := 0 to |b| + 1
      invariant forall k :: 0 <= k <= |a| ==> matrix[0, k] == k
      invariant forall k :: 0 <= k < j ==> matrix[k, 0] == k
    {
      matrix[j, 0] := j;
    }
    assert forall k :: 0 <= k <= |a| ==> matrix[0, k] == Lev(a[..k], b[..0]);
    for j := 1 to |b| + 1
      invariant Filled(matrix, a, b, j)
      invariant forall k :: j <= k <= |b| ==> matrix[k, 0] == k
    {
      FillRow(matrix, a, b, j);
    }
    d := matrix[|b|, |a|];
    assert a[..|a|] == a && b[..|b|] == b;
  }
}
