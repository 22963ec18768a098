/** The edit distance used for fuzzy matching of spoken price words
    (app/billing.js, the nested `levenshtein`): unit cost for inserting,
    deleting or substituting one character. */
module Levenshtein {

  function Min3(x: nat, y: nat, z: nat): nat {
    if x <= y && x <= z then x else if y <= z then y else z
  }

  /** The distance between the first `i` characters of `a` and the first
      `j` characters of `b`: the value the source stores in `dp[i][j]`. */
  function Dist(a: string, b: string, i: nat, j: nat): nat
    requires i <= |a| && j <= |b|
    decreases i + j
  {
    if i == 0 then j
    else if j == 0 then i
    else if a[i - 1] == b[j - 1] then Dist(a, b, i - 1, j - 1)
    else 1 + Min3(Dist(a, b, i - 1, j), Dist(a, b, i, j - 1), Dist(a, b, i - 1, j - 1))
  }

  /** The edit distance between two whole strings. */
  function Distance(a: string, b: string): nat {
    Dist(a, b, |a|, |b|)
  }

  /** The first `rows` rows of `dp`, and column 0 of the rest, hold what
      the source's table holds once those rows are filled. */
  ghost predicate TableUpTo(dp: array2<nat>, a: string, b: string, rows: nat)
    reads dp
    requires dp.Length0 == |a| + 1 && dp.Length1 == |b| + 1 && rows <= |a| + 1
  {
    && (forall p, q :: 0 <= p < rows && 0 <= q <= |b| ==> dp[p, q] == Dist(a, b, p, q))
    && (forall p :: rows <= p <= |a| ==> dp[p, 0] == p)
  }

  /** Fills row `i` of the table from row `i - 1`, left to right: the inner
      loop of the source. No other row changes. */
  method FillRow(dp: array2<nat>, a: string, b: string, i: nat)
    requires dp.Length0 == |a| + 1 && dp.Length1 == |b| + 1
    requires 1 <= i <= |a|
    requires forall q {:trigger dp[i - 1, q]} :: 0 <= q <= |b| ==> dp[i - 1, q] == Dist(a, b, i - 1, q)
    requires dp[i, 0] == i
    modifies dp
    ensures forall q :: 0 <= q <= |b| ==> dp[i, q] == Dist(a, b, i, q)
    ensures forall p, q :: 0 <= p <= |a| && 0 <= q <= |b| && p != i ==> dp[p, q] == old(dp[p, q])
  {
    var j := 1;
    while j <= |b|
      invariant 1 <= j <= |b| + 1
      invariant forall q {:trigger dp[i, q]} :: 0 <= q < j ==> dp[i, q] == Dist(a, b, i, q)
      invariant forall p, q :: 0 <= p <= |a| && 0 <= q <= |b| && p != i ==> dp[p, q] == old(dp[p, q])
    {
      var v: nat;
      if a[i - 1] == b[j - 1] {
        v := dp[i - 1, j - 1];
      } else {
        v := 1 + Min3(dp[i - 1, j], dp[i, j - 1], dp[i - 1, j - 1]);
      }
      dp[i, j] := v;
      j := j + 1;
    }
  }

  /** Fills the `(|a| + 1) x (|b| + 1)` table row by row, as the source does,
      and returns its last cell. */
  method ComputeDistance(a: string, b: string) returns (d: nat)
    ensures d == Distance(a, b)
  {
    var dp := new nat[|a| + 1, |b| + 1];
    var i := 0;
    while i <= |a|
      invariant 0 <= i <= |a| + 1
      invariant forall p :: 0 <= p < i ==> dp[p, 0] == p
    {
      dp[i, 0] := i;
      i := i + 1;
    }
    var j := 0;
    while j <= |b|
      invariant 0 <= j <= |b| + 1
      invariant forall q :: 0 <= q < j ==> dp[0, q] == q
      invariant forall p :: 1 <= p <= |a| ==> dp[p, 0] == p
    {
      dp[0, j] := j;
      j := j + 1;
    }
    i := 1;
    while i <= |a|
      invariant 1 <= i <= |a| + 1
      invariant TableUpTo(dp, a, b, i)
    {
      FillRow(dp, a, b, i);
      i := i + 1;
    }
    d := dp[|a|, |b|];
  }

  /** Against the empty string the distance is the other string's length. */
  lemma DistanceToEmpty(a: string)
    ensures Distance(a, []) == |a|
    ensures Distance([], a) == |a|
  {
  }

  /** Every string is at distance 0 from itself. */
  lemma {:induction false} DistSelf(a: string, i: nat)
    requires i <= |a|
    ensures Dist(a, a, i, i) == 0
  {
    if i > 0 {
      DistSelf(a, i - 1);
    }
  }

  /** The distance `d` of two prefixes never exceeds the longer length. */
  lemma {:induction false} DistUpperBound(a: string, b: string, i: nat, j: nat, d: nat)
    requires i <= |a| && j <= |b| && d == Dist(a, b, i, j)
    ensures d <= if i <= j then j else i
    decreases i + j
  {
    if i > 0 && j > 0 {
      DistUpperBound(a, b, i - 1, j - 1, Dist(a, b, i - 1, j - 1));
      if a[i - 1] != b[j - 1] {
        DistUpperBound(a, b, i - 1, j, Dist(a, b, i - 1, j));
        DistUpperBound(a, b, i, j - 1, Dist(a, b, i, j - 1));
      }
    }
  }

  /** The distance `d` of two prefixes is at least the difference of their
      lengths. */
  lemma {:induction false} DistLowerBound(a: string, b: string, i: nat, j: nat, d: nat)
    requires i <= |a| && j <= |b| && d == Dist(a, b, i, j)
    ensures d >= if i <= j then j - i else i - j
    decreases i + j
  {
    if i > 0 && j > 0 {
      DistLowerBound(a, b, i - 1, j - 1, Dist(a, b, i - 1, j - 1));
      if a[i - 1] != b[j - 1] {
        DistLowerBound(a, b, i - 1, j, Dist(a, b, i - 1, j));
        DistLowerBound(a, b, i, j - 1, Dist(a, b, i, j - 1));
      }
    }
  }

  /** Distance 0 holds exactly between equal prefixes. */
  lemma {:induction false} DistZeroIff(a: string, b: string, i: nat, j: nat)
    requires i <= |a| && j <= |b|
    ensures Dist(a, b, i, j) == 0 <==> i == j && a[..i] == b[..j]
    decreases i + j
  {
    if i > 0 && j > 0 {
      DistZeroIff(a, b, i - 1, j - 1);
      if a[..i] == b[..j] {
        assert a[i - 1] == a[..i][i - 1];
        assert a[..i - 1] == a[..i][..i - 1];
        assert b[..j - 1] == b[..j][..j - 1];
      }
      if a[i - 1] == b[j - 1] && a[..i - 1] == b[..j - 1] {
        assert a[..i] == a[..i - 1] + [a[i - 1]];
        assert b[..j] == b[..j - 1] + [b[j - 1]];
      }
    }
  }

  lemma DistanceZeroIff(a: string, b: string)
    ensures Distance(a, b) == 0 <==> a == b
  {
    DistZeroIff(a, b, |a|, |b|);
    assert a[..|a|] == a && b[..|b|] == b;
  }

  /** The distance does not depend on which string comes first: `d` and
      `e` are the distances taken both ways round. */
  lemma {:induction false} DistSymmetric(a: string, b: string, i: nat, j: nat, d: nat, e: nat)
    requires i <= |a| && j <= |b|
    requires d == Dist(a, b, i, j) && e == Dist(b, a, j, i)
    ensures d == e
    decreases i + j
  {
    if i > 0 && j > 0 {
      DistSymmetric(a, b, i - 1, j - 1, Dist(a, b, i - 1, j - 1), Dist(b, a, j - 1, i - 1));
      if a[i - 1] != b[j - 1] {
        DistSymmetric(a, b, i - 1, j, Dist(a, b, i - 1, j), Dist(b, a, j, i - 1));
        DistSymmetric(a, b, i, j - 1, Dist(a, b, i, j - 1), Dist(b, a, j - 1, i));
      }
    }
  }

  /** When the two prefixes have no character in common, nothing can be
      kept: their distance `d` is the longer length. */
  lemma {:induction false} DistDisjoint(a: string, b: string, i: nat, j: nat, d: nat)
    requires i <= |a| && j <= |b| && d == Dist(a, b, i, j)
    requires forall p, q :: 0 <= p < i && 0 <= q < j ==> a[p] != b[q]
    ensures d == if i <= j then j else i
    decreases i + j
  {
    if i > 0 && j > 0 {
      DistDisjoint(a, b, i - 1, j, Dist(a, b, i - 1, j));
      DistDisjoint(a, b, i, j - 1, Dist(a, b, i, j - 1));
      DistDisjoint(a, b, i - 1, j - 1, Dist(a, b, i - 1, j - 1));
    }
  }
}
