/**
 * Hand scores and their order. A score is compared entry by entry, a missing
 * entry counting as 0, so [4, 5] and [4, 5, 0] tie.
 */
module Scores {
  import opened Types

  /** score[i] ?? 0 */
  function At(s: Score, i: nat): int
  {
    if i < |s| then s[i] else 0
  }

  /** The comparison loop of compareScores, from position i on. */
  function CompareFrom(a: Score, b: Score, i: nat): (r: int)
    ensures -1 <= r <= 1
    decreases |a| + |b| - i
  {
    if i >= |a| && i >= |b| then 0
    else if At(a, i) != At(b, i) then (if At(a, i) > At(b, i) then 1 else -1)
    else CompareFrom(a, b, i + 1)
  }

  /** compareScores: 1, -1 or 0 as a ranks above, below or level with b. */
  function CompareScores(a: Score, b: Score): (r: int)
    ensures -1 <= r <= 1
  {
    CompareFrom(a, b, 0)
  }

  /**
   * compareScores' loop: walks both scores up to the longer length, missing
   * entries reading as 0, and answers at the first difference.
   */
  method Compare(a: Score, b: Score) returns (c: int)
    ensures c == CompareScores(a, b)
  {
    var len := if |a| > |b| then |a| else |b|;
    var i := 0;
    while i < len
      invariant 0 <= i <= len
      invariant CompareFrom(a, b, i) == CompareScores(a, b)
    {
      var x, y := At(a, i), At(b, i);
      if x != y {
        return if x > y then 1 else -1;
      }
      i := i + 1;
    }
    return 0;
  }

  /** a and b agree at every position, padding with zeros. */
  ghost predicate SameScore(a: Score, b: Score)
  {
    forall i: nat :: At(a, i) == At(b, i)
  }

  /** a is lexicographically above b: the first difference favours a. */
  ghost predicate Above(a: Score, b: Score)
  {
    exists k: nat :: At(a, k) > At(b, k) && forall j: nat :: j < k ==> At(a, j) == At(b, j)
  }

  lemma {:induction false} CompareFromSpec(a: Score, b: Score, i: nat)
    ensures CompareFrom(a, b, i) == 0 <==> forall j: nat :: i <= j ==> At(a, j) == At(b, j)
    ensures CompareFrom(a, b, i) == 1 <==>
      exists k: nat :: i <= k && At(a, k) > At(b, k) && forall j: nat :: i <= j < k ==> At(a, j) == At(b, j)
    decreases |a| + |b| - i
  {
    if i >= |a| && i >= |b| {
      assert forall j: nat :: i <= j ==> At(a, j) == 0 == At(b, j);
      if CompareFrom(a, b, i) == 1 {
        assert false;
      }
      forall k: nat | i <= k && At(a, k) > At(b, k)
        ensures false
      {
      }
    } else if At(a, i) != At(b, i) {
      if At(a, i) > At(b, i) {
        assert forall j: nat :: i <= j < i ==> At(a, j) == At(b, j);
      }
    } else {
      CompareFromSpec(a, b, i + 1);
      if CompareFrom(a, b, i) == 1 {
        var k: nat :| i + 1 <= k && At(a, k) > At(b, k) && forall j: nat :: i + 1 <= j < k ==> At(a, j) == At(b, j);
        assert forall j: nat :: i <= j < k ==> At(a, j) == At(b, j);
      }
      forall k: nat | i <= k && At(a, k) > At(b, k) && forall j: nat :: i <= j < k ==> At(a, j) == At(b, j)
        ensures CompareFrom(a, b, i) == 1
      {
        assert k != i;
        assert forall j: nat :: i + 1 <= j < k ==> At(a, j) == At(b, j);
      }
    }
  }

  /** compareScores is the lexicographic order on zero-padded scores: 0 exactly on ties, 1 exactly when a is above. */
  lemma CompareScoresMeaning(a: Score, b: Score)
    ensures CompareScores(a, b) == 0 <==> SameScore(a, b)
    ensures CompareScores(a, b) == 1 <==> Above(a, b)
  {
    CompareFromSpec(a, b, 0);
  }

  /** Swapping the arguments negates the comparison. */
  lemma {:induction false} CompareAntisymmetric(a: Score, b: Score)
    ensures CompareScores(a, b) == -CompareScores(b, a)
  {
    CompareFromAntisymmetric(a, b, 0);
  }

  lemma {:induction false} CompareFromAntisymmetric(a: Score, b: Score, i: nat)
    ensures CompareFrom(a, b, i) == -CompareFrom(b, a, i)
    decreases |a| + |b| - i
  {
    if !(i >= |a| && i >= |b|) && At(a, i) == At(b, i) {
      CompareFromAntisymmetric(a, b, i + 1);
    }
  }

  /** Every score ties with itself. */
  lemma CompareReflexive(a: Score)
    ensures CompareScores(a, a) == 0
  {
    CompareScoresMeaning(a, a);
  }

  lemma {:induction false} CompareFromTransitive(a: Score, b: Score, c: Score, i: nat)
    requires CompareFrom(a, b, i) >= 0 && CompareFrom(b, c, i) >= 0
    ensures CompareFrom(a, c, i) >= 0
    ensures CompareFrom(a, c, i) == 0 ==> CompareFrom(a, b, i) == 0 && CompareFrom(b, c, i) == 0
    decreases |a| + |b| + |c| - i
  {
    if i >= |a| && i >= |b| && i >= |c| {
    } else if At(a, i) == At(b, i) && At(b, i) == At(c, i) {
      CompareFromTransitive(a, b, c, i + 1);
    }
  }

  /** The order is transitive, and a chain ties end to end only if every step ties. */
  lemma CompareTransitive(a: Score, b: Score, c: Score)
    requires CompareScores(a, b) >= 0 && CompareScores(b, c) >= 0
    ensures CompareScores(a, c) >= 0
    ensures CompareScores(a, b) > 0 || CompareScores(b, c) > 0 ==> CompareScores(a, c) > 0
  {
    CompareFromTransitive(a, b, c, 0);
  }

  const CategoryNames: seq<string> := [
    "High Card", "One Pair", "Two Pair", "Three of a Kind", "Straight",
    "Flush", "Full House", "Four of a Kind", "Straight Flush"]

  /** describeScore: the category name of a score. */
  function DescribeScore(s: Score): (name: string)
    requires |s| > 0 && 0 <= s[0] < |CategoryNames|
    ensures name in CategoryNames
  {
    CategoryNames[s[0]]
  }

  /** Different categories get different names. */
  lemma DescribeScoreInjective(a: Score, b: Score)
    requires |a| > 0 && 0 <= a[0] < |CategoryNames|
    requires |b| > 0 && 0 <= b[0] < |CategoryNames|
    requires DescribeScore(a) == DescribeScore(b)
    ensures a[0] == b[0]
  {
    var n := CategoryNames;
    assert n[0] != n[1] && n[0] != n[2] && n[0] != n[3] && n[0] != n[4] && n[0] != n[5];
    assert n[0] != n[6] && n[0] != n[7] && n[0] != n[8];
    assert n[1] != n[2] && n[1] != n[3] && n[1] != n[4] && n[1] != n[5] && n[1] != n[6];
    assert n[1] != n[7] && n[1] != n[8];
    assert n[2] != n[3] && n[2] != n[4] && n[2] != n[5] && n[2] != n[6] && n[2] != n[7] && n[2] != n[8];
    assert n[3] != n[4] && n[3] != n[5] && n[3] != n[6] && n[3] != n[7] && n[3] != n[8];
    assert n[4] != n[5] && n[4] != n[6] && n[4] != n[7] && n[4] != n[8];
    assert n[5] != n[6] && n[5] != n[7] && n[5] != n[8];
    assert n[6] != n[7] && n[6] != n[8] && n[7] != n[8];
  }
}
