/**
 * Sequence helpers the evaluator is built from: descending sort, first-occurrence
 * de-duplication, occurrence counts and sums.
 */
module Sequences {

  predicate NonIncreasing(s: seq<int>)
  {
    forall j, k :: 0 <= j < k < |s| ==> s[j] >= s[k]
  }

  predicate StrictlyDecreasing(s: seq<int>)
  {
    forall j, k :: 0 <= j < k < |s| ==> s[j] > s[k]
  }

  predicate Distinct<T(==)>(s: seq<T>)
  {
    forall j, k :: 0 <= j < k < |s| ==> s[j] != s[k]
  }

  /** Number of occurrences of x in s. */
  function Count<T(==)>(s: seq<T>, x: T): nat
  {
    multiset(s)[x]
  }

  /** slice(0, k): the first k elements, or all of s when it is shorter. */
  function Take<T>(s: seq<T>, k: nat): (r: seq<T>)
    ensures |r| == if |s| < k then |s| else k
    ensures r == s[..|r|]
  {
    if |s| <= k then s else s[..k]
  }

  function Sum(s: seq<nat>): nat
  {
    if s == [] then 0 else Sum(s[..|s| - 1]) + s[|s| - 1]
  }

  lemma {:induction false} SumUpdate(s: seq<nat>, i: nat, v: nat)
    requires i < |s|
    ensures Sum(s[i := v]) + s[i] == Sum(s) + v
    decreases |s|
  {
    var n := |s| - 1;
    if i < n {
      SumUpdate(s[..n], i, v);
      assert s[i := v][..n] == s[..n][i := v];
    } else {
      assert s[i := v][..n] == s[..n];
    }
  }

  // ---------------- descending insertion sort ----------------

  function InsertDesc(x: int, s: seq<int>): (r: seq<int>)
    ensures |r| == |s| + 1 && multiset(r) == multiset(s) + multiset{x}
  {
    if s == [] then [x]
    else
      assert s == [s[0]] + s[1..];
      if x >= s[0] then [x] + s
    else [s[0]] + InsertDesc(x, s[1..])
  }

  /** The sort((a, b) => b - a) of the source: the same elements, largest first. */
  function SortDesc(s: seq<int>): (r: seq<int>)
    ensures |r| == |s| && multiset(r) == multiset(s)
  {
    if s == [] then []
    else
      assert s == [s[0]] + s[1..];
      InsertDesc(s[0], SortDesc(s[1..]))
  }

  lemma {:induction false} InsertDescSorted(x: int, s: seq<int>)
    requires NonIncreasing(s)
    ensures NonIncreasing(InsertDesc(x, s))
  {
    if s != [] && x < s[0] {
      InsertDescSorted(x, s[1..]);
      var t := InsertDesc(x, s[1..]);
      assert t[0] in multiset(t);
      assert t[0] == x || t[0] in multiset(s[1..]);
    }
  }

  lemma {:induction false} SortDescSorted(s: seq<int>)
    ensures NonIncreasing(SortDesc(s))
  {
    if s != [] {
      SortDescSorted(s[1..]);
      InsertDescSorted(s[0], SortDesc(s[1..]));
    }
  }

  lemma {:induction false} SortDescMembers(s: seq<int>)
    ensures forall x :: x in SortDesc(s) <==> x in s
  {
    var r := SortDesc(s);
    forall x ensures x in r <==> x in s {
      assert x in r <==> x in multiset(r);
      assert x in s <==> x in multiset(s);
    }
  }

  // ---------------- de-duplication ----------------

  /** Array.from(new Set(s)): each value once, in order of first occurrence. */
  function Dedupe(s: seq<int>): (d: seq<int>)
    ensures |d| <= |s|
    ensures forall x :: x in d <==> x in s
  {
    if s == [] then []
    else
      var d := Dedupe(s[..|s| - 1]);
      assert s == s[..|s| - 1] + [s[|s| - 1]];
      if s[|s| - 1] in s[..|s| - 1] then d else d + [s[|s| - 1]]
  }

  lemma {:induction false} DedupeDistinct(s: seq<int>)
    ensures Distinct(Dedupe(s))
  {
    if s != [] {
      DedupeDistinct(s[..|s| - 1]);
    }
  }

  /** De-duplicating a descending sequence leaves a strictly descending one. */
  lemma {:induction false} DedupeOfSorted(s: seq<int>)
    requires NonIncreasing(s)
    ensures StrictlyDecreasing(Dedupe(s))
    ensures s != [] ==> Dedupe(s) != [] && Dedupe(s)[0] == s[0]
  {
    if s != [] {
      var p := s[..|s| - 1];
      DedupeOfSorted(p);
      var d := Dedupe(p);
      var x := s[|s| - 1];
      if x !in p {
        forall j | 0 <= j < |d| ensures d[j] > x {
          assert d[j] in p;
          var k :| 0 <= k < |p| && p[k] == d[j];
          assert s[k] >= s[|s| - 1];
        }
      }
    }
  }

  /** Sorting distinct values in descending order leaves them strictly descending. */
  lemma SortedDistinctIsStrict(s: seq<int>)
    requires NonIncreasing(s) && Distinct(s)
    ensures StrictlyDecreasing(s)
  {
  }

  lemma {:induction false} DistinctCounts<T>(s: seq<T>)
    requires Distinct(s)
    ensures forall x :: Count(s, x) <= 1
  {
    if s != [] {
      var p := s[..|s| - 1];
      assert s == p + [s[|s| - 1]];
      DistinctCounts(p);
      assert s[|s| - 1] !in p;
      forall x ensures Count(s, x) <= 1 {
        assert Count(s, x) == Count(p, x) + (if x == s[|s| - 1] then 1 else 0);
      }
    }
  }

  lemma {:induction false} CountsDistinct<T>(s: seq<T>)
    requires forall x :: Count(s, x) <= 1
    ensures Distinct(s)
  {
    forall j, k | 0 <= j < k < |s| ensures s[j] != s[k] {
      assert s == s[..k] + [s[k]] + s[k + 1..];
      assert s[j] in s[..k];
      assert Count(s[..k], s[j]) >= 1;
      assert Count(s, s[k]) >= Count(s[..k], s[k]) + 1;
    }
  }

  /** The descending sort of a de-duplicated sequence is strictly descending. */
  lemma SortDescOfDistinct(s: seq<int>)
    requires Distinct(s)
    ensures StrictlyDecreasing(SortDesc(s))
  {
    DistinctCounts(s);
    assert forall x :: Count(SortDesc(s), x) == Count(s, x);
    CountsDistinct(SortDesc(s));
    SortDescSorted(s);
    SortedDistinctIsStrict(SortDesc(s));
  }

  /** Two distinct values together occur at most |s| times. */
  lemma {:induction false} TwoCounts<T>(s: seq<T>, x: T, y: T)
    requires x != y
    ensures Count(s, x) + Count(s, y) <= |s|
  {
    if s != [] {
      var p := s[..|s| - 1];
      assert s == p + [s[|s| - 1]];
      TwoCounts(p, x, y);
    }
  }

  /** Three distinct values together occur at most |s| times. */
  lemma {:induction false} ThreeCounts<T>(s: seq<T>, x: T, y: T, z: T)
    requires x != y && y != z && x != z
    ensures Count(s, x) + Count(s, y) + Count(s, z) <= |s|
  {
    if s != [] {
      var p := s[..|s| - 1];
      assert s == p + [s[|s| - 1]];
      ThreeCounts(p, x, y, z);
    }
  }

  /** If x and y do not account for every element, some third value occurs. */
  lemma {:induction false} SomeOther<T>(s: seq<T>, x: T, y: T) returns (z: T)
    requires Count(s, x) + Count(s, y) < |s|
    ensures z in s && z != x && z != y
  {
    var p := s[..|s| - 1];
    var last := s[|s| - 1];
    assert s == p + [last];
    if last != x && last != y {
      z := last;
    } else {
      z := SomeOther(p, x, y);
    }
  }

  /** If x does not account for every element, some other value occurs. */
  lemma {:induction false} SomeOtherThan<T>(s: seq<T>, x: T) returns (z: T)
    requires Count(s, x) < |s|
    ensures z in s && z != x
  {
    var p := s[..|s| - 1];
    var last := s[|s| - 1];
    assert s == p + [last];
    if last != x {
      z := last;
    } else {
      z := SomeOtherThan(p, x);
    }
  }

  /** Four distinct values together occur at most |s| times. */
  lemma {:induction false} FourCounts<T>(s: seq<T>, a: T, b: T, c: T, d: T)
    requires a != b && a != c && a != d && b != c && b != d && c != d
    ensures Count(s, a) + Count(s, b) + Count(s, c) + Count(s, d) <= |s|
  {
    if s != [] {
      var p := s[..|s| - 1];
      assert s == p + [s[|s| - 1]];
      FourCounts(p, a, b, c, d);
    }
  }

  /** When two values account for every element, nothing else occurs. */
  lemma OnlyTwoValues<T>(s: seq<T>, x: T, y: T)
    requires x != y && Count(s, x) + Count(s, y) == |s|
    ensures forall v :: v in s ==> v == x || v == y
  {
    forall v | v in s ensures v == x || v == y {
      assert v in multiset(s);
      if v != x && v != y {
        ThreeCounts(s, x, y, v);
      }
    }
  }

  /** When three values account for every element, nothing else occurs. */
  lemma OnlyThreeValues<T>(s: seq<T>, x: T, y: T, z: T)
    requires x != y && y != z && x != z && Count(s, x) + Count(s, y) + Count(s, z) == |s|
    ensures forall v :: v in s ==> v == x || v == y || v == z
  {
    forall v | v in s ensures v == x || v == y || v == z {
      assert v in multiset(s);
      if v != x && v != y && v != z {
        FourCounts(s, x, y, z, v);
      }
    }
  }
}
