/**
 * combos5: every way of choosing 5 of the input's positions in increasing
 * order, enumerated by five nested loops. The enumeration is specified at the
 * level of index tuples; the cards are then read off at those positions.
 */
module Combos {

  /**
   * The k-tuples of strictly increasing indices drawn from lo .. n - 1, each
   * appended to prefix p, in the order the nested loops produce them.
   */
  function Ext(n: nat, p: seq<nat>, lo: nat, k: nat): seq<seq<nat>>
    decreases k, 1, 0
  {
    if k == 0 then [p] else ExtRange(n, p, lo, n, k)
  }

  /** The part of Ext(n, p, lo, k) whose first chosen index is below hi. */
  function ExtRange(n: nat, p: seq<nat>, lo: nat, hi: nat, k: nat): seq<seq<nat>>
    requires k >= 1
    decreases k, 0, hi
  {
    if hi <= lo then [] else ExtRange(n, p, lo, hi - 1, k) + Ext(n, p + [hi - 1], hi, k - 1)
  }

  /** t continues strictly upward from lo and stays below n. */
  predicate Ascending(t: seq<nat>, lo: nat, n: nat)
  {
    (forall j :: 0 <= j < |t| ==> lo <= t[j] < n) &&
    (forall i, j :: 0 <= i < j < |t| ==> t[i] < t[j])
  }

  /** Every index of every tuple is below n. */
  predicate TuplesBelow(ts: seq<seq<nat>>, n: nat)
  {
    forall j, x :: 0 <= j < |ts| && 0 <= x < |ts[j]| ==> ts[j][x] < n
  }

  function PickOne<T>(arr: seq<T>, t: seq<nat>): (r: seq<T>)
    requires forall x :: 0 <= x < |t| ==> t[x] < |arr|
    ensures |r| == |t| && forall x :: 0 <= x < |t| ==> r[x] == arr[t[x]]
  {
    seq(|t|, x requires 0 <= x < |t| => arr[t[x]])
  }

  function Pick<T>(arr: seq<T>, ts: seq<seq<nat>>): (r: seq<seq<T>>)
    requires TuplesBelow(ts, |arr|)
    ensures |r| == |ts| && forall j :: 0 <= j < |ts| ==> r[j] == PickOne(arr, ts[j])
  {
    seq(|ts|, j requires 0 <= j < |ts| => PickOne(arr, ts[j]))
  }

  lemma PickAppend<T>(arr: seq<T>, ts: seq<seq<nat>>, t: seq<nat>)
    requires TuplesBelow(ts, |arr|) && forall x :: 0 <= x < |t| ==> t[x] < |arr|
    ensures TuplesBelow(ts + [t], |arr|)
    ensures Pick(arr, ts + [t]) == Pick(arr, ts) + [PickOne(arr, t)]
  {
  }

  lemma {:induction false} ExtSound(n: nat, p: seq<nat>, lo: nat, k: nat)
    ensures forall t :: t in Ext(n, p, lo, k) ==>
      |t| == |p| + k && t[..|p|] == p && Ascending(t[|p|..], lo, n)
    decreases k, 1, 0
  {
    if k > 0 {
      ExtRangeSound(n, p, lo, n, k);
    }
  }

  lemma {:induction false} ExtRangeSound(n: nat, p: seq<nat>, lo: nat, hi: nat, k: nat)
    requires k >= 1 && hi <= n
    ensures forall t :: t in ExtRange(n, p, lo, hi, k) ==>
      |t| == |p| + k && t[..|p|] == p && Ascending(t[|p|..], lo, n) && t[|p|] < hi
    decreases k, 0, hi
  {
    if hi > lo {
      ExtRangeSound(n, p, lo, hi - 1, k);
      var q := p + [hi - 1];
      ExtSound(n, q, hi, k - 1);
      forall t | t in Ext(n, q, hi, k - 1)
        ensures |t| == |p| + k && t[..|p|] == p && Ascending(t[|p|..], lo, n) && t[|p|] < hi
      {
        assert t[..|q|] == q;
        assert t[..|p|] == q[..|p|];
        assert t[|p|] == hi - 1;
        var u := t[|p|..];
        assert u[1..] == t[|q|..];
        forall x | 1 <= x < |u| ensures hi <= u[x] < n {
          assert u[x] == u[1..][x - 1];
        }
      }
    }
  }

  lemma {:induction false} ExtComplete(n: nat, p: seq<nat>, lo: nat, k: nat, q: seq<nat>)
    requires |q| == k && Ascending(q, lo, n)
    ensures p + q in Ext(n, p, lo, k)
    decreases k, 1, 0
  {
    if k == 0 {
      assert p + q == p;
    } else {
      ExtRangeComplete(n, p, lo, n, k, q);
    }
  }

  lemma {:induction false} ExtRangeComplete(n: nat, p: seq<nat>, lo: nat, hi: nat, k: nat, q: seq<nat>)
    requires k >= 1 && |q| == k && Ascending(q, lo, n) && q[0] < hi
    ensures p + q in ExtRange(n, p, lo, hi, k)
    decreases k, 0, hi
  {
    if q[0] < hi - 1 {
      ExtRangeComplete(n, p, lo, hi - 1, k, q);
    } else {
      ExtComplete(n, p + [hi - 1], hi, k - 1, q[1..]);
      assert p + q == p + [hi - 1] + q[1..];
    }
  }

  lemma {:induction false} ExtEmpty(n: nat, p: seq<nat>, lo: nat, k: nat)
    requires k >= 1 && lo + k > n
    ensures Ext(n, p, lo, k) == []
    decreases k, 1, 0
  {
    ExtRangeEmpty(n, p, lo, n, k);
  }

  lemma {:induction false} ExtRangeEmpty(n: nat, p: seq<nat>, lo: nat, hi: nat, k: nat)
    requires k >= 1 && lo + k > n && hi <= n
    ensures ExtRange(n, p, lo, hi, k) == []
    decreases k, 0, hi
  {
    if hi > lo {
      ExtRangeEmpty(n, p, lo, hi - 1, k);
      if k > 1 {
        ExtEmpty(n, p + [hi - 1], hi, k - 1);
      }
    }
  }

  /** Positions from n - k + 1 on cannot start a k-tuple, so the loops may stop there. */
  lemma {:induction false} ExtRangeTail(n: nat, p: seq<nat>, lo: nat, hi: nat, k: nat)
    requires k >= 1 && hi <= n && hi + k > n
    ensures ExtRange(n, p, lo, hi, k) == Ext(n, p, lo, k)
    decreases n - hi
  {
    if hi < n {
      ExtRangeTail(n, p, lo, hi + 1, k);
      if hi + 1 > lo && k > 1 {
        ExtEmpty(n, p + [hi], hi + 1, k - 1);
      }
    }
  }

  function Binomial(n: nat, k: nat): nat
  {
    if k == 0 then 1 else if n == 0 then 0 else Binomial(n - 1, k - 1) + Binomial(n - 1, k)
  }

  lemma {:induction false} ExtCount(n: nat, p: seq<nat>, lo: nat, k: nat)
    requires lo <= n
    ensures |Ext(n, p, lo, k)| == Binomial(n - lo, k)
    decreases k, 1, 0
  {
    if k > 0 {
      ExtRangeCount(n, p, lo, n, k);
    }
  }

  lemma {:induction false} ExtRangeCount(n: nat, p: seq<nat>, lo: nat, hi: nat, k: nat)
    requires k >= 1 && lo <= hi <= n
    ensures |ExtRange(n, p, lo, hi, k)| + Binomial(n - hi, k) == Binomial(n - lo, k)
    decreases k, 0, hi
  {
    if hi > lo {
      ExtRangeCount(n, p, lo, hi - 1, k);
      ExtCount(n, p + [hi - 1], hi, k - 1);
    }
  }

  /** The index tuples combos5 enumerates for an input of length n. */
  function Choose5(n: nat): seq<seq<nat>>
  {
    Ext(n, [], 0, 5)
  }

  lemma Choose5Sound(n: nat)
    ensures TuplesBelow(Choose5(n), n)
    ensures forall t :: t in Choose5(n) ==> |t| == 5 && Ascending(t, 0, n)
  {
    ExtSound(n, [], 0, 5);
    forall t | t in Choose5(n) ensures t[0..] == t {
    }
  }

  /** combos5's result as a value: the cards at each tuple of Choose5. */
  function Combos5Of<T>(arr: seq<T>): (r: seq<seq<T>>)
    ensures forall f :: f in r ==> |f| == 5
  {
    Choose5Sound(|arr|);
    Pick(arr, Choose5(|arr|))
  }

  /** The index tuples are exactly the increasing 5-tuples of positions. */
  lemma Choose5Exact(n: nat, t: seq<nat>)
    ensures t in Choose5(n) <==> |t| == 5 && Ascending(t, 0, n)
  {
    Choose5Sound(n);
    if |t| == 5 && Ascending(t, 0, n) {
      ExtComplete(n, [], 0, 5, t);
      assert [] + t == t;
    }
  }

  lemma {:induction false} BinomialAbove(n: nat, k: nat)
    requires k > n
    ensures Binomial(n, k) == 0
  {
    if n > 0 {
      BinomialAbove(n - 1, k - 1);
      BinomialAbove(n - 1, k);
    }
  }

  lemma {:induction false} BinomialAll(n: nat)
    ensures Binomial(n, n) == 1
  {
    if n > 0 {
      BinomialAll(n - 1);
      BinomialAbove(n - 1, n);
    }
  }

  lemma {:induction false} BinomialOne(n: nat)
    ensures Binomial(n, 1) == n
  {
    if n > 0 {
      BinomialOne(n - 1);
    }
  }

  lemma SevenChooseFive()
    ensures Binomial(7, 5) == 21
  {
    BinomialOne(2);
    BinomialOne(3);
    BinomialAll(2);
    BinomialAll(3);
    BinomialAll(4);
    BinomialAll(5);
    assert Binomial(3, 2) == 3;
    assert Binomial(4, 2) == 6;
    assert Binomial(4, 3) == 4;
    assert Binomial(5, 3) == 10;
    assert Binomial(5, 4) == 5;
    assert Binomial(6, 4) == 15;
    assert Binomial(6, 5) == 6;
  }

  /** There are C(n, 5) of them. */
  lemma Choose5Count(n: nat)
    ensures |Choose5(n)| == Binomial(n, 5)
  {
    ExtCount(n, [], 0, 5);
  }

  /** Seven cards give 21 five-card hands. */
  lemma SevenCardsGive21<T>(arr: seq<T>)
    requires |arr| == 7
    ensures |Combos5Of(arr)| == 21
  {
    Choose5Count(|arr|);
    SevenChooseFive();
  }

  /** Every input of at least five cards has a combination. */
  lemma Combos5NonEmpty<T>(arr: seq<T>)
    requires |arr| >= 5
    ensures |Combos5Of(arr)| > 0
  {
    Choose5Exact(|arr|, [0, 1, 2, 3, 4]);
  }

  /**
   * One level of combos5's loop nest: the loop over the position that follows
   * prefix p, from lo while k - 1 positions still fit after it. The innermost
   * level (k == 1) yields the cards at the chosen positions; every other level
   * runs the next level inside its body. Results accumulate onto cs0.
   */
  method ExtendCombos<T>(arr: seq<T>, p: seq<nat>, lo: nat, k: nat, cs0: seq<seq<T>>, ghost idx0: seq<seq<nat>>)
    returns (cs: seq<seq<T>>, ghost idx: seq<seq<nat>>)
    requires 1 <= k && lo <= |arr| && forall x :: 0 <= x < |p| ==> p[x] < |arr|
    requires TuplesBelow(idx0, |arr|) && cs0 == Pick(arr, idx0)
    ensures idx == idx0 + Ext(|arr|, p, lo, k)
    ensures TuplesBelow(idx, |arr|) && cs == Pick(arr, idx)
    decreases k
  {
    var n := |arr|;
    cs, idx := cs0, idx0;
    var x := lo;
    while x < n - (k - 1)
      invariant lo <= x && (x <= n - (k - 1) || x == lo)
      invariant idx == idx0 + ExtRange(n, p, lo, x, k)
      invariant TuplesBelow(idx, n) && cs == Pick(arr, idx)
    {
      ghost var before := idx;
      var t := p + [x];
      if k == 1 {
        PickAppend(arr, idx, t);
        cs := cs + [PickOne(arr, t)];
        idx := idx + [t];
      } else {
        cs, idx := ExtendCombos(arr, t, x + 1, k - 1, cs, idx);
      }
      assert idx == before + Ext(n, t, x + 1, k - 1);
      assert ExtRange(n, p, lo, x + 1, k) == ExtRange(n, p, lo, x, k) + Ext(n, t, x + 1, k - 1);
      x := x + 1;
    }
    ExtRangeTail(n, p, lo, x, k);
  }

  /**
   * combos5: five nested loops a < b < c < d < e over the positions, the
   * loop at each depth stopping where the remaining positions no longer fit,
   * yielding [arr[a], arr[b], arr[c], arr[d], arr[e]].
   */
  method Combos5<T>(arr: seq<T>) returns (cs: seq<seq<T>>)
    ensures cs == Combos5Of(arr)
  {
    ghost var idx;
    cs, idx := ExtendCombos(arr, [], 0, 5, [], []);
  }
}
