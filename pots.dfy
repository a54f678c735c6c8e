/**
 * The side-pot ledger of a showdown. Per-seat contributions are peeled into
 * layers (the main pot, then side pots): each layer takes the smallest
 * positive contribution from every seat that still has one, and only the
 * seats that have not folded may win it. A single seat left with chips at
 * the end was not called and gets them back, unless it folded. Adjacent
 * layers with the same contenders are merged, each layer goes to the best
 * scores among its contenders, and it is split exactly, one odd chip each
 * to the first winners in seat order.
 */
module Pots {
  import opened Types
  import opened Sequences
  import opened Scores

  /** One pot layer: its chips and the seats that may win it, ascending. */
  datatype Segment = Segment(amount: nat, participants: seq<nat>)

  /** Chips left with a single seat once every other contribution is used up. */
  datatype Lone = Lone(seat: nat, amount: nat)

  /** The layers peeled from the contributions, and the uncalled remainder if any. */
  datatype Layering = Layering(segments: seq<Segment>, lone: Option<Lone>)

  predicate Increasing(s: seq<nat>)
  {
    forall j, k :: 0 <= j < k < |s| ==> s[j] < s[k]
  }

  /** Every seat named by a layer is below n. */
  predicate SeatsBelow(segs: seq<Segment>, n: nat)
  {
    forall k, t :: 0 <= k < |segs| && 0 <= t < |segs[k].participants| ==> segs[k].participants[t] < n
  }

  // ---------------------------------------------------------------------------
  // Peeling layers

  /** The seats with a positive contribution, ascending (`everyone`). */
  function Contributors(c: seq<nat>): (e: seq<nat>)
    ensures |e| <= |c|
    ensures forall k :: 0 <= k < |e| ==> e[k] < |c|
    decreases |c|
  {
    if c == [] then []
    else
      var e := Contributors(c[..|c| - 1]);
      if c[|c| - 1] > 0 then e + [|c| - 1] else e
  }

  /** The contributors are exactly the seats with a positive contribution, in ascending order. */
  lemma ContributorsMeaning(c: seq<nat>)
    ensures Increasing(Contributors(c))
    ensures forall k :: 0 <= k < |Contributors(c)| ==> c[Contributors(c)[k]] > 0
    ensures forall i :: 0 <= i < |c| && c[i] > 0 ==> i in Contributors(c)
  {
    ContributorsIncreasing(c);
    ContributorsPositive(c);
    ContributorsComplete(c);
  }

  lemma {:induction false} ContributorsIncreasing(c: seq<nat>)
    ensures Increasing(Contributors(c))
    decreases |c|
  {
    if c != [] {
      ContributorsIncreasing(c[..|c| - 1]);
    }
  }

  lemma {:induction false} ContributorsPositive(c: seq<nat>)
    ensures forall k :: 0 <= k < |Contributors(c)| ==> c[Contributors(c)[k]] > 0
    decreases |c|
  {
    if c != [] {
      var p := c[..|c| - 1];
      ContributorsPositive(p);
      var e := Contributors(p);
      forall k | 0 <= k < |e| ensures c[e[k]] > 0 {
        assert p[e[k]] > 0;
      }
    }
  }

  lemma {:induction false} ContributorsComplete(c: seq<nat>)
    ensures forall i :: 0 <= i < |c| && c[i] > 0 ==> i in Contributors(c)
    decreases |c|
  {
    if c != [] {
      var p := c[..|c| - 1];
      ContributorsComplete(p);
      var e := Contributors(p);
      forall i | 0 <= i < |p| && c[i] > 0 ensures i in e {
        assert p[i] > 0;
      }
    }
  }

  /** The seats of e that have not folded, in the same order (`participants`). */
  function NonFolded(e: seq<nat>, folded: seq<bool>): (p: seq<nat>)
    requires forall k :: 0 <= k < |e| ==> e[k] < |folded|
    ensures |p| <= |e|
    ensures forall k :: 0 <= k < |p| ==> p[k] < |folded| && !folded[p[k]]
    decreases |e|
  {
    if e == [] then []
    else
      var p := NonFolded(e[..|e| - 1], folded);
      if folded[e[|e| - 1]] then p else p + [e[|e| - 1]]
  }

  /** The contenders of a layer are exactly its non-folded contributors. */
  lemma {:induction false} NonFoldedMembers(e: seq<nat>, folded: seq<bool>)
    requires forall k :: 0 <= k < |e| ==> e[k] < |folded|
    ensures forall i :: i in NonFolded(e, folded) <==> i in e && !folded[i]
    decreases |e|
  {
    if e != [] {
      NonFoldedMembers(e[..|e| - 1], folded);
      var p := NonFolded(e[..|e| - 1], folded);
      forall i ensures i in NonFolded(e, folded) <==> i in e && !folded[i] {
        assert i in e <==> i in e[..|e| - 1] || i == e[|e| - 1] by {
          assert e == e[..|e| - 1] + [e[|e| - 1]];
        }
      }
    }
  }

  /** With nobody folded every contributor contends. */
  lemma {:induction false} NonFoldedAll(e: seq<nat>, folded: seq<bool>)
    requires forall k :: 0 <= k < |e| ==> e[k] < |folded|
    requires forall i :: 0 <= i < |folded| ==> !folded[i]
    ensures NonFolded(e, folded) == e
    decreases |e|
  {
    if e != [] {
      NonFoldedAll(e[..|e| - 1], folded);
    }
  }

  /** The smallest contribution among the seats e. */
  function MinOf(c: seq<nat>, e: seq<nat>): (m: nat)
    requires |e| > 0 && forall k :: 0 <= k < |e| ==> e[k] < |c|
    decreases |e|
  {
    if |e| == 1 then c[e[0]]
    else
      var m := MinOf(c, e[..|e| - 1]);
      var x := c[e[|e| - 1]];
      if x < m then x else m
  }

  /** MinOf is the contribution of one of the seats and at most that of each. */
  lemma {:induction false} MinOfMeaning(c: seq<nat>, e: seq<nat>)
    requires |e| > 0 && forall k :: 0 <= k < |e| ==> e[k] < |c|
    ensures exists k :: 0 <= k < |e| && MinOf(c, e) == c[e[k]]
    ensures forall k :: 0 <= k < |e| ==> MinOf(c, e) <= c[e[k]]
    decreases |e|
  {
    if |e| == 1 {
      assert MinOf(c, e) == c[e[0]];
    } else {
      var p := e[..|e| - 1];
      MinOfMeaning(c, p);
      var j :| 0 <= j < |p| && MinOf(c, p) == c[p[j]];
      var w := if c[e[|e| - 1]] < MinOf(c, p) then |e| - 1 else j;
      assert e[j] == p[j];
      assert MinOf(c, e) == c[e[w]];
      forall k | 0 <= k < |e| ensures MinOf(c, e) <= c[e[k]] {
        if k < |e| - 1 {
          assert e[k] == p[k];
        }
      }
    }
  }

  /** Every positive contribution reduced by m. */
  function Lower(c: seq<nat>, m: nat): (r: seq<nat>)
    requires forall i :: 0 <= i < |c| && c[i] > 0 ==> c[i] >= m
    ensures |r| == |c|
    decreases |c|
  {
    if c == [] then []
    else Lower(c[..|c| - 1], m) + [if c[|c| - 1] > 0 then c[|c| - 1] - m else 0]
  }

  lemma {:induction false} LowerAt(c: seq<nat>, m: nat, i: nat)
    requires forall j :: 0 <= j < |c| && c[j] > 0 ==> c[j] >= m
    requires i < |c|
    ensures Lower(c, m)[i] == if c[i] > 0 then c[i] - m else 0
    decreases |c|
  {
    if i < |c| - 1 {
      LowerAt(c[..|c| - 1], m, i);
    }
  }

  /** Lowering takes m from each contributor, no more and no less. */
  lemma {:induction false} SumLower(c: seq<nat>, m: nat)
    requires forall i :: 0 <= i < |c| && c[i] > 0 ==> c[i] >= m
    ensures Sum(Lower(c, m)) + m * |Contributors(c)| == Sum(c)
    decreases |c|
  {
    if c != [] {
      var p := c[..|c| - 1];
      var x := c[|c| - 1];
      SumLower(p, m);
      var l := Lower(c, m);
      var y: nat := if x > 0 then x - m else 0;
      assert l == Lower(p, m) + [y];
      assert l[..|c| - 1] == Lower(p, m);
      assert Sum(l) == Sum(Lower(p, m)) + y;
      var k := |Contributors(p)|;
      if x > 0 {
        assert |Contributors(c)| == k + 1;
        MulSucc(m, k);
      } else {
        assert Contributors(c) == Contributors(p);
      }
    }
  }

  lemma MulSucc(m: nat, k: nat)
    ensures m * (k + 1) == m * k + m
  {
  }

  lemma {:induction false} ZeroSum(c: seq<nat>)
    requires forall i :: 0 <= i < |c| ==> c[i] == 0
    ensures Sum(c) == 0
    decreases |c|
  {
    if c != [] {
      ZeroSum(c[..|c| - 1]);
    }
  }

  /** The minimum of the contributors bounds every positive contribution from below. */
  lemma MinBelowAll(c: seq<nat>, e: seq<nat>)
    requires e == Contributors(c) && |e| > 0
    ensures forall i :: 0 <= i < |c| && c[i] > 0 ==> c[i] >= MinOf(c, e)
  {
    ContributorsMeaning(c);
    MinOfMeaning(c, e);
    forall i | 0 <= i < |c| && c[i] > 0 ensures c[i] >= MinOf(c, e) {
      var k :| 0 <= k < |e| && e[k] == i;
    }
  }

  /**
   * Peeling a layer of the smallest contribution from two or more contributors
   * takes at least two chips and leaves every other chip in place.
   */
  lemma LayerFacts(c: seq<nat>)
    requires |Contributors(c)| >= 2
    ensures MinOf(c, Contributors(c)) >= 1
    ensures forall i :: 0 <= i < |c| && c[i] > 0 ==> c[i] >= MinOf(c, Contributors(c))
    ensures Sum(Lower(c, MinOf(c, Contributors(c)))) + MinOf(c, Contributors(c)) * |Contributors(c)| == Sum(c)
    ensures MinOf(c, Contributors(c)) * |Contributors(c)| >= 2
  {
    var e := Contributors(c);
    MinBelowAll(c, e);
    ContributorsMeaning(c);
    MinOfMeaning(c, e);
    var m := MinOf(c, e);
    var k :| 0 <= k < |e| && m == c[e[k]];
    SumLower(c, m);
    MulAtLeastTwo(m, |e|);
  }

  /** The size of a layer: its depth times the number of seats it is taken from. */
  function Times(m: nat, n: nat): nat
  {
    m * n
  }

  /** Peeling a layer leaves every contribution non-negative and strictly reduces the total. */
  lemma LowerShrinks(c: seq<nat>)
    requires |Contributors(c)| >= 2
    ensures forall i :: 0 <= i < |c| && c[i] > 0 ==> c[i] >= MinOf(c, Contributors(c))
    ensures Sum(Lower(c, MinOf(c, Contributors(c)))) < Sum(c)
  {
    LayerFacts(c);
  }

  lemma MulAtLeastTwo(m: nat, n: nat)
    requires m >= 1 && n >= 2
    ensures m * n >= 2
  {
    assert m * n == m * (n - 2) + m + m;
  }

  /**
   * The layer-peeling loop: with no contributor left it stops; with one, that
   * seat's chips are the uncalled remainder; otherwise it peels a layer of the
   * smallest contribution from every contributor, contested by the
   * non-folded ones.
   */
  function Peel(c: seq<nat>, folded: seq<bool>): (r: Layering)
    requires |folded| == |c|
    decreases Sum(c)
  {
    var e := Contributors(c);
    if |e| == 0 then Layering([], None)
    else if |e| == 1 then Layering([], Some(Lone(e[0], c[e[0]])))
    else
      LowerShrinks(c);
      var m := MinOf(c, e);
      var rest := Peel(Lower(c, m), folded);
      Layering([Segment(Times(m, |e|), NonFolded(e, folded))] + rest.segments, rest.lone)
  }

  /** Every layer and the uncalled remainder name seats of the table. */
  lemma {:induction false} PeelSeats(c: seq<nat>, folded: seq<bool>)
    requires |folded| == |c|
    ensures SeatsBelow(Peel(c, folded).segments, |c|)
    ensures Peel(c, folded).lone.Some? ==> Peel(c, folded).lone.value.seat < |c|
    decreases Sum(c)
  {
    var e := Contributors(c);
    if |e| >= 2 {
      LayerFacts(c);
      var m := MinOf(c, e);
      PeelSeats(Lower(c, m), folded);
      var seg := Segment(m * |e|, NonFolded(e, folded));
      var rest := Peel(Lower(c, m), folded).segments;
      var all := [seg] + rest;
      assert Peel(c, folded).segments == all;
      forall k, t | 0 <= k < |all| && 0 <= t < |all[k].participants| ensures all[k].participants[t] < |c| {
        if k > 0 {
          assert all[k] == rest[k - 1];
        }
      }
    }
  }

  /** The minimum loop over the contributors (`m = min(m, contrib[i])`). */
  method MinContribution(c: seq<nat>, e: seq<nat>) returns (m: nat)
    requires |e| > 0 && forall k :: 0 <= k < |e| ==> e[k] < |c|
    ensures m == MinOf(c, e)
  {
    m := c[e[0]];
    var k := 1;
    assert e[..1] == [e[0]];
    while k < |e|
      invariant 1 <= k <= |e|
      invariant m == MinOf(c, e[..k])
    {
      assert e[..k + 1][..k] == e[..k];
      var x := c[e[k]];
      if x < m {
        m := x;
      }
      k := k + 1;
    }
    assert e[..k] == e;
  }

  /** The loop taking m from every contributor's remaining contribution. */
  method LowerContributions(c: seq<nat>, e: seq<nat>, m: nat) returns (r: seq<nat>)
    requires e == Contributors(c)
    requires forall i :: 0 <= i < |c| && c[i] > 0 ==> c[i] >= m
    ensures r == Lower(c, m)
  {
    ContributorsMeaning(c);
    r := c;
    var k := 0;
    while k < |e|
      invariant 0 <= k <= |e| && |r| == |c|
      invariant forall i :: 0 <= i < |c| ==> r[i] == if i in e[..k] then c[i] - m else c[i]
    {
      var i := e[k];
      assert i !in e[..k];
      assert e[..k + 1] == e[..k] + [i];
      r := r[i := r[i] - m];
      k := k + 1;
    }
    assert e[..k] == e;
    forall i | 0 <= i < |c| ensures r[i] == Lower(c, m)[i] {
      LowerAt(c, m, i);
    }
  }


  /** With no contributor left there is nothing to peel. */
  lemma EmptyStep(c: seq<nat>, folded: seq<bool>)
    requires |folded| == |c| && |Contributors(c)| == 0
    ensures Peel(c, folded) == Layering([], None)
  {
  }

  /** With one contributor left, its chips are the remainder and zeroing them leaves nobody. */
  lemma LoneStep(c: seq<nat>, folded: seq<bool>)
    requires |folded| == |c| && |Contributors(c)| == 1
    ensures Peel(c, folded) == Layering([], Some(Lone(Contributors(c)[0], c[Contributors(c)[0]])))
    ensures Contributors(c[Contributors(c)[0] := 0]) == []
    ensures Peel(c[Contributors(c)[0] := 0], folded) == Layering([], None)
    ensures Sum(c[Contributors(c)[0] := 0]) < Sum(c)
  {
    var i := Contributors(c)[0];
    var z := c[i := 0];
    assert c[i] > 0 by {
      ContributorsPositive(c);
    }
    assert Contributors(z) == [] by {
      ContributorsIncreasing(c);
      ContributorsComplete(c);
      ContributorsPositive(z);
    }
    SumUpdate(c, i, 0);
    EmptyStep(z, folded);
  }


  /** With two or more contributors, one layer comes off the top and the rest is peeled from what remains. */
  lemma LayerStep(c: seq<nat>, folded: seq<bool>, e: seq<nat>, m: nat, amount: int)
    requires |folded| == |c| && e == Contributors(c) && |e| >= 2 && m == MinOf(c, e) && amount == m * |e|
    ensures amount >= 2
    ensures forall i :: 0 <= i < |c| && c[i] > 0 ==> c[i] >= m
    ensures Sum(Lower(c, m)) + amount == Sum(c)
    ensures Peel(c, folded) ==
      Layering([Segment(amount, NonFolded(e, folded))] + Peel(Lower(c, m), folded).segments, Peel(Lower(c, m), folded).lone)
  {
    LayerFacts(c);
  }

  /**
   * The layer-peeling loop of the showdown over a copy of the contributions:
   * it stops once nobody has chips left in the pot, records a single
   * remaining contributor's chips as the uncalled remainder, and otherwise
   * peels one layer.
   */
  method PeelLayers(c0: seq<nat>, folded: seq<bool>) returns (segments: seq<Segment>, lone: Option<Lone>)
    requires |folded| == |c0|
    ensures Layering(segments, lone) == Peel(c0, folded)
  {
    var c := c0;
    segments := [];
    lone := None;
    while true
      invariant |c| == |c0|
      invariant Peel(c0, folded).segments == segments + Peel(c, folded).segments
      invariant Peel(c0, folded).lone == if lone.Some? then lone else Peel(c, folded).lone
      invariant lone.Some? ==> Contributors(c) == []
      decreases Sum(c)
    {
      var everyone := Contributors(c);
      if |everyone| == 0 {
        EmptyStep(c, folded);
        break;
      }
      if |everyone| == 1 {
        var i := everyone[0];
        LoneStep(c, folded);
        lone := Some(Lone(i, c[i]));
        c := c[i := 0];
        continue;
      }
      var m := MinContribution(c, everyone);
      var amount := m * |everyone|;
      LayerStep(c, folded, everyone, m, amount);
      var seg := Segment(amount, NonFolded(everyone, folded));
      assert segments + Peel(c, folded).segments == (segments + [seg]) + Peel(Lower(c, m), folded).segments by {
        ConcatAssoc(segments, [seg], Peel(Lower(c, m), folded).segments);
      }
      segments := segments + [seg];
      c := LowerContributions(c, everyone, m);
    }
  }

  lemma ConcatAssoc(a: seq<Segment>, b: seq<Segment>, d: seq<Segment>)
    ensures a + (b + d) == (a + b) + d
  {
  }

  /** Total chips of a list of layers. */
  function SumAmounts(segs: seq<Segment>): nat
  {
    if segs == [] then 0 else SumAmounts(segs[..|segs| - 1]) + segs[|segs| - 1].amount
  }

  lemma {:induction false} SumAmountsConcat(a: seq<Segment>, b: seq<Segment>)
    ensures SumAmounts(a + b) == SumAmounts(a) + SumAmounts(b)
    decreases |b|
  {
    if b == [] {
      assert a + b == a;
    } else {
      SumAmountsConcat(a, b[..|b| - 1]);
      var ab := a + b;
      assert ab[..|ab| - 1] == a + b[..|b| - 1];
      assert ab[|ab| - 1] == b[|b| - 1];
    }
  }

  function LoneAmount(l: Option<Lone>): nat
  {
    if l.Some? then l.value.amount else 0
  }

  /** Peeling loses nothing: the layers and the uncalled remainder add up to every contribution. */
  lemma {:induction false} PeelConserves(c: seq<nat>, folded: seq<bool>)
    requires |folded| == |c|
    ensures SumAmounts(Peel(c, folded).segments) + LoneAmount(Peel(c, folded).lone) == Sum(c)
    decreases Sum(c)
  {
    var e := Contributors(c);
    if |e| == 0 {
      ContributorsMeaning(c);
      ZeroSum(c);
    } else if |e| == 1 {
      LoneSum(c);
    } else {
      LayerFacts(c);
      var m := MinOf(c, e);
      var seg := Segment(m * |e|, NonFolded(e, folded));
      var rest := Peel(Lower(c, m), folded);
      assert Peel(c, folded) == Layering([seg] + rest.segments, rest.lone);
      PeelConserves(Lower(c, m), folded);
      SumAmountsConcat([seg], rest.segments);
      assert SumAmounts([seg]) == m * |e| by {
        assert [seg][..0] == [];
      }
    }
  }

  /** A single contributor holds every contributed chip. */
  lemma LoneSum(c: seq<nat>)
    requires |Contributors(c)| == 1
    ensures Sum(c) == c[Contributors(c)[0]]
  {
    var e := Contributors(c);
    var m := c[e[0]];
    ContributorsMeaning(c);
    MinBelowAll(c, e);
    SumLower(c, m);
    forall i | 0 <= i < |c| ensures Lower(c, m)[i] == 0 {
      LowerAt(c, m, i);
      if c[i] > 0 {
        var k :| 0 <= k < |e| && e[k] == i;
      }
    }
    ZeroSum(Lower(c, m));
  }

  // ---------------------------------------------------------------------------
  // Merging adjacent layers

  /** Coalesce adjacent layers with the same contenders, adding their chips. */
  function Merge(segs: seq<Segment>): (r: seq<Segment>)
    decreases |segs|
  {
    if segs == [] then []
    else Absorb(Merge(segs[..|segs| - 1]), segs[|segs| - 1])
  }

  /** One merge step: s joins the last layer when the contenders agree, else it is appended. */
  function Absorb(r: seq<Segment>, s: Segment): (r': seq<Segment>)
  {
    if |r| > 0 && r[|r| - 1].participants == s.participants
    then r[..|r| - 1] + [Segment(r[|r| - 1].amount + s.amount, s.participants)]
    else r + [s]
  }

  /** Merging never lengthens the list, and the last layer keeps the last contenders. */
  lemma {:induction false} MergeShape(segs: seq<Segment>)
    ensures |Merge(segs)| <= |segs|
    ensures segs != [] ==> Merge(segs) != [] && Merge(segs)[|Merge(segs)| - 1].participants == segs[|segs| - 1].participants
    decreases |segs|
  {
    if segs != [] {
      MergeShape(segs[..|segs| - 1]);
    }
  }

  /** Chips of the layers that somebody can win. */
  function Claimed(segs: seq<Segment>): nat
  {
    if segs == [] then 0
    else Claimed(segs[..|segs| - 1]) + (if segs[|segs| - 1].participants != [] then segs[|segs| - 1].amount else 0)
  }

  /** Chips of the layers whose contributors have all folded. */
  function Unclaimed(segs: seq<Segment>): nat
  {
    if segs == [] then 0
    else Unclaimed(segs[..|segs| - 1]) + (if segs[|segs| - 1].participants == [] then segs[|segs| - 1].amount else 0)
  }

  lemma {:induction false} ClaimedSplit(segs: seq<Segment>)
    ensures Claimed(segs) + Unclaimed(segs) == SumAmounts(segs)
    decreases |segs|
  {
    if segs != [] {
      ClaimedSplit(segs[..|segs| - 1]);
    }
  }

  /** Merging moves no chips between claimed and unclaimed layers. */
  lemma {:induction false} MergeKeepsClaims(segs: seq<Segment>)
    ensures Claimed(Merge(segs)) == Claimed(segs)
    ensures Unclaimed(Merge(segs)) == Unclaimed(segs)
    decreases |segs|
  {
    if segs != [] {
      MergeKeepsClaims(segs[..|segs| - 1]);
      AbsorbClaims(Merge(segs[..|segs| - 1]), segs[|segs| - 1]);
    }
  }

  /** One merge step adds the new layer's chips to the claimed or the unclaimed side. */
  lemma AbsorbClaims(r: seq<Segment>, s: Segment)
    ensures Claimed(Absorb(r, s)) == Claimed(r) + (if s.participants != [] then s.amount else 0)
    ensures Unclaimed(Absorb(r, s)) == Unclaimed(r) + (if s.participants == [] then s.amount else 0)
  {
    if |r| > 0 && r[|r| - 1].participants == s.participants {
      var q := r[..|r| - 1];
      assert r == q + [r[|r| - 1]];
      ClaimedSnoc(q, r[|r| - 1]);
      ClaimedSnoc(q, Segment(r[|r| - 1].amount + s.amount, s.participants));
    } else {
      ClaimedSnoc(r, s);
    }
  }

  lemma ClaimedSnoc(q: seq<Segment>, x: Segment)
    ensures Claimed(q + [x]) == Claimed(q) + (if x.participants != [] then x.amount else 0)
    ensures Unclaimed(q + [x]) == Unclaimed(q) + (if x.participants == [] then x.amount else 0)
  {
    assert (q + [x])[..|q|] == q;
  }

  /** Merging neither creates nor loses chips. */
  lemma MergeConserves(segs: seq<Segment>)
    ensures SumAmounts(Merge(segs)) == SumAmounts(segs)
  {
    MergeKeepsClaims(segs);
    ClaimedSplit(segs);
    ClaimedSplit(Merge(segs));
  }

  /** No two adjacent merged layers share their contenders. */
  lemma {:induction false} MergeSeparates(segs: seq<Segment>)
    ensures forall k :: 0 <= k < |Merge(segs)| - 1 ==>
      Merge(segs)[k].participants != Merge(segs)[k + 1].participants
    decreases |segs|
  {
    if segs != [] {
      var p := segs[..|segs| - 1];
      MergeSeparates(p);
      var r := Merge(p);
      var s := segs[|segs| - 1];
      var out := Merge(segs);
      forall k | 0 <= k < |out| - 1 ensures out[k].participants != out[k + 1].participants {
        if |r| > 0 && r[|r| - 1].participants == s.participants {
          assert out == r[..|r| - 1] + [Segment(r[|r| - 1].amount + s.amount, s.participants)];
          assert out[k] == r[k];
          if k + 1 < |r| - 1 {
            assert out[k + 1] == r[k + 1];
          } else {
            assert out[k + 1].participants == r[k + 1].participants;
          }
        } else {
          assert out == r + [s];
          assert out[k] == r[k];
          if k + 1 < |r| {
            assert out[k + 1] == r[k + 1];
          }
        }
      }
    }
  }

  /** Every merged layer's contenders are those of some original layer. */
  lemma {:induction false} MergeParticipants(segs: seq<Segment>)
    ensures forall k :: 0 <= k < |Merge(segs)| ==>
      exists j :: 0 <= j < |segs| && segs[j].participants == Merge(segs)[k].participants
    decreases |segs|
  {
    if segs != [] {
      var p := segs[..|segs| - 1];
      MergeParticipants(p);
      var r := Merge(p);
      var s := segs[|segs| - 1];
      var out := Merge(segs);
      forall k | 0 <= k < |out|
        ensures exists j :: 0 <= j < |segs| && segs[j].participants == out[k].participants
      {
        if k == |out| - 1 {
          assert segs[|segs| - 1].participants == out[k].participants;
        } else {
          if |r| > 0 && r[|r| - 1].participants == s.participants {
            assert out == r[..|r| - 1] + [Segment(r[|r| - 1].amount + s.amount, s.participants)];
          } else {
            assert out == r + [s];
          }
          assert out[k] == r[k];
          var j :| 0 <= j < |p| && p[j].participants == r[k].participants;
          assert segs[j] == p[j];
        }
      }
    } else {
      assert |Merge(segs)| == 0;
    }
  }

  lemma MergeSeats(segs: seq<Segment>, n: nat)
    requires SeatsBelow(segs, n)
    ensures SeatsBelow(Merge(segs), n)
  {
    MergeParticipants(segs);
    var r := Merge(segs);
    forall k, t | 0 <= k < |r| && 0 <= t < |r[k].participants| ensures r[k].participants[t] < n {
      var j :| 0 <= j < |segs| && segs[j].participants == r[k].participants;
      assert segs[j].participants[t] < n;
    }
  }

  /** The merge loop: fold each layer into the last merged one when the contenders agree. */
  method MergeSegments(segs: seq<Segment>) returns (merged: seq<Segment>)
    ensures merged == Merge(segs)
  {
    merged := [];
    var k := 0;
    while k < |segs|
      invariant 0 <= k <= |segs|
      invariant merged == Merge(segs[..k])
    {
      var seg := segs[k];
      ghost var prev := merged;
      if |merged| > 0 && merged[|merged| - 1].participants == seg.participants {
        var last := merged[|merged| - 1];
        merged := merged[..|merged| - 1] + [Segment(last.amount + seg.amount, seg.participants)];
      } else {
        merged := merged + [Segment(seg.amount, seg.participants)];
      }
      assert merged == Absorb(prev, seg);
      assert Merge(segs[..k + 1]) == Absorb(prev, seg) by {
        assert segs[..k + 1][..k] == segs[..k];
      }
      assert merged == Merge(segs[..k + 1]);
      k := k + 1;
    }
    assert segs[..k] == segs;
  }

  // ---------------------------------------------------------------------------
  // Winners of a layer

  /** The winner search state: the best score so far and the seats holding it. */
  datatype Lead = Lead(best: Option<Score>, seats: seq<nat>)

  /** The winner search over the contenders: a better score restarts the list, a tie joins it. */
  function WinnersFold(cs: seq<nat>, scores: seq<Score>): (r: Lead)
    requires forall k :: 0 <= k < |cs| ==> cs[k] < |scores|
    ensures |cs| > 0 <==> r.best.Some?
    ensures |cs| > 0 ==> |r.seats| > 0
    ensures forall t :: 0 <= t < |r.seats| ==> r.seats[t] in cs
    decreases |cs|
  {
    if cs == [] then Lead(None, [])
    else
      var l := WinnersFold(cs[..|cs| - 1], scores);
      var i := cs[|cs| - 1];
      var s := scores[i];
      if l.best.None? then Lead(Some(s), [i])
      else
        var c := CompareScores(s, l.best.value);
        if c > 0 then Lead(Some(s), [i])
        else if c == 0 then Lead(l.best, l.seats + [i])
        else l
  }

  /** The contenders whose score ties with b, in order. */
  function TiedWith(cs: seq<nat>, scores: seq<Score>, b: Score): (r: seq<nat>)
    requires forall k :: 0 <= k < |cs| ==> cs[k] < |scores|
    decreases |cs|
  {
    if cs == [] then []
    else
      TiedWith(cs[..|cs| - 1], scores, b)
        + (if CompareScores(scores[cs[|cs| - 1]], b) == 0 then [cs[|cs| - 1]] else [])
  }

  lemma {:induction false} NoneTied(cs: seq<nat>, scores: seq<Score>, b: Score)
    requires forall k :: 0 <= k < |cs| ==> cs[k] < |scores| && CompareScores(scores[cs[k]], b) < 0
    ensures TiedWith(cs, scores, b) == []
    decreases |cs|
  {
    if cs != [] {
      NoneTied(cs[..|cs| - 1], scores, b);
    }
  }

  /**
   * The winner search finds the best score among the contenders, attained by
   * one of them, and returns exactly the contenders that tie with it, in
   * their order.
   */
  lemma {:induction false} WinnersMeaning(cs: seq<nat>, scores: seq<Score>)
    requires |cs| > 0 && forall k :: 0 <= k < |cs| ==> cs[k] < |scores|
    ensures exists k :: 0 <= k < |cs| && scores[cs[k]] == WinnersFold(cs, scores).best.value
    ensures forall k :: 0 <= k < |cs| ==> CompareScores(scores[cs[k]], WinnersFold(cs, scores).best.value) <= 0
    ensures WinnersFold(cs, scores).seats == TiedWith(cs, scores, WinnersFold(cs, scores).best.value)
    decreases |cs|
  {
    var p := cs[..|cs| - 1];
    var i := cs[|cs| - 1];
    var s := scores[i];
    CompareReflexive(s);
    if p == [] {
      assert TiedWith(p, scores, s) == [];
    } else {
      WinnersMeaning(p, scores);
      var b := WinnersFold(p, scores).best.value;
      var c := CompareScores(s, b);
      if c > 0 {
        forall k | 0 <= k < |p| ensures CompareScores(scores[p[k]], s) < 0 {
          CompareAntisymmetric(b, scores[p[k]]);
          CompareTransitive(s, b, scores[p[k]]);
          CompareAntisymmetric(s, scores[p[k]]);
        }
        NoneTied(p, scores, s);
        forall k | 0 <= k < |cs| ensures CompareScores(scores[cs[k]], s) <= 0 {
          if k < |p| {
            assert cs[k] == p[k];
          }
        }
      } else {
        forall k | 0 <= k < |cs| ensures CompareScores(scores[cs[k]], b) <= 0 {
          if k < |p| {
            assert cs[k] == p[k];
          }
        }
        var k0 :| 0 <= k0 < |p| && scores[p[k0]] == b;
        assert cs[k0] == p[k0];
      }
    }
  }

  /** The winner loop of one layer. */
  method FindWinners(cs: seq<nat>, scores: seq<Score>) returns (winners: seq<nat>)
    requires forall k :: 0 <= k < |cs| ==> cs[k] < |scores|
    ensures winners == WinnersFold(cs, scores).seats
  {
    var bestScore: Option<Score> := None;
    winners := [];
    var k := 0;
    while k < |cs|
      invariant 0 <= k <= |cs|
      invariant Lead(bestScore, winners) == WinnersFold(cs[..k], scores)
    {
      assert cs[..k + 1][..k] == cs[..k];
      var i := cs[k];
      var s := scores[i];
      if bestScore.None? {
        bestScore := Some(s);
        winners := [i];
      } else {
        var c := Compare(s, bestScore.value);
        if c > 0 {
          bestScore := Some(s);
          winners := [i];
        } else if c == 0 {
          winners := winners + [i];
        }
      }
      k := k + 1;
    }
    assert cs[..k] == cs;
  }

  // ---------------------------------------------------------------------------
  // Splitting a layer

  /** The chips of the j-th of k winners: the floor share plus one while the remainder lasts. */
  function Share(amount: nat, k: nat, j: nat): nat
    requires k > 0
  {
    amount / k + (if j < amount % k then 1 else 0)
  }

  /** The chips paid to the first j of k winners. */
  function SharesUpTo(amount: nat, k: nat, j: nat): nat
    requires k > 0
  {
    if j == 0 then 0 else SharesUpTo(amount, k, j - 1) + Share(amount, k, j - 1)
  }

  lemma {:induction false} SharesUpToClosed(amount: nat, k: nat, j: nat)
    requires k > 0
    ensures SharesUpTo(amount, k, j) == j * (amount / k) + (if j < amount % k then j else amount % k)
  {
    if j > 0 {
      SharesUpToClosed(amount, k, j - 1);
      assert j * (amount / k) == (j - 1) * (amount / k) + amount / k;
    }
  }

  /** A layer is paid out exactly: the k shares add up to its amount. */
  lemma SharesExact(amount: nat, k: nat)
    requires k > 0
    ensures SharesUpTo(amount, k, k) == amount
  {
    SharesUpToClosed(amount, k, k);
  }

  /** Shares never increase along the winners and differ by at most one chip. */
  lemma SharesFair(amount: nat, k: nat, j1: nat, j2: nat)
    requires k > 0 && j1 <= j2 < k
    ensures Share(amount, k, j2) <= Share(amount, k, j1) <= Share(amount, k, j2) + 1
    ensures Share(amount, k, j1) == amount / k || Share(amount, k, j1) == amount / k + 1
  {
  }

  /** Stacks after the first |ws| of k winners have received their shares of amount. */
  function Credit(st: seq<nat>, ws: seq<nat>, amount: nat, k: nat): (r: seq<nat>)
    requires 0 < k && |ws| <= k && forall t :: 0 <= t < |ws| ==> ws[t] < |st|
    ensures |r| == |st|
    decreases |ws|
  {
    if ws == [] then st
    else
      var prev := Credit(st, ws[..|ws| - 1], amount, k);
      var w := ws[|ws| - 1];
      prev[w := prev[w] + Share(amount, k, |ws| - 1)]
  }

  /** Paying the t-th winner extends the credits to one more seat. */
  lemma CreditStep(st: seq<nat>, ws: seq<nat>, amount: nat, k: nat, t: nat)
    requires 0 < k && |ws| <= k && forall j :: 0 <= j < |ws| ==> ws[j] < |st|
    requires t < |ws|
    ensures Credit(st, ws[..t + 1], amount, k) ==
      Credit(st, ws[..t], amount, k)[ws[t] := Credit(st, ws[..t], amount, k)[ws[t]] + Share(amount, k, t)]
  {
    assert ws[..t + 1][..t] == ws[..t];
  }

  lemma {:induction false} CreditSum(st: seq<nat>, ws: seq<nat>, amount: nat, k: nat)
    requires 0 < k && |ws| <= k && forall t :: 0 <= t < |ws| ==> ws[t] < |st|
    ensures Sum(Credit(st, ws, amount, k)) == Sum(st) + SharesUpTo(amount, k, |ws|)
    decreases |ws|
  {
    if ws != [] {
      var prev := Credit(st, ws[..|ws| - 1], amount, k);
      var w := ws[|ws| - 1];
      CreditSum(st, ws[..|ws| - 1], amount, k);
      SumUpdate(prev, w, prev[w] + Share(amount, k, |ws| - 1));
    }
  }

  /** Stacks after every claimed layer has been split among its winners. */
  function Award(st: seq<nat>, segs: seq<Segment>, scores: seq<Score>): (r: seq<nat>)
    requires |scores| == |st| && SeatsBelow(segs, |st|)
    ensures |r| == |st|
    decreases |segs|
  {
    if segs == [] then st
    else
      var prev := Award(st, segs[..|segs| - 1], scores);
      var seg := segs[|segs| - 1];
      if seg.participants == [] then prev
      else
        var ws := WinnersFold(seg.participants, scores).seats;
        Credit(prev, ws, seg.amount, |ws|)
  }

  /** Awarding pays out exactly the claimed chips. */
  lemma {:induction false} AwardSum(st: seq<nat>, segs: seq<Segment>, scores: seq<Score>)
    requires |scores| == |st| && SeatsBelow(segs, |st|)
    ensures Sum(Award(st, segs, scores)) == Sum(st) + Claimed(segs)
    decreases |segs|
  {
    if segs != [] {
      var p := segs[..|segs| - 1];
      AwardSum(st, p, scores);
      var seg := segs[|segs| - 1];
      if seg.participants != [] {
        var ws := WinnersFold(seg.participants, scores).seats;
        CreditSum(Award(st, p, scores), ws, seg.amount, |ws|);
        SharesExact(seg.amount, |ws|);
      }
    }
  }

  // ---------------------------------------------------------------------------
  // The whole settlement

  /** The uncalled remainder goes back to its seat unless that seat folded. */
  function Refund(st: seq<nat>, lone: Option<Lone>, folded: seq<bool>): (r: seq<nat>)
    requires |folded| == |st| && (lone.Some? ==> lone.value.seat < |st|)
    ensures |r| == |st|
  {
    if lone.Some? && !folded[lone.value.seat]
    then st[lone.value.seat := st[lone.value.seat] + lone.value.amount]
    else st
  }

  /** The refund adds the uncalled remainder to the stacks unless its seat folded. */
  lemma RefundSum(st: seq<nat>, lone: Option<Lone>, folded: seq<bool>)
    requires |folded| == |st| && (lone.Some? ==> lone.value.seat < |st|)
    ensures Sum(Refund(st, lone, folded)) + (if lone.Some? && folded[lone.value.seat] then lone.value.amount else 0)
      == Sum(st) + LoneAmount(lone)
  {
    if lone.Some? && !folded[lone.value.seat] {
      SumUpdate(st, lone.value.seat, st[lone.value.seat] + lone.value.amount);
    }
  }

  /** The stacks after a showdown's settlement of contributions c. */
  function Settle(st: seq<nat>, c: seq<nat>, folded: seq<bool>, scores: seq<Score>): seq<nat>
    requires |c| == |st| && |folded| == |st| && |scores| == |st|
  {
    var layers := Peel(c, folded);
    PeelSeats(c, folded);
    MergeSeats(layers.segments, |st|);
    Award(Refund(st, layers.lone, folded), Merge(layers.segments), scores)
  }

  /**
   * Contributed chips that no seat receives: a folded seat's uncalled
   * remainder and the layers every contributor of which has folded.
   */
  function Unpaid(c: seq<nat>, folded: seq<bool>): nat
    requires |folded| == |c|
  {
    var layers := Peel(c, folded);
    PeelSeats(c, folded);
    (if layers.lone.Some? && folded[layers.lone.value.seat] then layers.lone.value.amount else 0)
      + Unclaimed(layers.segments)
  }

  /** Settlement hands out every contributed chip except the unpaid ones. */
  lemma SettleConserves(st: seq<nat>, c: seq<nat>, folded: seq<bool>, scores: seq<Score>)
    requires |c| == |st| && |folded| == |st| && |scores| == |st|
    ensures Sum(Settle(st, c, folded, scores)) + Unpaid(c, folded) == Sum(st) + Sum(c)
  {
    var layers := Peel(c, folded);
    PeelSeats(c, folded);
    MergeSeats(layers.segments, |st|);
    var merged := Merge(layers.segments);
    var refunded := Refund(st, layers.lone, folded);
    var lost: nat := if layers.lone.Some? && folded[layers.lone.value.seat] then layers.lone.value.amount else 0;
    RefundSum(st, layers.lone, folded);
    assert Settle(st, c, folded, scores) == Award(refunded, merged, scores);
    assert |refunded| == |st|;
    assert SeatsBelow(merged, |refunded|);
    AwardSum(refunded, merged, scores);
    MergeKeepsClaims(layers.segments);
    ClaimedSplit(layers.segments);
    PeelConserves(c, folded);
    assert Unpaid(c, folded) == lost + Unclaimed(layers.segments);
  }

  /** With nobody folded every layer has contenders. */
  lemma {:induction false} NoFoldsAllClaimed(c: seq<nat>, folded: seq<bool>)
    requires |folded| == |c| && forall i :: 0 <= i < |c| ==> !folded[i]
    ensures Unclaimed(Peel(c, folded).segments) == 0
    decreases Sum(c)
  {
    var e := Contributors(c);
    if |e| >= 2 {
      LayerFacts(c);
      var m := MinOf(c, e);
      NoFoldsAllClaimed(Lower(c, m), folded);
      NonFoldedAll(e, folded);
      var seg := Segment(m * |e|, NonFolded(e, folded));
      var rest := Peel(Lower(c, m), folded);
      assert Peel(c, folded) == Layering([seg] + rest.segments, rest.lone);
      UnclaimedConcat([seg], rest.segments);
      assert Unclaimed([seg]) == 0 by {
        assert [seg][..0] == [];
      }
    }
  }

  lemma {:induction false} UnclaimedConcat(a: seq<Segment>, b: seq<Segment>)
    ensures Unclaimed(a + b) == Unclaimed(a) + Unclaimed(b)
    decreases |b|
  {
    if b == [] {
      assert a + b == a;
    } else {
      UnclaimedConcat(a, b[..|b| - 1]);
      var ab := a + b;
      assert ab[..|ab| - 1] == a + b[..|b| - 1];
      assert ab[|ab| - 1] == b[|b| - 1];
    }
  }

  /** With nobody folded a showdown pays out every contributed chip. */
  lemma NoFoldsNothingUnpaid(c: seq<nat>, folded: seq<bool>)
    requires |folded| == |c| && forall i :: 0 <= i < |c| ==> !folded[i]
    ensures Unpaid(c, folded) == 0
  {
    NoFoldsAllClaimed(c, folded);
    PeelSeats(c, folded);
    var layers := Peel(c, folded);
    assert Unclaimed(layers.segments) == 0;
    if layers.lone.Some? {
      assert !folded[layers.lone.value.seat];
    }
  }
}
