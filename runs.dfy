/**
 * Runs of consecutive ranks, the specification side of straight and
 * open-ended-draw detection. An ace also plays as 1, so A-2-3-4-5 is a run
 * ending at 5, but nothing continues above the ace.
 */
module Runs {
  import opened Types
  import opened Sequences

  function RankSet(s: seq<int>): set<int>
  {
    set x | x in s
  }

  /** The ranks present, with 1 added when an ace is present. */
  function WheelSet(s: seq<int>): set<int>
  {
    RankSet(s) + (if 14 in s then {1} else {})
  }

  /** Ranks in 2..14 give wheel-set values in 1..14. */
  lemma WheelSetRange(s: seq<int>)
    requires forall k :: 0 <= k < |s| ==> 2 <= s[k] <= 14
    ensures forall v :: v in WheelSet(s) ==> 1 <= v <= 14
  {
    forall v | v in WheelSet(s) ensures 1 <= v <= 14 {
      if v != 1 {
        assert v in s;
      }
    }
  }

  /** Every value from h - len + 1 up to h is present. */
  predicate RunAt(S: set<int>, h: int, len: nat)
  {
    forall v :: h - len < v <= h ==> v in S
  }

  /** The highest h in 1..top that ends a run of length len, scanning down from top. */
  function HighestRun(S: set<int>, len: nat, top: int): (r: Option<int>)
    ensures r.Some? ==> 1 <= r.value <= top && RunAt(S, r.value, len)
    decreases top
  {
    if top < 1 then None
    else if RunAt(S, top, len) then Some(top)
    else HighestRun(S, len, top - 1)
  }

  lemma {:induction false} HighestRunIsHighest(S: set<int>, len: nat, top: int, h: int)
    requires 1 <= h <= top && RunAt(S, h, len)
    ensures HighestRun(S, len, top).Some? && HighestRun(S, len, top).value >= h
    decreases top
  {
    if top > h && !RunAt(S, top, len) {
      HighestRunIsHighest(S, len, top - 1, h);
    }
  }

  /** HighestRun finds a run exactly when one ends somewhere in 1..top, and then it finds the highest. */
  lemma HighestRunMeaning(S: set<int>, len: nat, top: int)
    ensures HighestRun(S, len, top).None? <==> forall h :: 1 <= h <= top ==> !RunAt(S, h, len)
    ensures HighestRun(S, len, top).Some? ==>
      forall h :: HighestRun(S, len, top).value < h <= top ==> !RunAt(S, h, len)
  {
    forall h | 1 <= h <= top && RunAt(S, h, len)
      ensures HighestRun(S, len, top).Some? && HighestRun(S, len, top).value >= h
    {
      HighestRunIsHighest(S, len, top, h);
    }
  }

  /** uniq.push(1) when the first (highest) rank is an ace. */
  function WithWheelAce(u: seq<int>): (w: seq<int>)
    ensures |w| >= |u| && w[..|u|] == u
  {
    if |u| > 0 && u[0] == 14 then u + [1] else u
  }

  /** Positions j .. j + len - 1 of w hold len consecutive values (w strictly decreasing). */
  predicate Window(w: seq<int>, j: int, len: nat)
  {
    0 <= j && j + len <= |w| && len >= 1 && w[j] - w[j + len - 1] == len - 1
  }

  /** The chain w[s..e] steps down by exactly one and cannot be extended to the left. */
  predicate MaximalChain(w: seq<int>, s: int, e: int)
  {
    0 <= s <= e < |w| && w[s] == w[e] + (e - s) && (s == 0 || w[s - 1] != w[s] + 1)
  }

  lemma {:induction false} StrictGap(w: seq<int>)
    requires StrictlyDecreasing(w)
    ensures forall a, b :: 0 <= a <= b < |w| ==> w[a] - w[b] >= b - a
    decreases |w|
  {
    if |w| > 1 {
      var p := w[..|w| - 1];
      StrictGap(p);
      forall a, b | 0 <= a <= b < |w| ensures w[a] - w[b] >= b - a {
        if b == |w| - 1 && a < b {
          assert p[a] - p[b - 1] >= b - 1 - a;
        } else if b < |w| - 1 {
          assert p[a] - p[b] >= b - a;
        }
      }
    }
  }

  /** A window of a strictly decreasing sequence steps down by one at each position. */
  lemma WindowSteps(w: seq<int>, j: int, len: nat)
    requires StrictlyDecreasing(w) && Window(w, j, len)
    ensures forall k :: j <= k < j + len ==> w[k] == w[j] - (k - j)
  {
    StrictGap(w);
    forall k | j <= k < j + len ensures w[k] == w[j] - (k - j) {
      assert w[j] - w[k] >= k - j;
      assert w[k] - w[j + len - 1] >= j + len - 1 - k;
    }
  }

  /** A window's values form a run ending at its first value. */
  lemma WindowIsRun(w: seq<int>, j: int, len: nat)
    requires StrictlyDecreasing(w) && Window(w, j, len)
    ensures RunAt(RankSet(w), w[j], len)
  {
    WindowSteps(w, j, len);
    forall v | w[j] - len < v <= w[j] ensures v in RankSet(w) {
      var k := j + (w[j] - v);
      assert w[k] == w[j] - (k - j);
    }
  }

  lemma {:induction false} RunStepsFrom(w: seq<int>, j: int, h: int, len: nat, t: nat)
    requires StrictlyDecreasing(w) && 0 <= j < |w| && w[j] == h
    requires RunAt(RankSet(w), h, len) && t < len
    ensures j + t < |w| && w[j + t] == h - t
  {
    if t > 0 {
      RunStepsFrom(w, j, h, len, t - 1);
      var v := h - t;
      assert v in RankSet(w);
      var q :| 0 <= q < |w| && w[q] == v;
      assert q >= j + t;
    }
  }

  /** A run present in a strictly decreasing sequence occupies a window starting at its top. */
  lemma RunHasWindow(w: seq<int>, h: int, len: nat) returns (j: int)
    requires StrictlyDecreasing(w) && len >= 1 && RunAt(RankSet(w), h, len)
    ensures 0 <= j < |w| && w[j] == h && Window(w, j, len)
  {
    assert h in RankSet(w);
    j :| 0 <= j < |w| && w[j] == h;
    RunStepsFrom(w, j, h, len, len - 1);
  }

  /** The first window of w marks the highest run. */
  lemma FirstWindowIsHighest(w: seq<int>, j: int, len: nat, top: int)
    requires StrictlyDecreasing(w) && Window(w, j, len)
    requires forall k :: 0 <= k < |w| ==> 1 <= w[k] <= top
    requires forall k :: 0 <= k < j ==> !Window(w, k, len)
    ensures HighestRun(RankSet(w), len, top) == Some(w[j])
  {
    var S := RankSet(w);
    WindowIsRun(w, j, len);
    HighestRunMeaning(S, len, top);
    HighestRunIsHighest(S, len, top, w[j]);
    var h := HighestRun(S, len, top).value;
    if h > w[j] {
      var k := RunHasWindow(w, h, len);
    }
  }

  /** Without a window there is no run. */
  lemma NoWindowNoRun(w: seq<int>, len: nat, top: int)
    requires StrictlyDecreasing(w) && len >= 1
    requires forall k :: 0 <= k < |w| ==> !Window(w, k, len)
    ensures HighestRun(RankSet(w), len, top) == None
  {
    var S := RankSet(w);
    if HighestRun(S, len, top).Some? {
      var k := RunHasWindow(w, HighestRun(S, len, top).value, len);
    }
  }

  /** No window of length len ends at e when the maximal chain ending at e is shorter than len. */
  lemma NoWindowEndingAt(w: seq<int>, s: int, e: int, len: nat)
    requires StrictlyDecreasing(w) && MaximalChain(w, s, e) && e - s + 1 < len
    ensures !Window(w, e - len + 1, len)
  {
    var j := e - len + 1;
    if j >= 0 {
      StrictGap(w);
      assert w[j] - w[s - 1] >= s - 1 - j;
      assert w[s - 1] > w[s] + 1;
    }
  }

  /**
   * The sequence the straight scan walks: distinct ranks from high to low with a
   * trailing 1 when an ace leads. It is strictly decreasing, stays in 1..14,
   * and holds exactly the wheel set of the ranks.
   */
  lemma ScanSequence(ranks: seq<int>, u: seq<int>)
    requires forall k :: 0 <= k < |ranks| ==> 2 <= ranks[k] <= 14
    requires StrictlyDecreasing(u) && forall x :: x in u <==> x in ranks
    requires ranks != [] ==> u != [] && u[0] == ranks[0]
    requires NonIncreasing(ranks)
    ensures StrictlyDecreasing(WithWheelAce(u))
    ensures forall k :: 0 <= k < |WithWheelAce(u)| ==> 1 <= WithWheelAce(u)[k] <= 14
    ensures RankSet(WithWheelAce(u)) == WheelSet(ranks)
  {
    var w := WithWheelAce(u);
    forall k | 0 <= k < |u| ensures 2 <= u[k] <= 14 {
      assert u[k] in ranks;
    }
    if 14 in ranks {
      var k :| 0 <= k < |ranks| && ranks[k] == 14;
      assert ranks[0] >= ranks[k];
    }
    if |u| > 0 && u[0] == 14 {
      assert u[0] in ranks;
    }
  }

  /**
   * One step of a run counter walking w: with the chain ending at i of length
   * run and no window of length len starting at or before i - len + 1, the
   * step either completes the first window (the highest run) or keeps both
   * facts at i + 1.
   */
  lemma ScanStep(w: seq<int>, i: int, run: int, len: nat, top: int)
    requires StrictlyDecreasing(w) && forall k :: 0 <= k < |w| ==> 1 <= w[k] <= top
    requires 0 <= i < |w| - 1 && 1 <= run < len
    requires MaximalChain(w, i - run + 1, i)
    requires forall j :: 0 <= j <= i - len + 1 ==> !Window(w, j, len)
    ensures w[i] - 1 == w[i + 1] && run + 1 >= len ==>
      i + 2 - len >= 0 && HighestRun(RankSet(w), len, top) == Some(w[i + 2 - len])
    ensures w[i] - 1 == w[i + 1] && run + 1 < len ==>
      MaximalChain(w, i + 1 - run, i + 1) && forall j :: 0 <= j <= i + 2 - len ==> !Window(w, j, len)
    ensures w[i] - 1 != w[i + 1] ==>
      MaximalChain(w, i + 1, i + 1) && forall j :: 0 <= j <= i + 2 - len ==> !Window(w, j, len)
  {
    if w[i] - 1 == w[i + 1] {
      if run + 1 >= len {
        FirstWindowIsHighest(w, i + 2 - len, len, top);
      } else {
        NoWindowEndingAt(w, i + 1 - run, i + 1, len);
      }
    } else {
      NoWindowEndingAt(w, i + 1, i + 1, len);
    }
  }

  /**
   * The run counter of isStraight and hasOpenEnder: walks w from high to low,
   * counting steps of exactly one, and stops at the first run of len, whose top
   * is the highest run.
   */
  method ScanRun(w: seq<int>, len: nat, top: int) returns (high: Option<int>)
    requires StrictlyDecreasing(w) && forall k :: 0 <= k < |w| ==> 1 <= w[k] <= top
    requires len >= 2
    ensures high == HighestRun(RankSet(w), len, top)
  {
    var run := 1;
    var i := 0;
    while i < |w| - 1
      invariant 0 <= i && (i < |w| || i == 0)
      invariant 1 <= run < len
      invariant |w| > 0 ==> MaximalChain(w, i - run + 1, i)
      invariant forall j :: 0 <= j <= i - len + 1 ==> !Window(w, j, len)
    {
      ScanStep(w, i, run, len, top);
      if w[i] - 1 == w[i + 1] {
        run := run + 1;
        if run >= len {
          return Some(w[i + 1 - (len - 1)]);
        }
      } else {
        run := 1;
      }
      i := i + 1;
    }
    NoWindowNoRun(w, len, top);
    return None;
  }
}
