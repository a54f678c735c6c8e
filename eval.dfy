/**
 * The hand evaluator: scores a 5-card hand as [category, tie-breakers...],
 * picks the best 5 of up to 7 cards, and detects flush and open-ended
 * straight draws.
 */
module Eval {
  import opened Types
  import opened Sequences
  import opened Runs
  import opened Scores
  import opened Combos

  // ---------------- ranks, suits and rank groups ----------------

  function RanksOf(cards: seq<Card>): (r: seq<int>)
    ensures |r| == |cards| && forall k :: 0 <= k < |r| ==> r[k] == cards[k].rank as int
  {
    seq(|cards|, k requires 0 <= k < |cards| => cards[k].rank as int)
  }

  function SuitsOf(cards: seq<Card>): (r: seq<Suit>)
    ensures |r| == |cards| && forall k :: 0 <= k < |r| ==> r[k] == cards[k].suit
  {
    seq(|cards|, k requires 0 <= k < |cards| => cards[k].suit)
  }

  function SuitCount(cards: seq<Card>, s: Suit): nat
  {
    Count(SuitsOf(cards), s)
  }

  /** The ranks of the cards of suit s, in card order. */
  function SuitRanks(cards: seq<Card>, s: Suit): seq<int>
  {
    if cards == [] then []
    else (if cards[0].suit == s then [cards[0].rank as int] else []) + SuitRanks(cards[1..], s)
  }

  /** A suit held by five or more cards; with fewer than ten cards there is at most one. */
  function FlushSuit(cards: seq<Card>): (r: Option<Suit>)
    ensures r.Some? ==> SuitCount(cards, r.value) >= 5
    ensures r.None? ==> forall s :: SuitCount(cards, s) < 5
  {
    if SuitCount(cards, Spades) >= 5 then Some(Spades)
    else if SuitCount(cards, Hearts) >= 5 then Some(Hearts)
    else if SuitCount(cards, Diamonds) >= 5 then Some(Diamonds)
    else if SuitCount(cards, Clubs) >= 5 then Some(Clubs)
    else None
  }

  /** The values of d that occur exactly c times in s, in d's order. */
  function WithCount(d: seq<int>, s: seq<int>, c: nat): (r: seq<int>)
    ensures forall x :: x in r <==> x in d && Count(s, x) == c
  {
    if d == [] then []
    else
      assert d == [d[0]] + d[1..];
      (if Count(s, d[0]) == c then [d[0]] else []) + WithCount(d[1..], s, c)
  }

  /** The values of d grouped by occurrence count, counts c, c - 1, ..., 1. */
  function GroupsFrom(d: seq<int>, s: seq<int>, c: nat): (r: seq<int>)
    ensures forall x :: x in r <==> x in d && 1 <= Count(s, x) <= c
    decreases c
  {
    if c == 0 then [] else WithCount(d, s, c) + GroupsFrom(d, s, c - 1)
  }

  /**
   * The rank keys of countBy(ranks) sorted by count, then rank, both
   * descending (rc of the source, without the counts).
   */
  function RankGroups(ranks: seq<int>): seq<int>
  {
    GroupsFrom(Dedupe(ranks), ranks, |ranks|)
  }

  /** The first value of g occurring exactly c times in s (rc.find); 0 if there is none. */
  function FirstWithCount(g: seq<int>, s: seq<int>, c: nat): int
  {
    if g == [] then 0
    else if Count(s, g[0]) == c then g[0]
    else FirstWithCount(g[1..], s, c)
  }

  /** The values of g occurring once in s, highest first. */
  function Singles(g: seq<int>, s: seq<int>): seq<int>
  {
    SortDesc(WithCount(g, s, 1))
  }

  /** g is ordered by occurrence count in s, then by value, both descending. */
  predicate GroupOrdered(g: seq<int>, s: seq<int>)
  {
    forall i, j :: 0 <= i < j < |g| ==>
      Count(s, g[i]) > Count(s, g[j]) || (Count(s, g[i]) == Count(s, g[j]) && g[i] > g[j])
  }

  lemma {:induction false} CountBound(s: seq<int>, x: int)
    ensures Count(s, x) <= |s|
  {
    if s != [] {
      var p := s[..|s| - 1];
      assert s == p + [s[|s| - 1]];
      CountBound(p, x);
    }
  }

  lemma {:induction false} WithCountDecreasing(d: seq<int>, s: seq<int>, c: nat)
    requires StrictlyDecreasing(d)
    ensures StrictlyDecreasing(WithCount(d, s, c))
  {
    if d != [] {
      WithCountDecreasing(d[1..], s, c);
      var t := WithCount(d[1..], s, c);
      forall k | 0 <= k < |t| ensures t[k] < d[0] {
        assert t[k] in d[1..];
      }
    }
  }

  lemma {:induction false} GroupsFromOrdered(d: seq<int>, s: seq<int>, c: nat)
    requires StrictlyDecreasing(d)
    ensures GroupOrdered(GroupsFrom(d, s, c), s)
    decreases c
  {
    if c > 0 {
      var w := WithCount(d, s, c);
      var g := GroupsFrom(d, s, c - 1);
      WithCountDecreasing(d, s, c);
      GroupsFromOrdered(d, s, c - 1);
      var r := w + g;
      forall i, j | 0 <= i < j < |r|
        ensures Count(s, r[i]) > Count(s, r[j]) || (Count(s, r[i]) == Count(s, r[j]) && r[i] > r[j])
      {
        if j < |w| {
        } else if i < |w| {
          assert r[i] in w && r[j] == g[j - |w|] && r[j] in g;
        } else {
          assert r[i] == g[i - |w|] && r[j] == g[j - |w|];
        }
      }
    }
  }

  /** rc holds each rank of the hand once, ordered by count then rank. */
  lemma RankGroupsFacts(ranks: seq<int>)
    requires NonIncreasing(ranks)
    ensures forall x :: x in RankGroups(ranks) <==> x in ranks
    ensures GroupOrdered(RankGroups(ranks), ranks)
  {
    DedupeOfSorted(ranks);
    GroupsFromOrdered(Dedupe(ranks), ranks, |ranks|);
    forall x | x in ranks ensures 1 <= Count(ranks, x) <= |ranks| {
      CountBound(ranks, x);
    }
  }

  lemma RankGroupsNonEmpty(ranks: seq<int>)
    requires |ranks| > 0
    ensures |RankGroups(ranks)| > 0
  {
    CountBound(ranks, ranks[0]);
    assert ranks[0] in Dedupe(ranks);
    assert ranks[0] in RankGroups(ranks);
  }

  lemma {:induction false} FirstWithCountFound(g: seq<int>, s: seq<int>, c: nat, z: int)
    requires z in g && Count(s, z) == c
    ensures FirstWithCount(g, s, c) in g && Count(s, FirstWithCount(g, s, c)) == c
  {
    if Count(s, g[0]) != c {
      assert z in g[1..];
      FirstWithCountFound(g[1..], s, c, z);
    }
  }

  // ---------------- straights ----------------

  /** The high card of the highest five-card run, the ace also counting as 1. */
  function StraightHigh(ranks: seq<int>): Option<int>
  {
    HighestRun(WheelSet(ranks), 5, 14)
  }

  /**
   * isStraight: the distinct ranks from high to low, plus a trailing 1 under
   * an ace, scanned for a run of five; the result is the top of the first run.
   */
  method IsStraight(sortedDesc: seq<int>) returns (high: Option<int>)
    requires NonIncreasing(sortedDesc)
    requires forall k :: 0 <= k < |sortedDesc| ==> 2 <= sortedDesc[k] <= 14
    ensures high == StraightHigh(sortedDesc)
  {
    DedupeOfSorted(sortedDesc);
    ScanSequence(sortedDesc, Dedupe(sortedDesc));
    var uniq := WithWheelAce(Dedupe(sortedDesc));
    high := ScanRun(uniq, 5, 14);
  }

  /** A straight's high card lies in 5..14: the run never wraps past the ace. */
  lemma StraightHighRange(ranks: seq<int>)
    requires forall k :: 0 <= k < |ranks| ==> 2 <= ranks[k] <= 14
    requires StraightHigh(ranks).Some?
    ensures 5 <= StraightHigh(ranks).value <= 14
    ensures RunAt(WheelSet(ranks), StraightHigh(ranks).value, 5)
  {
    var h := StraightHigh(ranks).value;
    WheelSetRange(ranks);
    assert h - 4 in WheelSet(ranks);
  }

  /** A-2-3-4-5 is the five-high straight. */
  lemma WheelIsFiveHigh()
    ensures StraightHigh([14, 5, 4, 3, 2]) == Some(5)
  {
    var w := [14, 5, 4, 3, 2, 1];
    assert RankSet(w) == WheelSet([14, 5, 4, 3, 2]);
    assert !Window(w, 0, 5);
    FirstWindowIsHighest(w, 1, 5, 14);
  }

  /** K-A-2-3-4 is not a straight. */
  lemma NoWrapAroundAce()
    ensures StraightHigh([14, 13, 4, 3, 2]) == None
  {
    var w := [14, 13, 4, 3, 2, 1];
    assert RankSet(w) == WheelSet([14, 13, 4, 3, 2]);
    assert !Window(w, 0, 5) && !Window(w, 1, 5);
    NoWindowNoRun(w, 5, 14);
  }

  // ---------------- evaluate5 ----------------

  /** The quantities evaluate5 works out before it picks a category. */
  datatype Features = Features(
    ranks: seq<int>,                // the ranks, highest first
    groups: seq<int>,               // rc: rank keys by count, then rank
    flushRanks: Option<seq<int>>,   // the flush suit's ranks, highest first
    straight: Option<int>)          // isStraight(ranks)

  function HandFeatures(cards: seq<Card>): Features
  {
    var ranks := SortDesc(RanksOf(cards));
    var flush := FlushSuit(cards);
    Features(ranks, RankGroups(ranks),
      if flush.Some? then Some(SortDesc(SuitRanks(cards, flush.value))) else None,
      StraightHigh(ranks))
  }

  /**
   * The category chain of evaluate5: straight flush [8, high], four of a kind
   * [7, quad, kicker], full house [6, trips, pair], flush [5, five ranks],
   * straight [4, high], three of a kind [3, trips, two kickers], two pair
   * [2, hi, lo, kicker], one pair [1, pair, three kickers], high card
   * [0, five ranks]. A missing group counts as count 0 (rc[0]?.[1]).
   */
  function Classify(f: Features): (r: Score)
    ensures |r| >= 1 && 0 <= r[0] <= 8
  {
    var rc := f.groups;
    var top := if |rc| > 0 then Count(f.ranks, rc[0]) else 0;
    var second := if |rc| > 1 then Count(f.ranks, rc[1]) else 0;
    var sf := if f.flushRanks.Some? then StraightHigh(f.flushRanks.value) else None;
    if sf.Some? then [8, sf.value]
    else if top == 4 then [7, rc[0], FirstWithCount(rc, f.ranks, 1)]
    else if top == 3 && second >= 2 then [6, rc[0], rc[1]]
    else if f.flushRanks.Some? then [5] + Take(f.flushRanks.value, 5)
    else if f.straight.Some? then [4, f.straight.value]
    else if top == 3 then [3, rc[0]] + Take(Singles(rc, f.ranks), 2)
    else if top == 2 && second == 2 then
      [2, if rc[0] > rc[1] then rc[0] else rc[1], if rc[0] < rc[1] then rc[0] else rc[1],
       FirstWithCount(rc, f.ranks, 1)]
    else if top == 2 then [1, rc[0]] + Take(Singles(rc, f.ranks), 3)
    else [0] + Take(f.ranks, 5)
  }

  /** evaluate5: the score of a hand, its category first. */
  function Evaluate5(cards: seq<Card>): (r: Score)
    ensures |r| >= 1 && 0 <= r[0] <= 8
  {
    Classify(HandFeatures(cards))
  }

  // ---------------- facts about the hand behind a score ----------------

  /** Every card has the same suit. */
  predicate AllOneSuit(cards: seq<Card>)
  {
    forall k :: 0 <= k < |cards| ==> cards[k].suit == cards[0].suit
  }

  /** The highest five-card run among the cards' ranks. */
  function StraightTop(cards: seq<Card>): Option<int>
  {
    StraightHigh(RanksOf(cards))
  }

  lemma WheelSetSameMembers(a: seq<int>, b: seq<int>)
    requires forall x :: x in a <==> x in b
    ensures WheelSet(a) == WheelSet(b)
  {
    forall x ensures x in RankSet(a) <==> x in RankSet(b) {
      assert x in RankSet(a) <==> x in a;
    }
  }

  lemma {:induction false} SuitRanksOfOneSuit(cards: seq<Card>, s: Suit)
    requires forall k :: 0 <= k < |cards| ==> cards[k].suit == s
    ensures SuitRanks(cards, s) == RanksOf(cards)
  {
    if cards != [] {
      SuitRanksOfOneSuit(cards[1..], s);
      assert RanksOf(cards) == [cards[0].rank as int] + RanksOf(cards[1..]);
    }
  }

  /** Five cards of one suit count five for that suit, and a five-count for a suit means all five share it. */
  lemma FiveOfASuit(cards: seq<Card>, s: Suit)
    requires |cards| == 5
    ensures SuitCount(cards, s) >= 5 <==> forall k :: 0 <= k < 5 ==> cards[k].suit == s
  {
    var suits := SuitsOf(cards);
    if forall k :: 0 <= k < 5 ==> cards[k].suit == s {
      assert suits == [s, s, s, s, s];
    }
    if exists k :: 0 <= k < 5 && cards[k].suit != s {
      var k :| 0 <= k < 5 && cards[k].suit != s;
      assert suits[k] in multiset(suits);
      TwoCounts(suits, s, suits[k]);
    }
  }

  /** The flush suit of five cards is their common suit, and its ranks are all the ranks. */
  lemma FlushOfFive(cards: seq<Card>)
    requires |cards| == 5
    ensures FlushSuit(cards).Some? <==> AllOneSuit(cards)
    ensures FlushSuit(cards).Some? ==>
      FlushSuit(cards).value == cards[0].suit && SuitRanks(cards, cards[0].suit) == RanksOf(cards)
  {
    FiveOfASuit(cards, cards[0].suit);
    var f := FlushSuit(cards);
    if f.Some? {
      FiveOfASuit(cards, f.value);
      SuitRanksOfOneSuit(cards, f.value);
    }
  }

  /** The evaluator's straight test sees the same runs as the cards' ranks. */
  lemma SortedStraight(cards: seq<Card>)
    ensures StraightHigh(SortDesc(RanksOf(cards))) == StraightTop(cards)
  {
    SortDescMembers(RanksOf(cards));
    WheelSetSameMembers(SortDesc(RanksOf(cards)), RanksOf(cards));
  }

  /** What the category chain may rely on when the features come from five cards. */
  ghost predicate FiveCardFeatures(f: Features)
  {
    && |f.ranks| == 5 && NonIncreasing(f.ranks)
    && (forall k :: 0 <= k < 5 ==> 2 <= f.ranks[k] <= 14)
    && (forall x :: x in f.groups <==> x in f.ranks)
    && GroupOrdered(f.groups, f.ranks)
    && f.straight == StraightHigh(f.ranks)
    && (f.flushRanks.Some? ==> f.flushRanks.value == f.ranks)
  }

  /** What evaluate5 works out for five cards, tied back to the cards themselves. */
  lemma FeaturesOfFive(cards: seq<Card>)
    requires |cards| == 5
    ensures FiveCardFeatures(HandFeatures(cards))
    ensures forall x :: Count(HandFeatures(cards).ranks, x) == Count(RanksOf(cards), x)
    ensures HandFeatures(cards).flushRanks.Some? <==> AllOneSuit(cards)
    ensures HandFeatures(cards).straight == StraightTop(cards)
  {
    var ranks := SortDesc(RanksOf(cards));
    SortDescSorted(RanksOf(cards));
    RankGroupsFacts(ranks);
    SortDescMembers(RanksOf(cards));
    forall k | 0 <= k < 5 ensures 2 <= ranks[k] <= 14 {
      assert ranks[k] in RanksOf(cards);
    }
    FlushOfFive(cards);
    SortedStraight(cards);
  }

  /** A run of five among five ranks uses five different ranks. */
  lemma RunRanksDistinct(ranks: seq<int>)
    requires |ranks| == 5 && forall k :: 0 <= k < 5 ==> 2 <= ranks[k] <= 14
    requires StraightHigh(ranks).Some?
    ensures Distinct(ranks)
  {
    var h := StraightHigh(ranks).value;
    StraightHighRange(ranks);
    var S := WheelSet(ranks);
    // the five rank values the run needs, the 1 standing for an ace
    var low := if h == 5 then 14 else h - 4;
    var vs := [h, h - 1, h - 2, h - 3, low];
    forall k | 0 <= k < 5 ensures vs[k] in ranks {
      assert h - k in S;
      if h == 5 && k == 4 {
        assert 1 in S;
      }
    }
    assert Distinct(vs);
    PigeonDistinct(ranks, vs);
  }

  /** A sequence holding as many distinct values as it has elements has no repeats. */
  lemma PigeonDistinct(s: seq<int>, vs: seq<int>)
    requires |vs| == |s| && Distinct(vs) && forall v :: v in vs ==> v in s
    ensures Distinct(s)
  {
    DistinctCounts(vs);
    var A, B := multiset(vs), multiset(s);
    forall x | x in A ensures A[x] <= B[x] {
      assert x in vs && x in s;
      assert Count(vs, x) <= 1;
      assert x in B;
    }
    assert A <= B;
    var D := B - A;
    assert B == A + D;
    assert |D| == 0;
    assert A == B;
    forall x ensures Count(s, x) <= 1 {
      assert Count(s, x) == B[x] == A[x] == Count(vs, x);
    }
    CountsDistinct(s);
  }

  /** Five ranks holding a pair hold no run of five. */
  lemma PairBlocksRun(ranks: seq<int>, x: int)
    requires |ranks| == 5 && forall k :: 0 <= k < 5 ==> 2 <= ranks[k] <= 14
    requires Count(ranks, x) >= 2
    ensures StraightHigh(ranks) == None
  {
    if StraightHigh(ranks).Some? {
      RunRanksDistinct(ranks);
      DistinctCounts(ranks);
    }
  }

  /** Ranks of only two values (three with the wheel ace) hold no run of five. */
  lemma OnlyTwoRanksNoRun(ranks: seq<int>, x: int, y: int)
    requires forall v :: v in ranks ==> v == x || v == y
    ensures StraightHigh(ranks) == None
  {
    var S := WheelSet(ranks);
    forall v | v in S ensures v in {x, y, 1} {
      if v != 1 {
        assert v in ranks;
      }
    }
    forall h | 1 <= h <= 14 ensures !RunAt(S, h, 5) {
      assert h !in S || h - 1 !in S || h - 2 !in S || h - 3 !in S;
    }
    HighestRunMeaning(S, 5, 14);
  }

  // the category chain on five-card features

  lemma ClassifyStraightFlush(f: Features)
    requires FiveCardFeatures(f)
    ensures Classify(f)[0] == 8 <==> f.flushRanks.Some? && f.straight.Some?
    ensures Classify(f)[0] == 8 ==> Classify(f) == [8, f.straight.value]
  {
  }

  lemma ClassifyQuads(f: Features, q: int)
    requires FiveCardFeatures(f) && Count(f.ranks, q) == 4
    ensures |Classify(f)| == 3 && Classify(f)[0] == 7 && Classify(f)[1] == q
    ensures Count(f.ranks, Classify(f)[2]) == 1
  {
    var g, ranks := f.groups, f.ranks;
    assert q in multiset(ranks) && q in ranks && q in g;
    var z := SomeOtherThan(ranks, q);
    assert z in multiset(ranks);
    TwoCounts(ranks, q, z);
    OnlyTwoValues(ranks, q, z);
    OnlyTwoRanksNoRun(ranks, q, z);
    var j :| 0 <= j < |g| && g[j] == q;
    if j > 0 {
      TwoCounts(ranks, q, g[0]);
    }
    FirstWithCountFound(g, ranks, 1, z);
  }

  lemma ClassifyFullHouse(f: Features, x: int, y: int)
    requires FiveCardFeatures(f) && Count(f.ranks, x) == 3 && Count(f.ranks, y) == 2
    ensures Classify(f) == [6, x, y]
  {
    var g, ranks := f.groups, f.ranks;
    assert x in multiset(ranks) && y in multiset(ranks);
    assert x in g && y in g;
    OnlyTwoValues(ranks, x, y);
    OnlyTwoRanksNoRun(ranks, x, y);
    var jx :| 0 <= jx < |g| && g[jx] == x;
    var jy :| 0 <= jy < |g| && g[jy] == y;
    assert g[0] in ranks;
    assert g[0] == x;
    assert jy >= 1 && g[1] in ranks;
  }

  lemma ClassifyTwoPair(f: Features, x: int, y: int)
    requires FiveCardFeatures(f) && x > y && f.flushRanks.None?
    requires Count(f.ranks, x) == 2 && Count(f.ranks, y) == 2
    ensures |Classify(f)| == 4 && Classify(f)[..3] == [2, x, y]
    ensures Count(f.ranks, Classify(f)[3]) == 1
  {
    var g, ranks := f.groups, f.ranks;
    var z := SomeOther(ranks, x, y);
    assert z in multiset(ranks);
    ThreeCounts(ranks, x, y, z);
    OnlyThreeValues(ranks, x, y, z);
    assert x in multiset(ranks) && y in multiset(ranks);
    assert x in g && y in g;
    var jx :| 0 <= jx < |g| && g[jx] == x;
    var jy :| 0 <= jy < |g| && g[jy] == y;
    assert g[0] in ranks;
    assert g[0] == x;
    assert jy >= 1 && g[1] in ranks;
    assert g[1] == y;
    PairBlocksRun(ranks, x);
    FirstWithCountFound(g, ranks, 1, z);
  }

  lemma ClassifyStraight(f: Features)
    requires FiveCardFeatures(f)
    ensures Classify(f)[0] == 4 <==> f.straight.Some? && f.flushRanks.None?
    ensures Classify(f)[0] == 4 ==> Classify(f) == [4, f.straight.value]
  {
    if f.straight.Some? {
      RunRanksDistinct(f.ranks);
      DistinctCounts(f.ranks);
    }
  }

  lemma ClassifyMeans(f: Features)
    requires FiveCardFeatures(f)
    ensures Classify(f)[0] == 7 ==>
      |Classify(f)| == 3 && Count(f.ranks, Classify(f)[1]) == 4 && Count(f.ranks, Classify(f)[2]) == 1
    ensures Classify(f)[0] == 6 ==>
      |Classify(f)| == 3 && Count(f.ranks, Classify(f)[1]) == 3 && Count(f.ranks, Classify(f)[2]) == 2
    ensures Classify(f)[0] == 2 ==>
      |Classify(f)| == 4 && Classify(f)[1] > Classify(f)[2]
      && Count(f.ranks, Classify(f)[1]) == 2 && Count(f.ranks, Classify(f)[2]) == 2
      && Count(f.ranks, Classify(f)[3]) == 1
  {
    var g, ranks := f.groups, f.ranks;
    var r := Classify(f);
    if r[0] == 7 {
      ClassifyQuads(f, g[0]);
    } else if r[0] == 6 {
      TwoCounts(ranks, g[0], g[1]);
      ClassifyFullHouse(f, g[0], g[1]);
    } else if r[0] == 2 {
      ClassifyTwoPair(f, g[0], g[1]);
    }
  }

  // the same facts about five cards

  /** A straight flush is exactly five suited cards forming a run; its score is [8, high]. */
  lemma StraightFlushShape(cards: seq<Card>)
    requires |cards| == 5
    ensures Evaluate5(cards)[0] == 8 <==> AllOneSuit(cards) && StraightTop(cards).Some?
    ensures Evaluate5(cards)[0] == 8 ==> Evaluate5(cards) == [8, StraightTop(cards).value]
  {
    FeaturesOfFive(cards);
    ClassifyStraightFlush(HandFeatures(cards));
  }

  /** Four cards of one rank score [7, that rank, the fifth card's rank]. */
  lemma QuadsShape(cards: seq<Card>, q: int)
    requires |cards| == 5 && Count(RanksOf(cards), q) == 4
    ensures |Evaluate5(cards)| == 3 && Evaluate5(cards)[0] == 7 && Evaluate5(cards)[1] == q
    ensures Count(RanksOf(cards), Evaluate5(cards)[2]) == 1
  {
    FeaturesOfFive(cards);
    ClassifyQuads(HandFeatures(cards), q);
  }

  /** Three of one rank and two of another score [6, trips, pair]. */
  lemma FullHouseShape(cards: seq<Card>, x: int, y: int)
    requires |cards| == 5 && Count(RanksOf(cards), x) == 3 && Count(RanksOf(cards), y) == 2
    ensures Evaluate5(cards) == [6, x, y]
  {
    FeaturesOfFive(cards);
    ClassifyFullHouse(HandFeatures(cards), x, y);
  }

  /** Cards from one deck are all different, so a paired hand is never all of one suit. */
  lemma PairedHandNotSuited(cards: seq<Card>, x: int)
    requires Distinct(cards) && Count(RanksOf(cards), x) >= 2
    ensures !AllOneSuit(cards)
  {
    var ranks := RanksOf(cards);
    if AllOneSuit(cards) {
      forall j, k | 0 <= j < k < |ranks| ensures ranks[j] != ranks[k] {
        assert cards[j] != cards[k];
      }
      DistinctCounts(ranks);
    }
  }

  /** Two pairs among five different cards score [2, higher pair, lower pair, kicker]. */
  lemma TwoPairShape(cards: seq<Card>, x: int, y: int)
    requires |cards| == 5 && Distinct(cards) && x > y
    requires Count(RanksOf(cards), x) == 2 && Count(RanksOf(cards), y) == 2
    ensures |Evaluate5(cards)| == 4 && Evaluate5(cards)[..3] == [2, x, y]
    ensures Count(RanksOf(cards), Evaluate5(cards)[3]) == 1
  {
    FeaturesOfFive(cards);
    PairedHandNotSuited(cards, x);
    ClassifyTwoPair(HandFeatures(cards), x, y);
  }

  /** Five cards forming a run but not all of one suit score [4, high]. */
  lemma StraightShape(cards: seq<Card>)
    requires |cards| == 5
    ensures Evaluate5(cards)[0] == 4 <==> StraightTop(cards).Some? && !AllOneSuit(cards)
    ensures Evaluate5(cards)[0] == 4 ==> Evaluate5(cards) == [4, StraightTop(cards).value]
  {
    FeaturesOfFive(cards);
    ClassifyStraight(HandFeatures(cards));
  }

  /** What a score says about the hand: the converse directions of the shape lemmas. */
  lemma ScoreMeansShape(cards: seq<Card>)
    requires |cards| == 5
    ensures Evaluate5(cards)[0] == 7 ==>
      |Evaluate5(cards)| == 3 && Count(RanksOf(cards), Evaluate5(cards)[1]) == 4
      && Count(RanksOf(cards), Evaluate5(cards)[2]) == 1
    ensures Evaluate5(cards)[0] == 6 ==>
      |Evaluate5(cards)| == 3 && Count(RanksOf(cards), Evaluate5(cards)[1]) == 3
      && Count(RanksOf(cards), Evaluate5(cards)[2]) == 2
    ensures Evaluate5(cards)[0] == 2 ==>
      |Evaluate5(cards)| == 4 && Evaluate5(cards)[1] > Evaluate5(cards)[2]
      && Count(RanksOf(cards), Evaluate5(cards)[1]) == 2 && Count(RanksOf(cards), Evaluate5(cards)[2]) == 2
      && Count(RanksOf(cards), Evaluate5(cards)[3]) == 1
  {
    FeaturesOfFive(cards);
    ClassifyMeans(HandFeatures(cards));
  }

  // ---------------- best of seven ----------------

  /** The score of each 5-card hand, in order. */
  function EvalAll(fs: seq<seq<Card>>): (r: seq<Score>)
    ensures |r| == |fs|
  {
    if fs == [] then [] else EvalAll(fs[..|fs| - 1]) + [Evaluate5(fs[|fs| - 1])]
  }

  lemma {:induction false} EvalAllAt(fs: seq<seq<Card>>, j: int)
    requires 0 <= j < |fs|
    ensures EvalAll(fs)[j] == Evaluate5(fs[j])
    decreases |fs|
  {
    if j < |fs| - 1 {
      EvalAllAt(fs[..|fs| - 1], j);
    }
  }

  /** Extending the hands by one extends their scores by that hand's score. */
  lemma EvalAllSnoc(fs: seq<seq<Card>>, i: int)
    requires 0 <= i < |fs|
    ensures EvalAll(fs[..i + 1]) == EvalAll(fs[..i]) + [Evaluate5(fs[i])]
  {
    assert fs[..i + 1][..i] == fs[..i];
  }

  /** The running best of a sequence of scores, replaced only by a strictly higher one. */
  function BestOf(ss: seq<Score>): (r: Option<Score>)
    ensures r.None? <==> ss == []
  {
    if ss == [] then None
    else
      var b := BestOf(ss[..|ss| - 1]);
      var s := ss[|ss| - 1];
      if b.None? || CompareScores(s, b.value) > 0 then Some(s) else b
  }

  /** One more score replaces the running best only when it is strictly higher. */
  lemma BestOfSnoc(ss: seq<Score>, s: Score)
    ensures BestOf(ss + [s]) ==
      if BestOf(ss).None? || CompareScores(s, BestOf(ss).value) > 0 then Some(s) else BestOf(ss)
  {
    assert (ss + [s])[..|ss|] == ss;
  }

  lemma {:induction false} BestOfIsBest(ss: seq<Score>)
    ensures BestOf(ss).Some? ==> BestOf(ss).value in ss
    ensures BestOf(ss).Some? ==> forall s :: s in ss ==> CompareScores(BestOf(ss).value, s) >= 0
  {
    if ss != [] {
      var p := ss[..|ss| - 1];
      var s := ss[|ss| - 1];
      assert ss == p + [s];
      BestOfIsBest(p);
      var b := BestOf(p);
      var r := BestOf(ss).value;
      CompareReflexive(s);
      if b.Some? {
        CompareAntisymmetric(s, b.value);
        forall t | t in ss ensures CompareScores(r, t) >= 0 {
          if t in p {
            if r == s {
              CompareTransitive(s, b.value, t);
            }
          }
        }
      }
    }
  }

  /** evaluateBest7's result as a value: the best 5-card score, or all zeros without five cards. */
  function Best7(cards: seq<Card>): Score
  {
    var b := BestOf(EvalAll(Combos5Of(cards)));
    if b.Some? then b.value else [0, 0, 0, 0, 0, 0]
  }

  /** The best-of-seven score is at least every 5-card subset's score. */
  lemma Best7Dominates(cards: seq<Card>, f: seq<Card>)
    requires f in Combos5Of(cards)
    ensures CompareScores(Best7(cards), Evaluate5(f)) >= 0
  {
    var ss := EvalAll(Combos5Of(cards));
    BestOfIsBest(ss);
    var j :| 0 <= j < |Combos5Of(cards)| && Combos5Of(cards)[j] == f;
    EvalAllAt(Combos5Of(cards), j);
  }

  /** With at least five cards, the best-of-seven score is some 5-card subset's score. */
  lemma Best7Attained(cards: seq<Card>) returns (f: seq<Card>)
    requires |cards| >= 5
    ensures f in Combos5Of(cards) && Best7(cards) == Evaluate5(f)
  {
    var ss := EvalAll(Combos5Of(cards));
    Combos5NonEmpty(cards);
    BestOfIsBest(ss);
    var j :| 0 <= j < |ss| && ss[j] == BestOf(ss).value;
    EvalAllAt(Combos5Of(cards), j);
    f := Combos5Of(cards)[j];
  }

  /**
   * The comparison loop inside evaluateBest7: after positions 0 .. k - 1
   * agree, position k decides; when every position up to the longer length
   * agrees the two scores tie.
   */
  lemma FirstDifference(s: Score, b: Score, k: nat, len: nat)
    requires len == (if |b| > |s| then |b| else |s|) && k <= len
    requires forall j :: 0 <= j < k ==> At(b, j) == At(s, j)
    requires k < len ==> At(s, k) != At(b, k)
    ensures CompareScores(s, b) > 0 <==> k < len && At(s, k) > At(b, k)
  {
    CompareScoresMeaning(s, b);
    CompareScoresMeaning(b, s);
    CompareAntisymmetric(s, b);
    if k < len && At(s, k) > At(b, k) {
      assert forall j: nat :: j < k ==> At(s, j) == At(b, j);
      assert Above(s, b);
    } else if k < len {
      assert forall j: nat :: j < k ==> At(b, j) == At(s, j);
      assert Above(b, s);
    } else {
      assert SameScore(s, b) by {
        forall j: nat ensures At(s, j) == At(b, j) {
          if j < k {
            assert At(b, j) == At(s, j);
          }
        }
      }
    }
  }

  /**
   * The comparison loop of evaluateBest7: walks both scores up to the longer
   * length, missing entries reading as 0, and at the first difference keeps s
   * when it is higher there.
   */
  method KeepHigher(b: Score, s: Score) returns (r: Score)
    ensures r == if CompareScores(s, b) > 0 then s else b
  {
    var len := if |b| > |s| then |b| else |s|;
    var k := 0;
    while k < len
      invariant 0 <= k <= len
      invariant forall j :: 0 <= j < k ==> At(b, j) == At(s, j)
    {
      if At(s, k) != At(b, k) {
        break;
      }
      k := k + 1;
    }
    FirstDifference(s, b, k, len);
    r := if k < len && At(s, k) > At(b, k) then s else b;
  }

  /**
   * evaluateBest7: over every 5-card subset, keeps the first score and then
   * any score that is higher at the first differing position.
   */
  method EvaluateBest7(cards7: seq<Card>) returns (best: Score)
    ensures best == Best7(cards7)
  {
    var combos := Combos5(cards7);
    var have := false;
    var b: Score := [];
    var i := 0;
    while i < |combos|
      invariant 0 <= i <= |combos|
      invariant have <==> i > 0
      invariant have ==> BestOf(EvalAll(combos[..i])) == Some(b)
    {
      var s := Evaluate5(combos[i]);
      EvalAllSnoc(combos, i);
      BestOfSnoc(EvalAll(combos[..i]), s);
      if !have {
        b := s;
        have := true;
      } else {
        b := KeepHigher(b, s);
      }
      i := i + 1;
    }
    assert combos[..|combos|] == combos;
    best := if have then b else [0, 0, 0, 0, 0, 0];
  }

  /**
   * bestFive: the same search keeping the winning five cards with the score.
   * Its result type promises a hand, so it needs at least five cards.
   */
  method BestFive(cards7: seq<Card>) returns (score: Score, five: seq<Card>)
    requires |cards7| >= 5
    ensures score == Best7(cards7)
    ensures five in Combos5Of(cards7) && Evaluate5(five) == score
  {
    var combos := Combos5(cards7);
    Combos5NonEmpty(cards7);
    ghost var fi;
    score, five, fi := BestCombo(combos);
    EvalAllAt(combos, fi);
  }

  /** The search loop of bestFive over the subsets; fi is the position of the winning subset. */
  method BestCombo(combos: seq<seq<Card>>) returns (score: Score, five: seq<Card>, ghost fi: nat)
    requires |combos| > 0
    ensures BestOf(EvalAll(combos)) == Some(score)
    ensures fi < |combos| && five == combos[fi] && score == EvalAll(combos)[fi]
  {
    ghost var ss := EvalAll(combos);
    var have := false;
    score, five := [], [];
    fi := 0;
    var i := 0;
    while i < |combos|
      invariant 0 <= i <= |combos| && |ss| == |combos|
      invariant have <==> i > 0
      invariant have ==> BestOf(ss[..i]) == Some(score)
      invariant have ==> 0 <= fi < i && five == combos[fi] && score == ss[fi]
    {
      var s := ScoreAt(combos, i);
      BestOfPrefixStep(ss, i);
      if !have {
        score, five, have := s, combos[i], true;
        fi := i;
      } else {
        var c := Compare(s, score);
        if c > 0 {
          score, five := s, combos[i];
          fi := i;
        }
      }
      i := i + 1;
    }
    assert ss[..|combos|] == ss;
  }

  /** evaluate5 applied to the i-th subset: the i-th entry of the scores. */
  method ScoreAt(combos: seq<seq<Card>>, i: nat) returns (s: Score)
    requires i < |combos|
    ensures s == EvalAll(combos)[i]
  {
    s := Evaluate5(combos[i]);
    EvalAllAt(combos, i);
  }

  lemma BestOfPrefixStep(ss: seq<Score>, i: nat)
    requires i < |ss|
    ensures BestOf(ss[..i + 1]) ==
      if BestOf(ss[..i]).None? || CompareScores(ss[i], BestOf(ss[..i]).value) > 0 then Some(ss[i]) else BestOf(ss[..i])
  {
    assert ss[..i + 1] == ss[..i] + [ss[i]];
    BestOfSnoc(ss[..i], ss[i]);
  }

  // ---------------- draws ----------------

  /** bySuit: suit -> number of cards of that suit. */
  function SuitTally(cards: seq<Card>): map<Suit, nat>
  {
    if cards == [] then map[]
    else
      var m := SuitTally(cards[..|cards| - 1]);
      var s := cards[|cards| - 1].suit;
      m[s := (if s in m then m[s] else 0) + 1]
  }

  lemma {:induction false} SuitTallyCounts(cards: seq<Card>)
    ensures forall s :: s in SuitTally(cards) <==> SuitCount(cards, s) > 0
    ensures forall s :: s in SuitTally(cards) ==> SuitTally(cards)[s] == SuitCount(cards, s)
  {
    if cards != [] {
      var p := cards[..|cards| - 1];
      SuitTallyCounts(p);
      assert SuitsOf(cards) == SuitsOf(p) + [cards[|cards| - 1].suit];
    }
  }

  /**
   * hasFlushDraw: some suit is held four or more times, and at least minBoard
   * of the cards (all but two) are on the board.
   */
  function HasFlushDraw(cards: seq<Card>, minBoard: int): (r: bool)
    ensures r <==> (exists s :: SuitCount(cards, s) >= 4) && |cards| - 2 >= minBoard
  {
    SuitTallyCounts(cards);
    (exists s :: s in SuitTally(cards) && SuitTally(cards)[s] >= 4) && |cards| - 2 >= minBoard
  }

  /** Four consecutive distinct ranks (the ace also as 1) and enough board cards. */
  predicate OpenEnder(cards: seq<Card>, minBoard: int)
  {
    HighestRun(WheelSet(RanksOf(cards)), 4, 14).Some? && |cards| - 2 >= minBoard
  }

  /** OpenEnder holds exactly when some four-card run ends in 4..14 and the board is big enough. */
  lemma OpenEnderMeaning(cards: seq<Card>, minBoard: int)
    ensures OpenEnder(cards, minBoard) <==>
      (exists h :: 4 <= h <= 14 && RunAt(WheelSet(RanksOf(cards)), h, 4)) && |cards| - 2 >= minBoard
  {
    var S := WheelSet(RanksOf(cards));
    HighestRunMeaning(S, 4, 14);
    if HighestRun(S, 4, 14).Some? {
      var h := HighestRun(S, 4, 14).value;
      WheelSetRange(RanksOf(cards));
      assert h - 3 in S;
    }
  }

  /**
   * hasOpenEnder: the distinct ranks from high to low, plus 1 under an ace,
   * scanned for a run of four.
   */
  method HasOpenEnder(cards: seq<Card>, minBoard: int) returns (b: bool)
    ensures b == OpenEnder(cards, minBoard)
  {
    var rs := RanksOf(cards);
    var u := SortDesc(Dedupe(rs));
    assert StrictlyDecreasing(u) by {
      DedupeDistinct(rs);
      SortDescOfDistinct(Dedupe(rs));
    }
    assert NonIncreasing(u) by {
      SortDescSorted(Dedupe(rs));
    }
    assert forall x :: x in u <==> x in rs by {
      SortDescMembers(Dedupe(rs));
    }
    forall k | 0 <= k < |u| ensures 2 <= u[k] <= 14 {
      assert u[k] in u;
      assert u[k] in rs;
      var j :| 0 <= j < |rs| && rs[j] == u[k];
      assert rs[j] == cards[j].rank as int;
    }
    ScanSequence(u, u);
    WheelSetSameMembers(u, rs);
    var ranks := WithWheelAce(u);
    var high := ScanRun(ranks, 4, 14);
    b := high.Some? && |cards| - 2 >= minBoard;
  }
}
