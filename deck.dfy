/**
 * Card model and deck: labels, construction of the 52-card deck and the
 * Fisher-Yates shuffle with an injected random source.
 */
module Deck {
  import opened Types
  import opened Sequences

  const Suits: seq<Suit> := [Spades, Hearts, Diamonds, Clubs]
  const Ranks: seq<Rank> := [2, 3, 4, 5, 6, 7, 8, 9, 10, 11, 12, 13, 14]

  // ---------------- labels ----------------

  function DigitChar(d: nat): char
    requires d < 10
  {
    "0123456789"[d]
  }

  /** Decimal digits of a natural number, most significant first. */
  function Digits(n: nat): (s: string)
    ensures 1 <= |s|
    ensures forall k :: 0 <= k < |s| ==> '0' <= s[k] <= '9'
  {
    if n < 10 then [DigitChar(n)] else Digits(n / 10) + [DigitChar(n % 10)]
  }

  /** The value a string of decimal digits denotes. */
  function DigitsValue(s: string): nat
    requires forall k :: 0 <= k < |s| ==> '0' <= s[k] <= '9'
  {
    if s == [] then 0 else 10 * DigitsValue(s[..|s| - 1]) + (s[|s| - 1] - '0') as nat
  }

  lemma DigitCharValue(d: nat)
    requires d < 10
    ensures '0' <= DigitChar(d) <= '9' && (DigitChar(d) - '0') as nat == d
  {
  }

  lemma {:induction false} DigitsRoundTrip(n: nat)
    ensures DigitsValue(Digits(n)) == n
  {
    if n < 10 {
      DigitCharValue(n);
      assert DigitsValue(Digits(n)) == DigitsValue([]) * 10 + n;
    } else {
      DigitsRoundTrip(n / 10);
      DigitCharValue(n % 10);
      var s := Digits(n);
      assert s == Digits(n / 10) + [DigitChar(n % 10)];
      assert s[..|s| - 1] == Digits(n / 10);
      assert DigitsValue(s) == 10 * (n / 10) + n % 10;
    }
  }

  /** String(n) of the source, for any integer. */
  function DecimalString(n: int): (s: string)
    ensures 1 <= |s|
  {
    if n < 0 then "-" + Digits(-n) else Digits(n)
  }

  /** rankLabel: decimal up to 10, then J, Q, K, and A for everything else. */
  function RankLabel(r: int): (s: string)
    ensures r <= 10 ==> s == DecimalString(r)
    ensures r > 10 ==> |s| == 1 && s[0] in "JQKA"
  {
    if r <= 10 then DecimalString(r)
    else if r == 11 then "J"
    else if r == 12 then "Q"
    else if r == 13 then "K"
    else "A"
  }

  function SuitSymbol(s: Suit): (c: char)
  {
    match s
    case Spades => '\U{2660}'
    case Hearts => '\U{2665}'
    case Diamonds => '\U{2666}'
    case Clubs => '\U{2663}'
  }

  /** cardLabel: the rank label followed by the suit symbol. */
  function CardLabel(c: Card): (s: string)
    ensures |s| >= 2 && s[|s| - 1] == SuitSymbol(c.suit)
    ensures s[..|s| - 1] == RankLabel(c.rank)
  {
    RankLabel(c.rank) + [SuitSymbol(c.suit)]
  }

  /** Different ranks of real cards have different labels. */
  lemma RankLabelInjective(r1: Rank, r2: Rank)
    requires RankLabel(r1) == RankLabel(r2)
    ensures r1 == r2
  {
    if r1 <= 10 && r2 <= 10 {
      DigitsRoundTrip(r1);
      DigitsRoundTrip(r2);
    }
  }

  /** A card label identifies the card. */
  lemma CardLabelInjective(c1: Card, c2: Card)
    requires CardLabel(c1) == CardLabel(c2)
    ensures c1 == c2
  {
    var s := CardLabel(c1);
    assert RankLabel(c1.rank) == s[..|s| - 1] == RankLabel(c2.rank);
    RankLabelInjective(c1.rank, c2.rank);
  }

  // ---------------- the deck ----------------

  /** The position of a suit in the construction order. */
  function SuitIndex(s: Suit): (k: nat)
    ensures k < 4 && Suits[k] == s
  {
    match s
    case Spades => 0
    case Hearts => 1
    case Diamonds => 2
    case Clubs => 3
  }

  /** The card that makeDeck puts at position k. */
  function DeckCard(k: nat): Card
    requires k < 52
  {
    Card(Ranks[k % 13], Suits[k / 13])
  }

  /** The deck makeDeck lays out, position by position. */
  function Unshuffled(): (d: seq<Card>)
    ensures |d| == 52 && forall k :: 0 <= k < 52 ==> d[k] == DeckCard(k)
  {
    seq(52, k requires 0 <= k < 52 => DeckCard(k))
  }

  lemma DeckCardAt(si: nat, ri: nat)
    requires si < 4 && ri < 13
    ensures DeckCard(13 * si + ri) == Card(Ranks[ri], Suits[si])
  {
    assert (13 * si + ri) / 13 == si;
    assert (13 * si + ri) % 13 == ri;
  }

  lemma DeckCardInjective(j: nat, k: nat)
    requires j < 52 && k < 52 && DeckCard(j) == DeckCard(k)
    ensures j == k
  {
    assert j == 13 * (j / 13) + j % 13;
    assert k == 13 * (k / 13) + k % 13;
  }

  /**
   * makeDeck: suit by suit, rank by rank. The result holds every card exactly
   * once, at position 13 * suit index + rank - 2.
   */
  method MakeDeck() returns (d: seq<Card>)
    ensures |d| == 52
    ensures forall k :: 0 <= k < 52 ==> d[k] == DeckCard(k)
    ensures forall j, k :: 0 <= j < k < |d| ==> d[j] != d[k]
    ensures forall c: Card :: c in d
  {
    d := [];
    var si := 0;
    while si < |Suits|
      invariant 0 <= si <= 4
      invariant |d| == 13 * si
      invariant forall k :: 0 <= k < |d| ==> d[k] == DeckCard(k)
    {
      var ri := 0;
      while ri < |Ranks|
        invariant 0 <= ri <= 13
        invariant |d| == 13 * si + ri
        invariant forall k :: 0 <= k < |d| ==> d[k] == DeckCard(k)
      {
        AppendStep(d, si, ri);
        d := d + [Card(Ranks[ri], Suits[si])];
        ri := ri + 1;
      }
      si := si + 1;
    }
    DeckIsComplete(d);
  }

  /** One step of makeDeck's inner loop: the next card goes at position 13 * si + ri. */
  lemma AppendStep(d: seq<Card>, si: nat, ri: nat)
    requires si < 4 && ri < 13 && |d| == 13 * si + ri
    requires forall k :: 0 <= k < |d| ==> d[k] == DeckCard(k)
    ensures forall k :: 0 <= k < |d| + 1 ==> (d + [Card(Ranks[ri], Suits[si])])[k] == DeckCard(k)
  {
    DeckCardAt(si, ri);
  }

  /** A sequence laid out like makeDeck's result holds each card exactly once. */
  lemma DeckIsComplete(d: seq<Card>)
    requires |d| == 52 && forall k :: 0 <= k < 52 ==> d[k] == DeckCard(k)
    ensures forall j, k :: 0 <= j < k < |d| ==> d[j] != d[k]
    ensures forall c: Card :: c in d
  {
    forall j, k | 0 <= j < k < |d| ensures d[j] != d[k] {
      if d[j] == d[k] {
        DeckCardInjective(j, k);
      }
    }
    forall c: Card ensures c in d {
      var si, ri := SuitIndex(c.suit), c.rank - 2;
      DeckCardAt(si, ri);
      assert d[13 * si + ri] == c;
    }
  }

  // ---------------- shuffle ----------------

  /** Draws of the injected random source, each in [0, 1) like Math.random. */
  predicate ValidDraws(rng: seq<real>)
  {
    forall k :: 0 <= k < |rng| ==> 0.0 <= rng[k] < 1.0
  }

  /** The swap partner Math.floor(u * (i + 1)) picked for position i; it lies in 0..i. */
  function SwapIndex(u: real, i: nat): (j: nat)
    requires 0.0 <= u < 1.0
    ensures j <= i
  {
    var x := (i + 1) as real;
    assert 0.0 <= u * x < x;
    (u * x).Floor
  }

  function Swap<T>(s: seq<T>, i: nat, j: nat): (r: seq<T>)
    requires i < |s| && j < |s|
  {
    s[i := s[j]][j := s[i]]
  }

  lemma SwapPermutes<T>(s: seq<T>, i: nat, j: nat)
    requires i < |s| && j < |s|
    ensures multiset(Swap(s, i, j)) == multiset(s)
  {
  }

  /** The shuffle from position i down to 1; draw number |x| - 1 - i serves position i. */
  function ShuffleFrom<T>(x: seq<T>, rng: seq<real>, i: int): (r: seq<T>)
    requires ValidDraws(rng) && i < |x| && |x| <= |rng| + 1
    ensures |r| == |x|
    decreases i
  {
    if i <= 0 then x
    else ShuffleFrom(Swap(x, i, SwapIndex(rng[|x| - 1 - i], i)), rng, i - 1)
  }

  /** shuffle(a, rng): the Fisher-Yates result for the given draws. */
  function Shuffled<T>(a: seq<T>, rng: seq<real>): (r: seq<T>)
    requires ValidDraws(rng) && |a| <= |rng| + 1
    ensures |r| == |a|
  {
    ShuffleFrom(a, rng, |a| - 1)
  }

  lemma {:induction false} ShuffleFromPermutes<T>(x: seq<T>, rng: seq<real>, i: int)
    requires ValidDraws(rng) && i < |x| && |x| <= |rng| + 1
    ensures |ShuffleFrom(x, rng, i)| == |x|
    ensures multiset(ShuffleFrom(x, rng, i)) == multiset(x)
    decreases i
  {
    if i > 0 {
      var y := Swap(x, i, SwapIndex(rng[|x| - 1 - i], i));
      SwapPermutes(x, i, SwapIndex(rng[|x| - 1 - i], i));
      ShuffleFromPermutes(y, rng, i - 1);
    }
  }

  /** Shuffling returns a permutation of its input: same length, same multiset of elements. */
  lemma ShuffledIsPermutation<T>(a: seq<T>, rng: seq<real>)
    requires ValidDraws(rng) && |a| <= |rng| + 1
    ensures |Shuffled(a, rng)| == |a|
    ensures multiset(Shuffled(a, rng)) == multiset(a)
  {
    ShuffleFromPermutes(a, rng, |a| - 1);
  }

  /** Exchanges two entries of an array in place. */
  method SwapAt<T>(x: array<T>, i: nat, j: nat)
    requires i < x.Length && j < x.Length
    modifies x
    ensures x[..] == Swap(old(x[..]), i, j)
  {
    x[i], x[j] := x[j], x[i];
  }

  /**
   * shuffle: copies its argument into a fresh array and swaps in place from the
   * top down. The argument is a value, so it cannot change.
   */
  method Shuffle<T>(a: seq<T>, rng: seq<real>) returns (r: seq<T>)
    requires ValidDraws(rng) && |a| <= |rng| + 1
    ensures r == Shuffled(a, rng)
    ensures |r| == |a| && multiset(r) == multiset(a)
  {
    var x := new T[|a|](k requires 0 <= k < |a| => a[k]);
    assert x[..] == a;
    var i := x.Length - 1;
    while i > 0
      invariant -1 <= i < x.Length
      invariant ShuffleFrom(x[..], rng, i) == Shuffled(a, rng)
    {
      var j := SwapIndex(rng[x.Length - 1 - i], i);
      SwapAt(x, i, j);
      i := i - 1;
    }
    r := x[..];
    ShuffledIsPermutation(a, rng);
  }

  /**
   * The deck a hand starts from, shuffle(makeDeck()): the Fisher–Yates
   * permutation of makeDeck's layout that the draws select, so 52 cards in
   * which every card occurs exactly once.
   */
  method ShuffledDeck(rng: seq<real>) returns (d: seq<Card>)
    requires ValidDraws(rng) && |rng| >= 51
    ensures d == Shuffled(Unshuffled(), rng)
    ensures |d| == 52 && forall c: Card :: Count(d, c) == 1
  {
    var full := MakeDeck();
    assert full == Unshuffled();
    d := Shuffle(full, rng);
    DistinctCounts(full);
    forall c: Card ensures Count(d, c) == 1 {
      assert c in full;
      assert Count(full, c) >= 1;
    }
  }
}
