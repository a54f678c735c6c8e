/**
 * Hand-strength rating, seat positions and the three tiers of per-position
 * thresholds the coach and the bots read, plus the preflop situation tests
 * (unraised or limped) they branch on.
 *
 * The rating is kept in tenths: the source's hi + lo / 10 becomes
 * 10 * hi + lo, and a threshold T is reached when the tenths reach 10 * T.
 */
module Personas {
  import opened Types
  import opened Sequences
  import Engine

  datatype Tier = Loose | Standard | Tight

  /** RANGES: the opening, calling, isolation and three-bet thresholds of each tier. */
  function Ranges(t: Tier): RangeCfg
  {
    match t
    case Loose =>
      RangeCfg([20, 26, 999, 22, 20, 18], [18, 20, 18, 18, 16, 14], [24, 28, 999, 24, 22, 20], 48)
    case Standard =>
      RangeCfg([24, 28, 999, 24, 22, 18], [20, 22, 18, 20, 18, 16], [28, 30, 999, 26, 24, 22], 50)
    case Tight =>
      RangeCfg([28, 32, 999, 26, 24, 20], [22, 24, 20, 22, 20, 18], [32, 34, 999, 30, 28, 24], 54)
  }

  /** personaToRange: the tight-passive persona plays tight, the loose one loose, the rest standard. */
  function PersonaToRange(p: Persona): (t: Tier)
    ensures t == Tight <==> p == Nit
    ensures t == Loose <==> p == Lag
    ensures t == Standard <==> p == Tag
  {
    match p
    case Nit => Tight
    case Lag => Loose
    case Tag => Standard
  }

  /** Each threshold of a is at most the same threshold of b, position by position. */
  predicate NoLooser(a: RangeCfg, b: RangeCfg)
  {
    && |a.open| == |b.open| && |a.call| == |b.call| && |a.iso| == |b.iso|
    && (forall k :: 0 <= k < |a.open| ==> a.open[k] <= b.open[k])
    && (forall k :: 0 <= k < |a.call| ==> a.call[k] <= b.call[k])
    && (forall k :: 0 <= k < |a.iso| ==> a.iso[k] <= b.iso[k])
    && a.threeBet <= b.threeBet
  }

  /** The tiers are ordered loose, standard, tight at every position and for the three-bet. */
  lemma TiersOrdered()
    ensures NoLooser(Ranges(Loose), Ranges(Standard))
    ensures NoLooser(Ranges(Standard), Ranges(Tight))
    ensures NoLooser(Ranges(Loose), Ranges(Tight))
  {
  }

  /** A tighter persona never meets a threshold that a looser one misses. */
  lemma PersonasOrdered()
    ensures NoLooser(Ranges(PersonaToRange(Lag)), Ranges(PersonaToRange(Tag)))
    ensures NoLooser(Ranges(PersonaToRange(Tag)), Ranges(PersonaToRange(Nit)))
  {
    TiersOrdered();
  }

  /** Every tier has six positions, and the big blind's open and isolation thresholds are 999. */
  lemma BigBlindSentinels(t: Tier)
    ensures |Ranges(t).open| == 6 && |Ranges(t).call| == 6 && |Ranges(t).iso| == 6
    ensures Ranges(t).open[2] == 999 && Ranges(t).iso[2] == 999
  {
  }

  // ---------------------------------------------------------------------------
  // Preflop rating

  /**
   * preflopRating in tenths: a pair bonus of 40 plus twice the rank, 3 for
   * suited, 6 and 3 for a high and low card of jack or better, 2 for
   * connected and 1 for a one-gap hand, and the higher rank plus a tenth of
   * the lower.
   */
  function PreflopRating(a: Card, b: Card): int
  {
    var hi := if a.rank >= b.rank then a else b;
    var lo := if a.rank >= b.rank then b else a;
    var pair := if a.rank == b.rank then 40 + a.rank * 2 else 0;
    var suited := if a.suit == b.suit then 3 else 0;
    var broad := (if hi.rank >= 11 then 6 else 0) + (if lo.rank >= 11 then 3 else 0);
    var gap := if a.rank >= b.rank then a.rank - b.rank else b.rank - a.rank;
    var conn := if gap <= 1 then 2 else if gap == 2 then 1 else 0;
    10 * (pair + suited + broad + conn + hi.rank) + lo.rank
  }

  /** The rating reaches threshold position pos of a table; a missing position is never reached. */
  predicate Reaches(r: int, table: seq<int>, pos: int)
  {
    0 <= pos < |table| && r >= 10 * table[pos]
  }

  /** The order of the two hole cards does not matter. */
  lemma RatingSymmetric(a: Card, b: Card)
    ensures PreflopRating(a, b) == PreflopRating(b, a)
  {
  }

  /** Suited cards rate exactly 3 (30 tenths) above the same ranks offsuit. */
  lemma SuitedBonus(a: Card, b: Card, c: Card, d: Card)
    requires a.rank == c.rank && b.rank == d.rank
    requires a.suit == b.suit && c.suit != d.suit
    ensures PreflopRating(a, b) == PreflopRating(c, d) + 30
  {
  }

  /** Every pocket pair rates above every unpaired hand: at least 48.2 against at most 29.3. */
  lemma PairsRateHighest(a: Card, b: Card, c: Card, d: Card)
    requires a.rank == b.rank && c.rank != d.rank
    ensures PreflopRating(a, b) > PreflopRating(c, d)
  {
    assert PreflopRating(a, b) >= 482;
    assert PreflopRating(c, d) <= 293;
  }

  /** No hand reaches 999, so the big blind's open and isolation entries are never met. */
  lemma RatingBelowSentinel(a: Card, b: Card, t: Tier)
    ensures PreflopRating(a, b) < 9990
    ensures !Reaches(PreflopRating(a, b), Ranges(t).open, 2)
    ensures !Reaches(PreflopRating(a, b), Ranges(t).iso, 2)
  {
  }

  // ---------------------------------------------------------------------------
  // Positions

  /** JavaScript's %: the remainder takes the sign of the dividend. */
  function Rem(x: int, n: int): int
    requires n > 0
  {
    if x >= 0 then x % n else -((-x) % n)
  }

  /** posIndexFromButton: 0 button, 1 small blind, 2 big blind, 3 first to act, ... */
  function PosIndex(n: nat, button: int, i: int): int
    requires n > 0
  {
    Rem(i - button + n, n)
  }

  /** One wrap: a value below twice the modulus loses the modulus at most once. */
  lemma ModOnce(x: int, n: int)
    requires 0 <= x < 2 * n
    ensures x % n == if x < n then x else x - n
  {
    if x >= n {
      assert x == n * 1 + (x - n);
    }
  }

  /** For seats on the table, the position is a seat offset in 0..n-1, and 0 exactly at the button. */
  lemma PosIndexRange(n: nat, button: nat, i: nat)
    requires button < n && i < n
    ensures 0 <= PosIndex(n, button, i) < n
    ensures PosIndex(n, button, i) == 0 <==> i == button
    ensures Engine.Around(button, PosIndex(n, button, i) as nat, n) == i
  {
    ModOnce(i - button + n, n);
  }

  /** With three or more seats, the seat two after the button (the big blind's) has position 2. */
  lemma BigBlindPosition(n: nat, button: nat)
    requires 3 <= n && button < n
    ensures PosIndex(n, button, Engine.NextIdx(Engine.NextIdx(button, n), n)) == 2
  {
    var s := Engine.NextIdx(button, n);
    Engine.NextIdxWraps(button, n);
    Engine.NextIdxWraps(s, n);
    var b := Engine.NextIdx(s, n);
    ModOnce(b - button + n, n);
  }

  // ---------------------------------------------------------------------------
  // Preflop situations

  /** posted: the number of seats with a positive bet. */
  function Posted(ps: seq<Player>): (r: nat)
    ensures r <= |ps|
  {
    if ps == [] then 0 else Posted(ps[..|ps| - 1]) + (if ps[|ps| - 1].bet > 0 then 1 else 0)
  }

  /** The positive-bet seats, listed in seat order. */
  function PostedSeats(ps: seq<Player>): (r: seq<nat>)
  {
    if ps == [] then [] else PostedSeats(ps[..|ps| - 1]) + (if ps[|ps| - 1].bet > 0 then [|ps| - 1] else [])
  }

  /** The count is the number of seats with a positive bet: those seats, each once, in order. */
  lemma {:induction false} PostedCounts(ps: seq<Player>)
    ensures Posted(ps) == |PostedSeats(ps)|
    ensures forall k :: 0 <= k < |PostedSeats(ps)| ==>
      PostedSeats(ps)[k] < |ps| && ps[PostedSeats(ps)[k]].bet > 0
    ensures forall i :: 0 <= i < |ps| && ps[i].bet > 0 ==> i in PostedSeats(ps)
    ensures forall j, k :: 0 <= j < k < |PostedSeats(ps)| ==> PostedSeats(ps)[j] < PostedSeats(ps)[k]
  {
    if ps != [] {
      var n := |ps| - 1;
      var p := ps[..n];
      var q := PostedSeats(p);
      PostedCounts(p);
      var tail: seq<nat> := if ps[n].bet > 0 then [n] else [];
      assert PostedSeats(ps) == q + tail;
      forall k | 0 <= k < |q| ensures q[k] < n && ps[q[k]] == p[q[k]] {
      }
      forall i | 0 <= i < |ps| && ps[i].bet > 0 ensures i in q + tail {
        if i < n {
          assert p[i] == ps[i];
        }
      }
    }
  }

  /** No seat's bet exceeds x (Math.max over no seats is minus infinity, below every x). */
  predicate BetsAtMost(ps: seq<Player>, x: int)
  {
    forall k :: 0 <= k < |ps| ==> ps[k].bet <= x
  }

  /** isPreflopUnraised: preflop, nobody above the big blind, and at most the two blinds in. */
  predicate IsPreflopUnraised(st: Snapshot)
  {
    st.street == Preflop && BetsAtMost(st.players, st.bb) && Posted(st.players) <= 2
  }

  /** isLimpedPreflop: preflop, the largest bet is exactly the big blind, and more than two seats in. */
  predicate IsLimpedPreflop(st: Snapshot)
  {
    st.street == Preflop && |st.players| > 0 && Engine.MaxBet(st.players) == st.bb && Posted(st.players) > 2
  }

  /** Unraised, stated with the table's largest bet. */
  lemma UnraisedMeaning(st: Snapshot)
    requires |st.players| > 0
    ensures IsPreflopUnraised(st) <==>
      st.street == Preflop && Engine.MaxBet(st.players) <= st.bb && Posted(st.players) <= 2
  {
    Engine.MaxBetMeaning(st.players);
  }

  /** Limped, stated seat by seat: nobody above the big blind, somebody at it, more than two seats in. */
  lemma LimpedMeaning(st: Snapshot)
    ensures IsLimpedPreflop(st) <==>
      && st.street == Preflop && BetsAtMost(st.players, st.bb)
      && (exists k :: 0 <= k < |st.players| && st.players[k].bet == st.bb)
      && Posted(st.players) > 2
  {
    if |st.players| > 0 {
      Engine.MaxBetMeaning(st.players);
    }
  }

  /** A pot is never both unraised and limped. */
  lemma UnraisedNotLimped(st: Snapshot)
    ensures !(IsPreflopUnraised(st) && IsLimpedPreflop(st))
  {
  }

  /** When only two seats have bet, at most two seats count as posted. */
  lemma TwoBettors(ps: seq<Player>, s: nat, b: nat)
    requires forall k :: 0 <= k < |ps| && k != s && k != b ==> ps[k].bet == 0
    ensures Posted(ps) <= 2
  {
    PostedCounts(ps);
    var q := PostedSeats(ps);
    if |q| > 2 {
      assert false;
    }
  }

  /**
   * Every hand opens unraised: once the small and big blind are posted on a
   * table with no bets, the preflop pot passes isPreflopUnraised.
   */
  lemma HandStartsUnraised(ps: seq<Player>, button: nat, st: Snapshot)
    requires 2 <= |ps| && button < |ps|
    requires forall i :: 0 <= i < |ps| ==> ps[i].bet == 0
    requires st.players == Engine.Blinded(ps, button, Engine.SmallBlind, Engine.BigBlind)
    requires st.street == Preflop && st.bb == Engine.BigBlind
    ensures IsPreflopUnraised(st)
  {
    Engine.BlindedMeaning(ps, button, Engine.SmallBlind, Engine.BigBlind);
    var n := |ps|;
    TwoBettors(st.players, Engine.NextIdx(button, n), Engine.NextIdx(Engine.NextIdx(button, n), n));
  }

  /** pot-like: the chips already in the pot plus the bets in front of the seats. */
  function PotLike(st: Snapshot): nat
  {
    st.potCommitted + Sum(Engine.Bets(st.players))
  }

  /** The calling price both policies accept against a preflop raise: three big blinds or 40% of the pot. */
  predicate PricedPreflop(need: nat, st: Snapshot)
  {
    need <= 3 * st.bb || need <= (4 * PotLike(st)) / 10
  }
}
