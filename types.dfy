/**
 * The value types shared by the poker engine: cards, hand scores, streets,
 * players, range tables, actions, and the read-only table snapshot that the
 * decision policy consumes.
 */
module Types {

  datatype Option<T> = None | Some(value: T)

  datatype Suit = Spades | Hearts | Diamonds | Clubs

  /** Card ranks run from 2 to 14; 14 is the ace. */
  type Rank = r: int | 2 <= r <= 14 witness 2

  datatype Card = Card(rank: Rank, suit: Suit)

  /** A hand score: [category, kicker1, kicker2, ...], category 0 (high card) .. 8 (straight flush). */
  type Score = seq<int>

  datatype Street = Preflop | Flop | Turn | River | Showdown

  /**
   * One seat. Display name, id and the human flag only feed labels and the
   * driver, so they are not part of this model.
   */
  datatype Player = Player(
    stack: nat,
    bet: nat,
    folded: bool,
    allIn: bool,
    acted: bool,
    cards: seq<Card>)

  /** The three bot personas: tight-passive, tight-aggressive, loose-aggressive. */
  datatype Persona = Nit | Tag | Lag

  /** Per-position opening, calling and isolation thresholds plus one three-bet threshold. */
  datatype RangeCfg = RangeCfg(open: seq<int>, call: seq<int>, iso: seq<int>, threeBet: int)

  /** The action vocabulary of the betting state machine; a raise may omit its target. */
  datatype Action = Fold | Call | Raise(to: Option<int>)

  /** The part of the table state that the decision policy reads. */
  datatype Snapshot = Snapshot(
    players: seq<Player>,
    board: seq<Card>,
    street: Street,
    button: nat,
    bb: nat,
    potCommitted: nat,
    lastRaiseSize: nat,
    handEnded: bool,
    prevAggressor: Option<nat>)
}
