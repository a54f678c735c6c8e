/**
 * The bots' betting policy: the coach's preflop tree with concrete raise
 * sizes, and a postflop tree that bets made hands and sometimes continues a
 * preflop raise or bluffs a draw. The three random draws against the
 * persona's frequencies are boolean inputs here.
 *
 * Sizes are whole chips: Math.round(2.5 x) is (5 x + 1) / 2, Math.round(p / 2)
 * is (p + 1) / 2, Math.round(0.4 p) is (4 p + 5) / 10, and the floor of 0.4 p
 * is (4 p) / 10. The floor of the double product p · 0.35 is not always
 * (35 p) / 100: Doubles.FloorTimes035 models it.
 */
module Bot {
  import opened Types
  import opened Scores
  import opened Personas
  import Engine
  import Eval
  import Coach
  import Doubles

  /** Outcomes of the flop continuation-bet, turn continuation-bet and bluff draws. */
  datatype Coins = Coins(cbetFlop: bool, cbetTurn: bool, bluff: bool)

  const NoCoins: Coins := Coins(false, false, false)

  function Max(a: int, b: int): int
  {
    if a >= b then a else b
  }

  /** The seat takes no decision: it has folded or is all in. */
  predicate Idle(p: Player)
  {
    p.folded || p.allIn
  }

  /** What botAction needs of the seat: it exists, and a live seat holds two cards preflop. */
  predicate CanAsk(st: Snapshot, i: nat)
  {
    i < |st.players| && (st.street == Preflop && !Idle(st.players[i]) ==> |st.players[i].cards| >= 2)
  }

  function MinRaise(st: Snapshot): nat
    requires |st.players| > 0
  {
    Engine.MinRaiseTarget(st.players, st.lastRaiseSize, st.bb)
  }

  /** madeStrong: a pair or better, and trips or better or a pair (or two pair) topped by a jack or better. */
  predicate MadeStrong(s: Score)
  {
    At(s, 0) >= 1 && (At(s, 0) >= 3 || At(s, 1) >= 11)
  }

  /** drawy: a four-card flush draw or four to a straight, with at least a flop out. */
  predicate Drawy(cards: seq<Card>)
  {
    Eval.HasFlushDraw(cards, 3) || Eval.OpenEnder(cards, 3)
  }

  /** The calling price against a postflop bet with a draw: three big blinds or 35% of the pot. */
  predicate PricedDraw(need: nat, st: Snapshot)
  {
    need <= 3 * st.bb || need <= Doubles.FloorTimes035(PotLike(st))
  }

  /**
   * The draw price in whole chips: 35% of the pot rounded down, one chip less
   * on the pots where the double product falls below a whole number.
   */
  lemma PricedDrawExact(need: nat, st: Snapshot)
    requires PotLike(st) < 0x100_0000_0000
    ensures PricedDraw(need, st) <==>
      need <= 3 * st.bb
      || need <= (35 * PotLike(st)) / 100 - (if Doubles.RoundsBelow(PotLike(st)) then 1 else 0)
  {
    Doubles.FloorTimes035Exact(PotLike(st));
  }

  /** With a pot of 180 and blinds of at most 20, a draw calls 62 chips but folds to 63. */
  lemma PricedDrawPot180(st: Snapshot)
    requires PotLike(st) == 180 && st.bb <= 20
    ensures PricedDraw(62, st) && !PricedDraw(63, st)
  {
    Doubles.FloorTimes035At180();
  }

  /** The raise to the big blind's option or an isolation: the minimum raise, at least three big blinds. */
  function OptionRaise(st: Snapshot): Action
    requires |st.players| > 0
  {
    Raise(Some(Max(MinRaise(st), 3 * st.bb)))
  }

  /** The preflop tree; the unraised big blind facing a bet falls through to the later branches. */
  function PreflopAction(st: Snapshot, cfg: RangeCfg, r: int, pos: int, need: nat): (a: Action)
    requires |st.players| > 0
    ensures a.Raise? ==> a.to.Some? && a.to.value >= MinRaise(st)
  {
    if IsPreflopUnraised(st) && pos != 2 then
      if Reaches(r, cfg.open, pos) then Raise(Some(Max((5 * st.bb + 1) / 2, MinRaise(st))))
      else if Reaches(r, cfg.call, pos) then Call
      else Fold
    else if IsPreflopUnraised(st) && need == 0 then
      if Reaches(r, cfg.iso, pos) then OptionRaise(st) else Call
    else if IsLimpedPreflop(st) then
      if Coach.BigBlindOption(pos, need) then
        if Reaches(r, cfg.iso, pos) then OptionRaise(st) else Call
      else if Reaches(r, cfg.iso, pos) then
        Raise(Some(Max(MinRaise(st), Engine.MaxBet(st.players) + Max(2 * st.bb, 2 * need))))
      else if Reaches(r, cfg.call, pos) then Call
      else Fold
    else if r >= 10 * cfg.threeBet then
      Raise(Some(Max(MinRaise(st), Engine.MaxBet(st.players) + Max((5 * need + 1) / 2, 2 * st.bb))))
    else if Reaches(r, cfg.call, pos) && PricedPreflop(need, st) then Call
    else Fold
  }

  /** A postflop bet of the given size on top of the largest bet, at least the minimum raise. */
  function BetOf(st: Snapshot, size: nat): (a: Action)
    requires |st.players| > 0
  {
    Raise(Some(Max(MinRaise(st), Engine.MaxBet(st.players) + size)))
  }

  /** The postflop tree for seat i, its score s, whether it is drawing, and the coin outcomes. */
  function PostflopAction(st: Snapshot, i: nat, s: Score, drawy: bool, need: nat, coins: Coins): (a: Action)
    requires |st.players| > 0
    ensures a.Raise? ==> a.to.Some? && a.to.value >= MinRaise(st)
    ensures need == 0 ==> a != Fold && (MadeStrong(s) ==> a == BetOf(st, (PotLike(st) + 1) / 2))
    ensures need > 0 ==> !a.Raise? && (a == Call <==> MadeStrong(s) || (drawy && PricedDraw(need, st)))
  {
    var pot := PotLike(st);
    var continuing := st.prevAggressor == Some(i);
    if need == 0 then
      if MadeStrong(s) then BetOf(st, (pot + 1) / 2)
      else if st.street == Flop && continuing && coins.cbetFlop then BetOf(st, (pot + 1) / 2)
      else if st.street == Turn && continuing && coins.cbetTurn then BetOf(st, (pot + 1) / 2)
      else if drawy && coins.bluff then BetOf(st, (4 * pot + 5) / 10)
      else Call
    else if MadeStrong(s) then Call
    else if drawy && PricedDraw(need, st) then Call
    else Fold
  }

  /** The cards the seat plays postflop: its hole cards and the board. */
  function Seven(st: Snapshot, i: nat): seq<Card>
    requires i < |st.players|
  {
    st.players[i].cards + st.board
  }

  /** botAction for seat i with the given coin outcomes. */
  function BotAction(st: Snapshot, i: nat, cfg: RangeCfg, coins: Coins): (a: Action)
    requires CanAsk(st, i)
    ensures Idle(st.players[i]) ==> a == Call
    ensures st.street != Preflop && Engine.CountEligible(st.players) <= 1 ==> a == Call
    ensures a.Raise? ==> a.to.Some? && a.to.value >= MinRaise(st)
  {
    var p := st.players[i];
    if Idle(p) then Call
    else
      var need := Engine.ToCall(st.players, i);
      if st.street != Preflop && Engine.CountEligible(st.players) <= 1 then Call
      else if st.street == Preflop then
        PreflopAction(st, cfg, PreflopRating(p.cards[0], p.cards[1]), PosIndex(|st.players|, st.button, i), need)
      else
        PostflopAction(st, i, Coach.HandScore(st, i), Drawy(Seven(st, i)), need, coins)
  }

  // ---------------------------------------------------------------------------
  // Properties

  /** The bot's action is the kind the coach suggests; a check is a call of nothing. */
  predicate Follows(a: Action, h: Coach.Hint)
  {
    match h
    case Dash => false
    case HintRaise => a.Raise?
    case HintCheck => a == Call
    case HintCall => a == Call
    case HintFold => a == Fold
  }

  /** A live seat the bot decides for while the hand is preflop. */
  predicate PreflopTurn(st: Snapshot, i: nat)
  {
    && CanAsk(st, i) && !st.handEnded && st.street == Preflop
    && Coach.InHand(st.players[i]) && !st.players[i].allIn
  }

  /**
   * Preflop the bot takes the coach's advice, in every branch except the big
   * blind that faces a bet in an unraised pot, which the bot sends on to the
   * raised-pot rules.
   */
  lemma BotFollowsCoachPreflop(st: Snapshot, i: nat, cfg: RangeCfg, coins: Coins)
    requires PreflopTurn(st, i)
    requires !(IsPreflopUnraised(st)
               && PosIndex(|st.players|, st.button, i) == 2 && Engine.ToCall(st.players, i) > 0)
    ensures Follows(BotAction(st, i, cfg, coins), Coach.CoachHint(st, i, cfg))
  {
    UnraisedNotLimped(st);
  }

  /** The exception: that big blind three-bets a premium hand and otherwise calls only at a fair price. */
  lemma BotBigBlindFacingBet(st: Snapshot, i: nat, cfg: RangeCfg, coins: Coins)
    requires PreflopTurn(st, i)
    requires IsPreflopUnraised(st)
    requires PosIndex(|st.players|, st.button, i) == 2 && Engine.ToCall(st.players, i) > 0
    ensures var r := PreflopRating(st.players[i].cards[0], st.players[i].cards[1]);
      var a := BotAction(st, i, cfg, coins);
      && (a.Raise? <==> r >= 10 * cfg.threeBet)
      && (a == Call <==> r < 10 * cfg.threeBet && Reaches(r, cfg.call, 2)
                         && PricedPreflop(Engine.ToCall(st.players, i), st))
  {
    UnraisedNotLimped(st);
  }

  /** A live seat the bot decides for after the flop, with someone else still able to act. */
  predicate PostflopTurn(st: Snapshot, i: nat)
  {
    && CanAsk(st, i) && st.street != Preflop && !Idle(st.players[i])
    && Engine.CountEligible(st.players) > 1
  }

  /** With nothing to call after the flop the bot never folds, and it bets every strong made hand. */
  lemma BotFreeToAct(st: Snapshot, i: nat, cfg: RangeCfg, coins: Coins)
    requires PostflopTurn(st, i) && Engine.ToCall(st.players, i) == 0
    ensures BotAction(st, i, cfg, coins) != Fold
    ensures MadeStrong(Coach.HandScore(st, i)) ==> BotAction(st, i, cfg, coins).Raise?
  {
  }

  /** Facing a bet after the flop the bot never raises: it calls a strong hand or a fairly priced draw and folds the rest. */
  lemma BotFacingBet(st: Snapshot, i: nat, cfg: RangeCfg, coins: Coins)
    requires PostflopTurn(st, i) && Engine.ToCall(st.players, i) > 0
    ensures !BotAction(st, i, cfg, coins).Raise?
    ensures BotAction(st, i, cfg, coins) == Call <==>
      MadeStrong(Coach.HandScore(st, i))
      || (Drawy(Seven(st, i)) && PricedDraw(Engine.ToCall(st.players, i), st))
  {
  }

  /**
   * The coins only matter where the source draws them: a flop or turn
   * continuation bet by the last street's aggressor, or a bluff with a draw,
   * each with nothing to call and no strong made hand.
   */
  lemma CoinsMatterOnlyThere(st: Snapshot, i: nat, cfg: RangeCfg, c1: Coins, c2: Coins)
    requires CanAsk(st, i)
    requires BotAction(st, i, cfg, c1) != BotAction(st, i, cfg, c2)
    ensures PostflopTurn(st, i) && Engine.ToCall(st.players, i) == 0
    ensures !MadeStrong(Coach.HandScore(st, i))
    ensures || (c1.cbetFlop != c2.cbetFlop && st.street == Flop && st.prevAggressor == Some(i))
            || (c1.cbetTurn != c2.cbetTurn && st.street == Turn && st.prevAggressor == Some(i))
            || (c1.bluff != c2.bluff && Drawy(Seven(st, i)))
  {
  }

  /** With every draw failing, the bot bets after the flop only with a strong made hand. */
  lemma NoCoinsBetsOnlyValue(st: Snapshot, i: nat, cfg: RangeCfg)
    requires CanAsk(st, i) && st.street != Preflop
    ensures BotAction(st, i, cfg, NoCoins).Raise? ==> MadeStrong(Coach.HandScore(st, i))
  {
  }

  /** Against a bet after the flop the bot continues with every hand the coach would continue with. */
  lemma BotStickierThanCoach(st: Snapshot, i: nat, cfg: RangeCfg, coins: Coins)
    requires PostflopTurn(st, i) && st.street != Showdown && !st.handEnded
    requires Coach.InHand(st.players[i]) && Engine.ToCall(st.players, i) > 0
    ensures Coach.CoachHint(st, i, cfg) == Coach.HintCall ==> BotAction(st, i, cfg, coins) == Call
    ensures BotAction(st, i, cfg, coins) == Fold ==> Coach.CoachHint(st, i, cfg) == Coach.HintFold
  {
  }

  /** Tighter thresholds make the bot no more aggressive, just as they do the coach. */
  lemma BotTierMonotone(st: Snapshot, i: nat, loose: RangeCfg, tight: RangeCfg, coins: Coins)
    requires CanAsk(st, i) && NoLooser(loose, tight)
    ensures BotAction(st, i, tight, coins).Raise? ==> BotAction(st, i, loose, coins).Raise?
    ensures BotAction(st, i, loose, coins) == Fold ==> BotAction(st, i, tight, coins) == Fold
  {
  }
}
