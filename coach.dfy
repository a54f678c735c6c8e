/**
 * The coach: a read-only decision tree that suggests Raise, Check, Call or
 * Fold to the seat to act, or nothing ("—") when the hand is over or the
 * seat is out. Preflop it reads the hand rating against the position's
 * thresholds; postflop it reads the best five-card score.
 */
module Coach {
  import opened Types
  import opened Scores
  import opened Personas
  import Engine
  import Eval

  /** The suggestion; Dash is the "—" shown when there is nothing to do. */
  datatype Hint = Dash | HintRaise | HintCheck | HintCall | HintFold

  /** The seat still holds a hand the coach can read. */
  predicate InHand(p: Player)
  {
    !p.folded && |p.cards| >= 2
  }

  /** The big blind's option: position 2 with nothing to call. */
  predicate BigBlindOption(pos: int, need: nat)
  {
    pos == 2 && need == 0
  }

  /** The preflop branch, given the rating r (in tenths), the position and the amount to call. */
  function PreflopHint(st: Snapshot, cfg: RangeCfg, r: int, pos: int, need: nat): (h: Hint)
    ensures h != Dash
    ensures h == HintCheck ==> need == 0
  {
    if IsPreflopUnraised(st) then
      if BigBlindOption(pos, need) then
        if Reaches(r, cfg.iso, pos) then HintRaise else HintCheck
      else if Reaches(r, cfg.open, pos) then HintRaise
      else if Reaches(r, cfg.call, pos) then HintCall
      else HintFold
    else if IsLimpedPreflop(st) then
      if BigBlindOption(pos, need) then
        if Reaches(r, cfg.iso, pos) then HintRaise else HintCheck
      else if Reaches(r, cfg.iso, pos) then HintRaise
      else if Reaches(r, cfg.call, pos) then HintCall
      else HintFold
    else if r >= 10 * cfg.threeBet then HintRaise
    else if Reaches(r, cfg.call, pos) && PricedPreflop(need, st) then HintCall
    else HintFold
  }

  /** decent: trips or better, or one pair of queens or better. */
  predicate Decent(s: Score)
  {
    At(s, 0) >= 3 || (At(s, 0) == 1 && At(s, 1) >= 12)
  }

  /** The postflop branch: check when free, otherwise call a decent hand and fold the rest. */
  function PostflopHint(need: nat, s: Score): (h: Hint)
    ensures h != Dash && h != HintRaise
    ensures h == HintCheck <==> need == 0
  {
    if need == 0 then HintCheck
    else if Decent(s) then HintCall
    else HintFold
  }

  /** The seat's best score from its hole cards and the board. */
  function HandScore(st: Snapshot, i: nat): Score
    requires i < |st.players|
  {
    Eval.Best7(st.players[i].cards + st.board)
  }

  /**
   * coachHint for seat i. The seat is only looked at while the hand is
   * running, so only then must it exist.
   */
  function CoachHint(st: Snapshot, i: nat, cfg: RangeCfg): (h: Hint)
    requires !st.handEnded && st.street != Showdown ==> i < |st.players|
    ensures h == Dash <==> st.handEnded || st.street == Showdown || !InHand(st.players[i])
    ensures h == HintCheck ==> Engine.ToCall(st.players, i) == 0
  {
    if st.handEnded || st.street == Showdown then Dash
    else if !InHand(st.players[i]) then Dash
    else
      var p := st.players[i];
      var need := Engine.ToCall(st.players, i);
      if st.street == Preflop then
        PreflopHint(st, cfg, PreflopRating(p.cards[0], p.cards[1]), PosIndex(|st.players|, st.button, i), need)
      else PostflopHint(need, HandScore(st, i))
  }

  /** A seat the coach advises on: the hand runs and the seat holds live cards. */
  predicate Advised(st: Snapshot, i: nat)
  {
    !st.handEnded && st.street != Showdown && i < |st.players| && InHand(st.players[i])
  }

  /** The big blind in an unraised pot with nothing to call: raise with an isolation hand, otherwise check. */
  lemma CoachUnraisedOption(st: Snapshot, i: nat, cfg: RangeCfg)
    requires Advised(st, i) && IsPreflopUnraised(st)
    requires PosIndex(|st.players|, st.button, i) == 2 && Engine.ToCall(st.players, i) == 0
    ensures CoachHint(st, i, cfg) == HintRaise <==>
      Reaches(PreflopRating(st.players[i].cards[0], st.players[i].cards[1]), cfg.iso, 2)
    ensures CoachHint(st, i, cfg) != HintRaise ==> CoachHint(st, i, cfg) == HintCheck
  {
  }

  /** Any other seat in an unraised pot: raise with an opening hand, call a calling hand, fold the rest. */
  lemma CoachUnraisedOpen(st: Snapshot, i: nat, cfg: RangeCfg)
    requires Advised(st, i) && IsPreflopUnraised(st)
    requires !BigBlindOption(PosIndex(|st.players|, st.button, i), Engine.ToCall(st.players, i))
    ensures var r := PreflopRating(st.players[i].cards[0], st.players[i].cards[1]);
      var pos := PosIndex(|st.players|, st.button, i);
      && (CoachHint(st, i, cfg) == HintRaise <==> Reaches(r, cfg.open, pos))
      && (CoachHint(st, i, cfg) == HintCall <==> !Reaches(r, cfg.open, pos) && Reaches(r, cfg.call, pos))
      && (CoachHint(st, i, cfg) == HintFold <==> !Reaches(r, cfg.open, pos) && !Reaches(r, cfg.call, pos))
  {
  }

  /** Limped pots follow the same tree with the isolation thresholds in place of the opening ones. */
  lemma CoachLimped(st: Snapshot, i: nat, cfg: RangeCfg)
    requires Advised(st, i) && IsLimpedPreflop(st)
    ensures var r := PreflopRating(st.players[i].cards[0], st.players[i].cards[1]);
      var pos := PosIndex(|st.players|, st.button, i);
      var need := Engine.ToCall(st.players, i);
      && (CoachHint(st, i, cfg) == HintRaise <==> Reaches(r, cfg.iso, pos))
      && (BigBlindOption(pos, need) ==> CoachHint(st, i, cfg) in {HintRaise, HintCheck})
      && (!BigBlindOption(pos, need) ==>
            && (CoachHint(st, i, cfg) == HintCall <==> !Reaches(r, cfg.iso, pos) && Reaches(r, cfg.call, pos))
            && (CoachHint(st, i, cfg) == HintFold <==> !Reaches(r, cfg.iso, pos) && !Reaches(r, cfg.call, pos)))
  {
    UnraisedNotLimped(st);
  }

  /** Against a raise: three-bet a premium hand, call a calling hand at a fair price, fold the rest. */
  lemma CoachRaised(st: Snapshot, i: nat, cfg: RangeCfg)
    requires Advised(st, i) && st.street == Preflop
    requires !IsPreflopUnraised(st) && !IsLimpedPreflop(st)
    ensures var r := PreflopRating(st.players[i].cards[0], st.players[i].cards[1]);
      var pos := PosIndex(|st.players|, st.button, i);
      var need := Engine.ToCall(st.players, i);
      && (CoachHint(st, i, cfg) == HintRaise <==> r >= 10 * cfg.threeBet)
      && (CoachHint(st, i, cfg) == HintCall <==>
            r < 10 * cfg.threeBet && Reaches(r, cfg.call, pos) && PricedPreflop(need, st))
      && CoachHint(st, i, cfg) != HintCheck
  {
  }

  /** Postflop the coach never raises: it checks exactly when nothing is owed, and facing a bet calls exactly a decent hand. */
  lemma CoachPostflop(st: Snapshot, i: nat, cfg: RangeCfg)
    requires Advised(st, i) && st.street != Preflop
    ensures CoachHint(st, i, cfg) != HintRaise
    ensures CoachHint(st, i, cfg) == HintCheck <==> Engine.ToCall(st.players, i) == 0
    ensures Engine.ToCall(st.players, i) > 0 ==>
      (CoachHint(st, i, cfg) == HintCall <==> Decent(HandScore(st, i)))
  {
  }

  /**
   * Tighter thresholds make the coach no more aggressive: whatever the tighter
   * table raises the looser one raises too, and whatever the looser one folds
   * the tighter one folds too.
   */
  lemma CoachTierMonotone(st: Snapshot, i: nat, loose: RangeCfg, tight: RangeCfg)
    requires !st.handEnded && st.street != Showdown ==> i < |st.players|
    requires NoLooser(loose, tight)
    ensures CoachHint(st, i, tight) == HintRaise ==> CoachHint(st, i, loose) == HintRaise
    ensures CoachHint(st, i, loose) == HintFold ==> CoachHint(st, i, tight) == HintFold
  {
  }
}
