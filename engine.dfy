/**
 * The betting state machine of one hand of no-limit Texas Hold'em: blinds,
 * hole cards, fold / call / raise, turn rotation, street changes and the
 * showdown. Chips are whole numbers. The pure helpers read a sequence of
 * seats; the table itself is a class whose methods update its fields and
 * its seat and contribution arrays in place.
 */
module Engine {
  import opened Types
  import opened Sequences
  import opened Scores
  import opened Pots
  import Deck
  import Eval

  const SmallBlind: nat := 5
  const BigBlind: nat := 10
  const StartingStack: nat := 1000

  // ---------------------------------------------------------------------------
  // Pure helpers over the seats

  function Stacks(ps: seq<Player>): seq<nat>
  {
    seq(|ps|, i requires 0 <= i < |ps| => ps[i].stack)
  }

  function Bets(ps: seq<Player>): seq<nat>
  {
    seq(|ps|, i requires 0 <= i < |ps| => ps[i].bet)
  }

  function FoldedFlags(ps: seq<Player>): seq<bool>
  {
    seq(|ps|, i requires 0 <= i < |ps| => ps[i].folded)
  }

  function MinNat(a: nat, b: nat): nat
  {
    if a < b then a else b
  }

  /** nextIdx: the seat after i, wrapping around the table. */
  function NextIdx(i: nat, n: nat): nat
    requires n > 0
  {
    (i + 1) % n
  }

  /** maxBet: the largest bet on the table. */
  function MaxBet(ps: seq<Player>): nat
    requires |ps| > 0
    decreases |ps|
  {
    if |ps| == 1 then ps[0].bet
    else
      var m := MaxBet(ps[..|ps| - 1]);
      if ps[|ps| - 1].bet > m then ps[|ps| - 1].bet else m
  }

  /** The largest bet is some seat's bet and no seat's bet exceeds it. */
  lemma {:induction false} MaxBetMeaning(ps: seq<Player>)
    requires |ps| > 0
    ensures forall i :: 0 <= i < |ps| ==> ps[i].bet <= MaxBet(ps)
    ensures exists i :: 0 <= i < |ps| && ps[i].bet == MaxBet(ps)
    decreases |ps|
  {
    if |ps| == 1 {
      assert ps[0].bet == MaxBet(ps);
    } else {
      var p := ps[..|ps| - 1];
      MaxBetMeaning(p);
      var j :| 0 <= j < |p| && p[j].bet == MaxBet(p);
      assert ps[j] == p[j];
      if ps[|ps| - 1].bet > MaxBet(p) {
        assert ps[|ps| - 1].bet == MaxBet(ps);
      } else {
        assert ps[j].bet == MaxBet(ps);
      }
      forall i | 0 <= i < |ps| ensures ps[i].bet <= MaxBet(ps) {
        if i < |ps| - 1 {
          assert ps[i] == p[i];
        }
      }
    }
  }

  /** Bets that agree seat by seat have the same largest bet. */
  lemma {:induction false} MaxBetOfBets(ps: seq<Player>, qs: seq<Player>)
    requires |ps| > 0 && Bets(ps) == Bets(qs)
    ensures MaxBet(ps) == MaxBet(qs)
    decreases |ps|
  {
    assert |qs| == |Bets(qs)|;
    if |ps| > 1 {
      assert Bets(ps[..|ps| - 1]) == Bets(ps)[..|ps| - 1];
      assert Bets(qs[..|qs| - 1]) == Bets(qs)[..|qs| - 1];
      MaxBetOfBets(ps[..|ps| - 1], qs[..|qs| - 1]);
      assert ps[|ps| - 1].bet == Bets(ps)[|ps| - 1];
      assert qs[|qs| - 1].bet == Bets(qs)[|qs| - 1];
    } else {
      assert ps[0].bet == Bets(ps)[0];
      assert qs[0].bet == Bets(qs)[0];
    }
  }

  /** toCall: what seat i must add to match the largest bet; never negative. */
  function ToCall(ps: seq<Player>, i: nat): (r: nat)
    requires i < |ps|
    ensures ps[i].bet + r == MaxBet(ps)
  {
    MaxBetMeaning(ps);
    var diff := MaxBet(ps) - ps[i].bet;
    if diff <= 0 then 0 else diff
  }

  /** minRaiseTarget: the largest bet plus the last raise size, at least one big blind. */
  function MinRaiseTarget(ps: seq<Player>, lastRaiseSize: nat, bb: nat): (r: nat)
    requires |ps| > 0
    ensures r >= MaxBet(ps) + lastRaiseSize && r >= MaxBet(ps) + bb
    ensures r == MaxBet(ps) + lastRaiseSize || r == MaxBet(ps) + bb
  {
    MaxBet(ps) + (if lastRaiseSize > bb then lastRaiseSize else bb)
  }

  /** The target step gives raiseToAction: the requested amount (or the largest bet) clamped up to the minimum raise. */
  function RaiseTarget(ps: seq<Player>, lastRaiseSize: nat, bb: nat, to: Option<int>): nat
    requires |ps| > 0
  {
    var least := MinRaiseTarget(ps, lastRaiseSize, bb);
    var asked := if to.Some? then to.value else MaxBet(ps);
    if least >= asked then least else asked
  }

  /**
   * Every raise step passes on is at least the largest bet plus the larger of
   * the last raise and the big blind, and a larger request passes unchanged.
   */
  lemma RaiseTargetClamped(ps: seq<Player>, lastRaiseSize: nat, bb: nat, to: Option<int>)
    requires |ps| > 0
    ensures RaiseTarget(ps, lastRaiseSize, bb, to) >= MaxBet(ps) + lastRaiseSize
    ensures RaiseTarget(ps, lastRaiseSize, bb, to) >= MaxBet(ps) + bb
    ensures to.Some? && to.value >= MinRaiseTarget(ps, lastRaiseSize, bb) ==>
      RaiseTarget(ps, lastRaiseSize, bb, to) == to.value
    ensures (to.None? || to.value <= MinRaiseTarget(ps, lastRaiseSize, bb)) ==>
      RaiseTarget(ps, lastRaiseSize, bb, to) == MinRaiseTarget(ps, lastRaiseSize, bb)
  {
  }

  /** With a largest bet of 40 and a last raise of 20, a request to raise to 45 becomes 60. */
  lemma RaiseTargetExample()
    ensures RaiseTarget([Player(960, 40, false, false, true, []), Player(990, 10, false, false, false, [])],
      20, 10, Some(45)) == 60
  {
    var ps := [Player(960, 40, false, false, true, []), Player(990, 10, false, false, false, [])];
    assert ps[..1] == [ps[0]];
    assert MaxBet(ps) == 40;
  }

  /** A seat that can still act: not folded, not all in, chips behind. */
  predicate Eligible(p: Player)
  {
    !p.folded && !p.allIn && p.stack > 0
  }

  /** countEligible: how many seats can still act. */
  function CountEligible(ps: seq<Player>): (r: nat)
    ensures r <= |ps|
    ensures r == 0 <==> forall i :: 0 <= i < |ps| ==> !Eligible(ps[i])
    ensures r == |ps| <==> forall i :: 0 <= i < |ps| ==> Eligible(ps[i])
    decreases |ps|
  {
    if ps == [] then 0
    else CountEligible(ps[..|ps| - 1]) + (if Eligible(ps[|ps| - 1]) then 1 else 0)
  }

  /** The seats that have not folded, ascending (`alive`). */
  function AliveSeats(ps: seq<Player>): (a: seq<nat>)
    ensures forall k :: 0 <= k < |a| ==> a[k] < |ps| && !ps[a[k]].folded
    ensures forall i :: 0 <= i < |ps| && !ps[i].folded ==> i in a
    decreases |ps|
  {
    if ps == [] then []
    else AliveSeats(ps[..|ps| - 1]) + (if ps[|ps| - 1].folded then [] else [|ps| - 1])
  }

  /** allBetsSettled: every seat still in and not all in has matched the largest bet and acted. */
  predicate Settled(ps: seq<Player>)
    requires |ps| > 0
  {
    forall i :: 0 <= i < |ps| && !ps[i].folded && !ps[i].allIn ==> ps[i].bet == MaxBet(ps) && ps[i].acted
  }

  /** The seat d places after start, wrapping around the table once. */
  function Around(start: nat, d: nat, n: nat): (r: nat)
    requires start < n && d < n
    ensures r < n
  {
    if start + d < n then start + d else start + d - n
  }

  /** Stepping once more around the table is taking the next seat. */
  lemma AroundStep(start: nat, d: nat, n: nat)
    requires start < n && d + 1 < n
    ensures Around(start, d + 1, n) == NextIdx(Around(start, d, n), n)
  {
    NextIdxWraps(Around(start, d, n), n);
  }

  /** The next seat is one further, or seat 0 after the last. */
  lemma NextIdxWraps(i: nat, n: nat)
    requires i < n
    ensures NextIdx(i, n) == if i + 1 < n then i + 1 else 0
  {
  }

  /** The seat d places after start can act. */
  predicate EligibleAt(ps: seq<Player>, start: nat, d: nat)
    requires start < |ps| && d < |ps|
  {
    Eligible(ps[Around(start, d, |ps|)])
  }

  /**
   * r is the first seat that can act, scanning forward from start and
   * wrapping around; when no seat can act, r is start itself.
   */
  ghost predicate IsNextEligible(ps: seq<Player>, start: nat, r: nat)
    requires start < |ps|
  {
    r < |ps| &&
    if exists d :: 0 <= d < |ps| && EligibleAt(ps, start, d) then
      exists d0 :: 0 <= d0 < |ps| && r == Around(start, d0, |ps|) && EligibleAt(ps, start, d0)
        && forall d :: 0 <= d < d0 ==> !EligibleAt(ps, start, d)
    else r == start
  }

  /** Clearing acted flags changes no seat's eligibility, so not the scan's result. */
  lemma NextEligibleNoneActed(ps: seq<Player>, start: nat, r: nat)
    requires start < |ps| && IsNextEligible(ps, start, r)
    ensures IsNextEligible(NoneActed(ps), start, r)
  {
    forall d | 0 <= d < |ps| ensures EligibleAt(NoneActed(ps), start, d) == EligibleAt(ps, start, d) {
    }
  }

  /** The scan result is determined by the seats and the start. */
  lemma NextEligibleUnique(ps: seq<Player>, start: nat, r1: nat, r2: nat)
    requires start < |ps| && IsNextEligible(ps, start, r1) && IsNextEligible(ps, start, r2)
    ensures r1 == r2
  {
    if exists d :: 0 <= d < |ps| && EligibleAt(ps, start, d) {
      var d1 :| 0 <= d1 < |ps| && r1 == Around(start, d1, |ps|) && EligibleAt(ps, start, d1)
        && forall d :: 0 <= d < d1 ==> !EligibleAt(ps, start, d);
      var d2 :| 0 <= d2 < |ps| && r2 == Around(start, d2, |ps|) && EligibleAt(ps, start, d2)
        && forall d :: 0 <= d < d2 ==> !EligibleAt(ps, start, d);
      assert d1 == d2;
    }
  }

  /** A seat that can act is found: the result can act whenever some seat can. */
  lemma NextEligibleCanAct(ps: seq<Player>, start: nat, r: nat)
    requires start < |ps| && IsNextEligible(ps, start, r)
    ensures (exists i :: 0 <= i < |ps| && Eligible(ps[i])) ==> Eligible(ps[r])
  {
    if exists i :: 0 <= i < |ps| && Eligible(ps[i]) {
      var i :| 0 <= i < |ps| && Eligible(ps[i]);
      var d := if i >= start then i - start else i + |ps| - start;
      assert Around(start, d, |ps|) == i;
      assert EligibleAt(ps, start, d);
    }
  }

  /** A seat's stake moved from its stack to its bet, all in when the stack runs out. */
  function Paid(p: Player, pay: nat): Player
    requires pay <= p.stack
  {
    p.(stack := p.stack - pay, bet := p.bet + pay, allIn := if p.stack - pay == 0 then true else p.allIn)
  }

  /** What callAction moves: the amount to call, capped by the stack. */
  function CallPay(ps: seq<Player>, i: nat): nat
    requires i < |ps|
  {
    MinNat(ToCall(ps, i), ps[i].stack)
  }

  /** After a raise by seat i, every seat still in and not all in has acted exactly when it is i. */
  function Reopened(ps: seq<Player>, i: nat): (r: seq<Player>)
    ensures |r| == |ps|
  {
    seq(|ps|, q requires 0 <= q < |ps| => if !ps[q].folded && !ps[q].allIn then ps[q].(acted := q == i) else ps[q])
  }

  /** Reopening the action leaves the raiser acted (unless all in or folded) and every other live seat to act. */
  lemma ReopenedMeaning(ps: seq<Player>, i: nat)
    requires i < |ps|
    ensures !ps[i].folded && !ps[i].allIn ==> Reopened(ps, i)[i].acted
    ensures forall q :: 0 <= q < |ps| && q != i && !ps[q].folded && !ps[q].allIn ==> !Reopened(ps, i)[q].acted
    ensures Stacks(Reopened(ps, i)) == Stacks(ps) && Bets(Reopened(ps, i)) == Bets(ps)
    ensures FoldedFlags(Reopened(ps, i)) == FoldedFlags(ps)
  {
  }

  /** Raising one seat's bet never lowers the largest bet. */
  lemma MaxBetGrows(ps: seq<Player>, i: nat, p: Player)
    requires i < |ps| && p.bet >= ps[i].bet
    ensures MaxBet(ps[i := p]) >= MaxBet(ps)
  {
    MaxBetMeaning(ps);
    MaxBetMeaning(ps[i := p]);
    var k :| 0 <= k < |ps| && ps[k].bet == MaxBet(ps);
    assert ps[i := p][k].bet >= ps[k].bet;
  }

  /** Changing one seat changes the stack and bet totals by that seat's difference. */
  lemma UpdateSums(ps: seq<Player>, i: nat, p: Player)
    requires i < |ps|
    ensures Sum(Stacks(ps[i := p])) + ps[i].stack == Sum(Stacks(ps)) + p.stack
    ensures Sum(Bets(ps[i := p])) + ps[i].bet == Sum(Bets(ps)) + p.bet
  {
    assert Stacks(ps[i := p]) == Stacks(ps)[i := p.stack];
    assert Bets(ps[i := p]) == Bets(ps)[i := p.bet];
    SumUpdate(Stacks(ps), i, p.stack);
    SumUpdate(Bets(ps), i, p.bet);
  }

  lemma BetsUpdate(ps: seq<Player>, i: nat, p: Player)
    requires i < |ps|
    ensures Bets(ps[i := p]) == Bets(ps)[i := p.bet]
  {
  }

  /** Paying a stake keeps the seat's chips and adds the stake to its bet. */
  lemma PaidSums(ps: seq<Player>, i: nat, pay: nat)
    requires i < |ps| && pay <= ps[i].stack
    ensures Sum(Stacks(ps[i := Paid(ps[i], pay)])) + Sum(Bets(ps[i := Paid(ps[i], pay)])) == Sum(Stacks(ps)) + Sum(Bets(ps))
    ensures Sum(Bets(ps[i := Paid(ps[i], pay)])) == Sum(Bets(ps)) + pay
  {
    UpdateSums(ps, i, Paid(ps[i], pay));
  }

  /** The whole pot and every bet to the only seat still in (awardIfOnlyOne). */
  function PayLone(ps: seq<Player>, pot: nat): seq<Player>
    requires |AliveSeats(ps)| == 1
  {
    AddedTo(ps, AliveSeats(ps)[0], pot + Sum(Bets(ps)))
  }

  /** The seats with amount chips added to seat w's stack. */
  function AddedTo(ps: seq<Player>, w: nat, amount: nat): seq<Player>
    requires w < |ps|
  {
    ps[w := ps[w].(stack := ps[w].stack + amount)]
  }

  /** With exactly one seat not folded, that seat is the lone survivor and every other seat folded. */
  lemma LoneSurvivor(ps: seq<Player>)
    requires |AliveSeats(ps)| == 1
    ensures AliveSeats(ps)[0] < |ps| && !ps[AliveSeats(ps)[0]].folded
    ensures forall i :: 0 <= i < |ps| && i != AliveSeats(ps)[0] ==> ps[i].folded
  {
  }

  /** The lone survivor receives exactly the pot and the bets; nobody else's chips change. */
  lemma PayLoneSums(ps: seq<Player>, pot: nat)
    requires |AliveSeats(ps)| == 1
    ensures Sum(Stacks(PayLone(ps, pot))) == Sum(Stacks(ps)) + pot + Sum(Bets(ps))
    ensures Bets(PayLone(ps, pot)) == Bets(ps) && FoldedFlags(PayLone(ps, pot)) == FoldedFlags(ps)
  {
    AddToStack(ps, AliveSeats(ps)[0], pot + Sum(Bets(ps)));
  }

  /** Adding chips to one stack adds them to the total and changes no bet or fold. */
  lemma AddToStack(ps: seq<Player>, w: nat, amount: nat)
    requires w < |ps|
    ensures Sum(Stacks(AddedTo(ps, w, amount))) == Sum(Stacks(ps)) + amount
    ensures Bets(AddedTo(ps, w, amount)) == Bets(ps)
    ensures FoldedFlags(AddedTo(ps, w, amount)) == FoldedFlags(ps)
  {
    UpdateSums(ps, w, ps[w].(stack := ps[w].stack + amount));
  }

  /** The seats with their stacks replaced by st and nothing else changed. */
  function WithStacks(ps: seq<Player>, st: seq<nat>): (r: seq<Player>)
    requires |st| == |ps|
    ensures |r| == |ps|
  {
    seq(|ps|, i requires 0 <= i < |ps| => ps[i].(stack := st[i]))
  }

  /** Replacing the stacks yields exactly the new stacks and keeps bets and folds. */
  lemma WithStacksMeaning(ps: seq<Player>, st: seq<nat>)
    requires |st| == |ps|
    ensures Stacks(WithStacks(ps, st)) == st
    ensures Bets(WithStacks(ps, st)) == Bets(ps) && FoldedFlags(WithStacks(ps, st)) == FoldedFlags(ps)
  {
  }

  /** Replacing the stacks twice is replacing them once; replacing them by themselves changes nothing. */
  lemma WithStacksTwice(ps: seq<Player>, a: seq<nat>, b: seq<nat>)
    requires |a| == |ps| && |b| == |ps|
    ensures WithStacks(WithStacks(ps, a), b) == WithStacks(ps, b)
    ensures WithStacks(ps, Stacks(ps)) == ps
  {
  }

  /** Changing one seat's stack is changing one entry of the stacks. */
  lemma WithStacksUpdate(ps: seq<Player>, st: seq<nat>, i: nat, v: nat)
    requires |st| == |ps| && i < |ps|
    ensures WithStacks(ps, st)[i := WithStacks(ps, st)[i].(stack := v)] == WithStacks(ps, st[i := v])
  {
  }

  /** The score each seat shows down with: its best hand from hole and board cards, zeros when folded. */
  function SeatScore(folded: bool, cards: seq<Card>, board: seq<Card>): Score
  {
    if !folded then Eval.Best7(cards + board) else [0, 0, 0, 0, 0, 0]
  }

  function ShowdownScores(ps: seq<Player>, board: seq<Card>): (r: seq<Score>)
    ensures |r| == |ps|
    decreases |ps|
  {
    if ps == [] then [] else ShowdownScores(ps[..|ps| - 1], board) + [SeatScore(ps[|ps| - 1].folded, ps[|ps| - 1].cards, board)]
  }

  /** Seats with the same folds and cards show down with the same scores. */
  lemma {:induction false} ScoresAlike(ps: seq<Player>, qs: seq<Player>, board: seq<Card>)
    requires |ps| == |qs| && forall i :: 0 <= i < |ps| ==> ps[i].folded == qs[i].folded && ps[i].cards == qs[i].cards
    ensures ShowdownScores(ps, board) == ShowdownScores(qs, board)
    decreases |ps|
  {
    if ps != [] {
      ScoresAlike(ps[..|ps| - 1], qs[..|qs| - 1], board);
    }
  }

  /** Scores depend only on folds and cards, so clearing bets and paying chips leaves them alone. */
  lemma ScoresIgnoreChips(ps: seq<Player>, st: seq<nat>, board: seq<Card>)
    requires |st| == |ps|
    ensures ShowdownScores(WithStacks(NoBets(ps), st), board) == ShowdownScores(ps, board)
  {
    ScoresAlike(WithStacks(NoBets(ps), st), ps, board);
  }

  /**
   * The seats after a showdown: the lone survivor takes everything; otherwise
   * bets are cleared and the contributions are settled layer by layer.
   */
  function ShowdownResult(ps: seq<Player>, c: seq<nat>, board: seq<Card>, pot: nat): (r: seq<Player>)
    requires |c| == |ps|
    ensures |r| == |ps|
  {
    if |AliveSeats(ps)| == 1 then PayLone(ps, pot)
    else
      WithStacks(NoBets(ps), Settle(Stacks(ps), c, FoldedFlags(ps), ShowdownScores(ps, board)))
  }

  /**
   * A showdown with two or more seats still in hands out every contributed
   * chip except a folded seat's uncalled remainder and the layers nobody
   * left can win; with nobody folded it hands out all of them.
   */
  lemma ShowdownConserves(ps: seq<Player>, c: seq<nat>, board: seq<Card>, pot: nat)
    requires |c| == |ps| && |AliveSeats(ps)| != 1
    ensures Sum(Stacks(ShowdownResult(ps, c, board, pot))) + Unpaid(c, FoldedFlags(ps)) == Sum(Stacks(ps)) + Sum(c)
    ensures Sum(Bets(ShowdownResult(ps, c, board, pot))) == 0
    ensures NoneFolded(ps) ==> Sum(Stacks(ShowdownResult(ps, c, board, pot))) == Sum(Stacks(ps)) + Sum(c)
  {
    ShowdownStacks(ps, c, board, pot);
    SettleConserves(Stacks(ps), c, FoldedFlags(ps), ShowdownScores(ps, board));
    if NoneFolded(ps) {
      NoFoldsNothingUnpaid(c, FoldedFlags(ps));
    }
  }

  /** Nobody has folded. */
  predicate NoneFolded(ps: seq<Player>)
  {
    forall i :: 0 <= i < |ps| ==> !ps[i].folded
  }

  /** Past a lone survivor, the showdown clears every bet and leaves the stacks Settle computes. */
  lemma ShowdownStacks(ps: seq<Player>, c: seq<nat>, board: seq<Card>, pot: nat)
    requires |c| == |ps| && |AliveSeats(ps)| != 1
    ensures Stacks(ShowdownResult(ps, c, board, pot)) == Settle(Stacks(ps), c, FoldedFlags(ps), ShowdownScores(ps, board))
    ensures Sum(Bets(ShowdownResult(ps, c, board, pot))) == 0
  {
    var st := Settle(Stacks(ps), c, FoldedFlags(ps), ShowdownScores(ps, board));
    assert ShowdownResult(ps, c, board, pot) == WithStacks(NoBets(ps), st);
    WithStacksMeaning(NoBets(ps), st);
    ClearingSums(ps);
  }

  /** Seats that fold alike have the same survivors. */
  lemma {:induction false} AliveSeatsFlags(ps: seq<Player>, qs: seq<Player>)
    requires FoldedFlags(ps) == FoldedFlags(qs)
    ensures AliveSeats(ps) == AliveSeats(qs)
    decreases |ps|
  {
    assert |ps| == |FoldedFlags(ps)| == |qs|;
    if ps != [] {
      var k := |ps| - 1;
      assert ps[k].folded == FoldedFlags(ps)[k] == qs[k].folded;
      assert FoldedFlags(ps[..k]) == FoldedFlags(ps)[..k];
      assert FoldedFlags(qs[..k]) == FoldedFlags(qs)[..k];
      AliveSeatsFlags(ps[..k], qs[..k]);
    }
  }

  /**
   * The showdown pays out every chip in play (stacks, bets and the pot that
   * balances the contributions) except, when two or more seats are still in,
   * the unpaid contributions; nobody's fold changes.
   */
  lemma ShowdownPays(ps: seq<Player>, c: seq<nat>, board: seq<Card>, pot: nat)
    requires |c| == |ps| && pot + Sum(Bets(ps)) == Sum(c)
    ensures FoldedFlags(ShowdownResult(ps, c, board, pot)) == FoldedFlags(ps)
    ensures AliveSeats(ShowdownResult(ps, c, board, pot)) == AliveSeats(ps)
    ensures Sum(Stacks(ShowdownResult(ps, c, board, pot)))
      + (if |AliveSeats(ps)| == 1 then 0 else Unpaid(c, FoldedFlags(ps)))
      == Sum(Stacks(ps)) + Sum(Bets(ps)) + pot
  {
    var r := ShowdownResult(ps, c, board, pot);
    if |AliveSeats(ps)| == 1 {
      PayLoneSums(ps, pot);
    } else {
      ShowdownConserves(ps, c, board, pot);
      WithStacksMeaning(NoBets(ps), Settle(Stacks(ps), c, FoldedFlags(ps), ShowdownScores(ps, board)));
      ClearingSums(ps);
    }
    AliveSeatsFlags(r, ps);
  }

  /** A lone survivor's award pays out every chip in play and leaves the same single survivor. */
  lemma LoneEnds(ps: seq<Player>, pot: nat)
    requires |AliveSeats(ps)| == 1
    ensures AliveSeats(PayLone(ps, pot)) == AliveSeats(ps)
    ensures Sum(Stacks(PayLone(ps, pot))) == Sum(Stacks(ps)) + Sum(Bets(ps)) + pot
  {
    PayLoneSums(ps, pot);
    AliveSeatsFlags(PayLone(ps, pot), ps);
  }

  /** Seats that can act alike count alike. */
  lemma {:induction false} CountEligibleSame(ps: seq<Player>, qs: seq<Player>)
    requires |ps| == |qs| && forall i :: 0 <= i < |ps| ==> (Eligible(ps[i]) <==> Eligible(qs[i]))
    ensures CountEligible(ps) == CountEligible(qs)
    decreases |ps|
  {
    if ps != [] {
      CountEligibleSame(ps[..|ps| - 1], qs[..|qs| - 1]);
    }
  }

  /** The streets in order. */
  function StreetIndex(s: Street): (r: nat)
    ensures r <= 4
  {
    match s
    case Preflop => 0
    case Flop => 1
    case Turn => 2
    case River => 3
    case Showdown => 4
  }

  /** The street nextStreet moves to; the showdown is last. */
  function Following(s: Street): (r: Street)
    ensures s != Showdown ==> StreetIndex(r) == StreetIndex(s) + 1
    ensures s == Showdown ==> r == Showdown
  {
    match s
    case Preflop => Flop
    case Flop => Turn
    case Turn => River
    case River => Showdown
    case Showdown => Showdown
  }

  /** Every bet cleared (the first loop of moveBetsToPot, and the showdown's safety reset). */
  function NoBets(ps: seq<Player>): (r: seq<Player>)
    ensures |r| == |ps|
  {
    seq(|ps|, i requires 0 <= i < |ps| => ps[i].(bet := 0))
  }

  /** Every acted flag cleared. */
  function NoneActed(ps: seq<Player>): (r: seq<Player>)
    ensures |r| == |ps|
  {
    seq(|ps|, i requires 0 <= i < |ps| => ps[i].(acted := false))
  }

  /** Clearing bets keeps every stack and leaves nothing bet; clearing acted flags keeps all chips. */
  lemma ClearingSums(ps: seq<Player>)
    ensures Stacks(NoBets(ps)) == Stacks(ps) && Sum(Bets(NoBets(ps))) == 0
    ensures Stacks(NoneActed(ps)) == Stacks(ps) && Bets(NoneActed(ps)) == Bets(ps)
    ensures FoldedFlags(NoBets(ps)) == FoldedFlags(ps) && FoldedFlags(NoneActed(ps)) == FoldedFlags(ps)
  {
    ZeroSum(Bets(NoBets(ps)));
  }

  /** A change to one seat that keeps its stack plus bet keeps the table's chips. */
  lemma SeatChipsKept(ps: seq<Player>, i: nat, p: Player)
    requires i < |ps| && p.stack + p.bet == ps[i].stack + ps[i].bet
    ensures Sum(Stacks(ps[i := p])) + Sum(Bets(ps[i := p])) == Sum(Stacks(ps)) + Sum(Bets(ps))
  {
    UpdateSums(ps, i, p);
  }

  /** Seat j's place in the dealing order that starts at seat s0. */
  function Offset(s0: nat, j: nat, n: nat): (d: nat)
    requires s0 < n && j < n
    ensures d < n && Around(s0, d, n) == j
  {
    if j >= s0 then j - s0 else j + n - s0
  }

  lemma OffsetAround(s0: nat, d: nat, n: nat)
    requires s0 < n && d < n
    ensures Offset(s0, Around(s0, d, n), n) == d
  {
  }

  /** How many of the first k seats in dealing order from s0 are still in the hand. */
  function DealtBefore(ps: seq<Player>, s0: nat, k: nat): (r: nat)
    requires s0 < |ps| && k <= |ps|
    ensures r <= k
  {
    if k == 0 then 0
    else DealtBefore(ps, s0, k - 1) + (if ps[Around(s0, k - 1, |ps|)].folded then 0 else 1)
  }

  /** Seats that fold alike are dealt alike. */
  lemma {:induction false} DealtBeforeFlags(ps: seq<Player>, qs: seq<Player>, s0: nat, k: nat)
    requires s0 < |ps| && k <= |ps| && FoldedFlags(ps) == FoldedFlags(qs)
    ensures |qs| == |ps| && DealtBefore(ps, s0, k) == DealtBefore(qs, s0, k)
  {
    assert |qs| == |FoldedFlags(qs)|;
    if k > 0 {
      DealtBeforeFlags(ps, qs, s0, k - 1);
      var j := Around(s0, k - 1, |ps|);
      assert ps[j].folded == FoldedFlags(ps)[j] == qs[j].folded;
    }
  }

  /** A seat still in the hand is dealt strictly before every seat after it in dealing order. */
  lemma {:induction false} DealtBeforeStrict(ps: seq<Player>, s0: nat, a: nat, b: nat)
    requires s0 < |ps| && a < b <= |ps| && !ps[Around(s0, a, |ps|)].folded
    ensures DealtBefore(ps, s0, a) < DealtBefore(ps, s0, b)
  {
    if b > a + 1 {
      DealtBeforeStrict(ps, s0, a, b - 1);
    }
  }

  /** Seat j after one round of hole cards from the end of the deck, dealt in order from s0. */
  function DealtSeat(ps: seq<Player>, deck: seq<Card>, s0: nat, j: nat): Player
    requires s0 < |ps| && |deck| >= |ps| && j < |ps|
  {
    if ps[j].folded then ps[j]
    else ps[j].(cards := ps[j].cards + [deck[|deck| - 1 - DealtBefore(ps, s0, Offset(s0, j, |ps|))]])
  }

  /**
   * One round of hole cards from the end of the deck, in dealing order from
   * s0: a seat still in the hand gets the card as many places below the top
   * as there are such seats before it; a folded seat gets nothing.
   */
  function DealRound(ps: seq<Player>, deck: seq<Card>, s0: nat): (r: seq<Player>)
    requires s0 < |ps| && |deck| >= |ps|
    ensures |r| == |ps|
  {
    seq(|ps|, j requires 0 <= j < |ps| => DealtSeat(ps, deck, s0, j))
  }

  /** The first k seats in dealing order from s0 have had their card of the round. */
  function PartialDeal(ps: seq<Player>, deck: seq<Card>, s0: nat, k: nat): (r: seq<Player>)
    requires s0 < |ps| && |deck| >= |ps| && k <= |ps|
    ensures |r| == |ps|
  {
    if k == 0 then ps
    else
      var i := Around(s0, k - 1, |ps|);
      PartialDeal(ps, deck, s0, k - 1)[i := DealtSeat(ps, deck, s0, i)]
  }

  /** Seat by seat, a partial round is the full round on the seats already reached. */
  lemma {:induction false} PartialDealAt(ps: seq<Player>, deck: seq<Card>, s0: nat, k: nat, j: nat)
    requires s0 < |ps| && |deck| >= |ps| && k <= |ps| && j < |ps|
    ensures PartialDeal(ps, deck, s0, k)[j] == if Offset(s0, j, |ps|) < k then DealtSeat(ps, deck, s0, j) else ps[j]
  {
    if k > 0 {
      PartialDealAt(ps, deck, s0, k - 1, j);
      OffsetAround(s0, k - 1, |ps|);
    }
  }

  /**
   * One step of a round: the k-th seat in dealing order still holds its old
   * cards, and it takes the card below the DealtBefore(ps, s0, k) already dealt
   * exactly when it has not folded.
   */
  lemma PartialDealStep(ps: seq<Player>, deck: seq<Card>, s0: nat, k: nat)
    requires s0 < |ps| && |deck| >= |ps| && k < |ps|
    ensures PartialDeal(ps, deck, s0, k)[Around(s0, k, |ps|)] == ps[Around(s0, k, |ps|)]
    ensures PartialDeal(ps, deck, s0, k + 1) ==
      PartialDeal(ps, deck, s0, k)[Around(s0, k, |ps|) := DealtSeat(ps, deck, s0, Around(s0, k, |ps|))]
    ensures DealtBefore(ps, s0, k + 1) == DealtBefore(ps, s0, k) + (if ps[Around(s0, k, |ps|)].folded then 0 else 1)
    ensures DealtSeat(ps, deck, s0, Around(s0, k, |ps|)) ==
      if ps[Around(s0, k, |ps|)].folded then ps[Around(s0, k, |ps|)]
      else ps[Around(s0, k, |ps|)].(cards := ps[Around(s0, k, |ps|)].cards + [deck[|deck| - 1 - DealtBefore(ps, s0, k)]])
  {
    var i := Around(s0, k, |ps|);
    PartialDealAt(ps, deck, s0, k, i);
    OffsetAround(s0, k, |ps|);
  }

  lemma PartialDealEnds(ps: seq<Player>, deck: seq<Card>, s0: nat)
    requires s0 < |ps| && |deck| >= |ps|
    ensures PartialDeal(ps, deck, s0, |ps|) == DealRound(ps, deck, s0)
  {
    forall j | 0 <= j < |ps| ensures PartialDeal(ps, deck, s0, |ps|)[j] == DealRound(ps, deck, s0)[j] {
      PartialDealAt(ps, deck, s0, |ps|, j);
    }
  }

  /** Dealing touches only hole cards. */
  lemma DealRoundKeeps(ps: seq<Player>, deck: seq<Card>, s0: nat)
    requires s0 < |ps| && |deck| >= |ps|
    ensures FoldedFlags(DealRound(ps, deck, s0)) == FoldedFlags(ps)
    ensures Stacks(DealRound(ps, deck, s0)) == Stacks(ps) && Bets(DealRound(ps, deck, s0)) == Bets(ps)
  {
  }

  /**
   * dealHole's two rounds from the end of deck, both in dealing order from
   * s0: the second round deals from what the first one left.
   */
  function HoleDealt(ps: seq<Player>, deck: seq<Card>, s0: nat): (r: seq<Player>)
    requires s0 < |ps| && |deck| >= 2 * |ps|
    ensures |r| == |ps|
  {
    DealRound(DealRound(ps, deck, s0), deck[..|deck| - DealtBefore(ps, s0, |ps|)], s0)
  }

  /** The deck dealHole leaves: both rounds took one card per seat still in the hand. */
  function DeckAfterHole(ps: seq<Player>, deck: seq<Card>, s0: nat): (r: seq<Card>)
    requires s0 < |ps| && |deck| >= 2 * |ps|
    ensures |r| == |deck| - 2 * DealtBefore(ps, s0, |ps|) && r == deck[..|r|]
  {
    deck[..|deck| - 2 * DealtBefore(ps, s0, |ps|)]
  }

  /** Dealing the hole cards and clearing the acted flags leave every stack, bet and fold as they were. */
  lemma HoleDealtKeeps(ps: seq<Player>, deck: seq<Card>, s0: nat)
    requires s0 < |ps| && |deck| >= 2 * |ps|
    ensures Stacks(NoneActed(HoleDealt(ps, deck, s0))) == Stacks(ps)
    ensures Bets(NoneActed(HoleDealt(ps, deck, s0))) == Bets(ps)
    ensures FoldedFlags(NoneActed(HoleDealt(ps, deck, s0))) == FoldedFlags(ps)
  {
    var once := DealRound(ps, deck, s0);
    DealRoundKeeps(ps, deck, s0);
    DealRoundKeeps(once, deck[..|deck| - DealtBefore(ps, s0, |ps|)], s0);
    ClearingSums(HoleDealt(ps, deck, s0));
  }

  /** Starting from empty hands, the two rounds of dealHole leave two cards with every seat in the hand and none elsewhere. */
  lemma TwoHoleCards(ps: seq<Player>, deck: seq<Card>, s0: nat)
    requires s0 < |ps| && |deck| >= 2 * |ps|
    requires forall j :: 0 <= j < |ps| ==> ps[j].cards == []
    ensures forall j :: 0 <= j < |ps| ==> |HoleDealt(ps, deck, s0)[j].cards| == if ps[j].folded then 0 else 2
  {
    var m := DealtBefore(ps, s0, |ps|);
    var once := DealRound(ps, deck, s0);
    forall j | 0 <= j < |ps|
      ensures |DealRound(once, deck[..|deck| - m], s0)[j].cards| == if ps[j].folded then 0 else 2
    {
      DealtCards(ps, deck, s0, j);
      DealtCards(once, deck[..|deck| - m], s0, j);
    }
  }

  /** One round gives seat j one more card exactly when it is still in the hand. */
  lemma DealtCards(ps: seq<Player>, deck: seq<Card>, s0: nat, j: nat)
    requires s0 < |ps| && |deck| >= |ps| && j < |ps|
    ensures DealRound(ps, deck, s0)[j].folded == ps[j].folded
    ensures |DealRound(ps, deck, s0)[j].cards| == |ps[j].cards| + if ps[j].folded then 0 else 1
  {
  }

  /**
   * Both rounds of dealing: a seat still in the hand receives two cards, the
   * second taken m places below the first, where m is the number of seats in
   * the hand, and no two of the 2m cards come from the same deck position.
   */
  lemma DealtPositions(ps: seq<Player>, s0: nat, j1: nat, j2: nat)
    requires s0 < |ps| && j1 < |ps| && j2 < |ps| && j1 != j2 && !ps[j1].folded && !ps[j2].folded
    ensures DealtBefore(ps, s0, Offset(s0, j1, |ps|)) != DealtBefore(ps, s0, Offset(s0, j2, |ps|))
    ensures DealtBefore(ps, s0, Offset(s0, j1, |ps|)) < DealtBefore(ps, s0, |ps|)
  {
    var n := |ps|;
    var a := Offset(s0, j1, n);
    var b := Offset(s0, j2, n);
    if a < b {
      DealtBeforeStrict(ps, s0, a, b);
    } else {
      DealtBeforeStrict(ps, s0, b, a);
    }
    DealtBeforeStrict(ps, s0, a, n);
  }

  // ---------------------------------------------------------------------------
  // Starting a hand

  /** A seat of a new table: the starting stack and nothing else. */
  const NewSeat: Player := Player(StartingStack, 0, false, false, false, [])

  /** A seat carried into the next hand: chips kept, sitting out when it has none. */
  function Reseated(p: Player): Player
  {
    Player(p.stack, 0, p.stack == 0, false, false, [])
  }

  function ReseatAll(ps: seq<Player>): (r: seq<Player>)
    ensures |r| == |ps|
  {
    seq(|ps|, i requires 0 <= i < |ps| => Reseated(ps[i]))
  }

  /**
   * Carrying seats into the next hand keeps every stack, clears every bet,
   * hand and flag, and folds exactly the seats without chips.
   */
  lemma ReseatAllMeaning(ps: seq<Player>)
    ensures Stacks(ReseatAll(ps)) == Stacks(ps)
    ensures forall i :: 0 <= i < |ps| ==>
      && ReseatAll(ps)[i].bet == 0 && ReseatAll(ps)[i].cards == []
      && !ReseatAll(ps)[i].allIn && !ReseatAll(ps)[i].acted
      && (ReseatAll(ps)[i].folded <==> ps[i].stack == 0)
  {
  }

  /** The seats of a new table. */
  function FreshSeats(n: nat): (r: seq<Player>)
    ensures |r| == n
  {
    seq(n, i => NewSeat)
  }

  /** A new table of n seats holds n starting stacks. */
  lemma {:induction false} FreshSeatsChips(n: nat)
    ensures Sum(Stacks(FreshSeats(n))) == StartingStack * n
    ensures forall i :: 0 <= i < n ==> FreshSeats(n)[i].bet == 0
  {
    if n > 0 {
      FreshSeatsChips(n - 1);
      assert Stacks(FreshSeats(n))[..n - 1] == Stacks(FreshSeats(n - 1));
    }
  }

  /**
   * initPlayers: n seats built one at a time, each with the starting stack,
   * no bet, no cards, in the hand and not yet acted.
   */
  method InitPlayers(n: nat) returns (ps: seq<Player>)
    ensures |ps| == n
    ensures forall i :: 0 <= i < n ==> ps[i] == NewSeat
  {
    ps := [];
    for i := 0 to n
      invariant |ps| == i
      invariant forall j :: 0 <= j < i ==> ps[j] == NewSeat
    {
      ps := ps + [NewSeat];
    }
  }

  /**
   * Both blinds posted on seats whose bets are all zero: the seat after the
   * button puts in the small blind, the one after it the big blind, each
   * capped by its stack.
   */
  function Blinded(ps: seq<Player>, button: nat, sb: nat, bb: nat): (r: seq<Player>)
    requires button < |ps|
    ensures |r| == |ps|
  {
    var s := NextIdx(button, |ps|);
    var b := NextIdx(s, |ps|);
    var p1 := ps[s := Paid(ps[s], MinNat(sb, ps[s].stack))];
    p1[b := Paid(p1[b], MinNat(bb, p1[b].stack))]
  }

  /**
   * With two or more seats and no bets yet, posting the blinds leaves the
   * small blind (or the whole stack) on the seat after the button, the big
   * blind (or the whole stack) on the next seat and nothing elsewhere, keeps
   * every seat's chips, and leaves every seat without chips all in.
   */
  lemma BlindedMeaning(ps: seq<Player>, button: nat, sb: nat, bb: nat)
    requires 2 <= |ps| && button < |ps|
    requires forall i :: 0 <= i < |ps| ==> ps[i].bet == 0
    ensures var s := NextIdx(button, |ps|); var b := NextIdx(s, |ps|);
      s != b &&
      forall i :: 0 <= i < |ps| ==>
        Blinded(ps, button, sb, bb)[i].bet == (if i == s then MinNat(sb, ps[i].stack)
          else if i == b then MinNat(bb, ps[i].stack) else 0)
        && Blinded(ps, button, sb, bb)[i].stack + Blinded(ps, button, sb, bb)[i].bet == ps[i].stack
        && Blinded(ps, button, sb, bb)[i].folded == ps[i].folded
        && (Blinded(ps, button, sb, bb)[i].stack == 0 && (i == s || i == b) ==> Blinded(ps, button, sb, bb)[i].allIn)
  {
    NextIdxWraps(button, |ps|);
    NextIdxWraps(NextIdx(button, |ps|), |ps|);
  }

  /** The seats a hand starts with: carried over from the previous hand, or new. */
  function Seating(prev: Table?, seats: nat): (r: seq<Player>)
    reads if prev == null then {} else {prev.players}
  {
    if prev == null then FreshSeats(seats) else ReseatAll(prev.players[..])
  }

  lemma SeatingBets(prev: Table?, seats: nat)
    ensures forall i :: 0 <= i < |Seating(prev, seats)| ==> Seating(prev, seats)[i].bet == 0
  {
    if prev == null {
      FreshSeatsChips(seats);
    } else {
      ReseatAllMeaning(prev.players[..]);
    }
  }

  /** A new table holds a starting stack per seat; a carried-over table the previous hand's stacks. */
  lemma SeatingChips(prev: Table?, seats: nat)
    ensures Sum(Stacks(Seating(prev, seats))) ==
      if prev == null then StartingStack * seats else Sum(Stacks(prev.players[..]))
  {
    if prev == null {
      FreshSeatsChips(seats);
    } else {
      ReseatAllMeaning(prev.players[..]);
    }
  }

  /** The seats and the button of a new hand: carried over and moved one seat on, or new with the button at seat 0. */
  method SeatsFor(prev: Table?, seats: nat) returns (seated: seq<Player>, button: nat)
    requires prev != null ==> 1 <= prev.players.Length <= 22 && prev.button < prev.players.Length
    requires prev == null ==> 1 <= seats <= 22
    ensures seated == Seating(prev, seats) && 1 <= |seated| <= 22 && button < |seated|
    ensures button == if prev == null then 0 else NextIdx(prev.button, prev.players.Length)
    ensures forall i :: 0 <= i < |seated| ==> seated[i].bet == 0
  {
    if prev == null {
      seated := InitPlayers(seats);
      button := 0;
      assert seated == FreshSeats(seats);
    } else {
      seated := ReseatAll(prev.players[..]);
      button := NextIdx(prev.button, prev.players.Length);
    }
    SeatingBets(prev, seats);
  }

  /** One seat's showdown score, computed with the seven-card evaluator. */
  method ScoreOf(p: Player, board: seq<Card>) returns (sc: Score)
    ensures sc == SeatScore(p.folded, p.cards, board)
  {
    sc := [0, 0, 0, 0, 0, 0];
    if !p.folded {
      sc := Eval.EvaluateBest7(p.cards + board);
    }
  }

  /**
   * The end of a betting round, from seats ps and scalars s to seats ps' and
   * scalars s': the bets go to the pot, nobody has acted and the minimum
   * raise is the big blind again; then the showdown after the river, or the
   * next street before it.
   */
  ghost predicate RoundEnded(ps: seq<Player>, s: TableStatus, ps': seq<Player>, s': TableStatus,
    contrib: seq<nat>, button: nat, bb: nat)
  {
    var moved := NoneActed(NoBets(ps));
    var ms := s.(potCommitted := s.potCommitted + Sum(Bets(ps)), lastRaiseSize := bb);
    if s.street == River then ShowdownPaid(moved, ms, ps', s', contrib)
    else StreetDealt(moved, ms, ps', s', button)
  }

  /** A round ends as its two halves say: the bets are moved, then the showdown or the next street. */
  lemma RoundEndedIntro(ps: seq<Player>, s: TableStatus, moved: seq<Player>, ms: TableStatus,
    ps': seq<Player>, s': TableStatus, contrib: seq<nat>, button: nat, bb: nat)
    requires moved == NoneActed(NoBets(ps))
    requires ms == s.(potCommitted := s.potCommitted + Sum(Bets(ps)), lastRaiseSize := bb)
    requires s.street == River ==> ShowdownPaid(moved, ms, ps', s', contrib)
    requires s.street != River ==> StreetDealt(moved, ms, ps', s', button)
    ensures RoundEnded(ps, s, ps', s', contrib, button, bb)
  {
  }

  /** The street becomes the showdown, the showdown pays out and the hand ends. */
  ghost predicate ShowdownPaid(ps: seq<Player>, s: TableStatus, ps': seq<Player>, s': TableStatus, contrib: seq<nat>)
  {
    |contrib| == |ps|
    && ps' == ShowdownResult(ps, contrib, s.board, s.potCommitted)
    && s' == s.(street := Showdown, handEnded := true)
  }

  /**
   * The next street starts: one card is burnt and three (on the flop) or one
   * are dealt from the deck's end, the street's aggressor becomes the
   * previous one, and the first seat left of the button that can act is to
   * act. The seats do not change.
   */
  ghost predicate StreetDealt(ps: seq<Player>, s: TableStatus, ps': seq<Player>, s': TableStatus, button: nat)
  {
    var d := s.deck;
    ps' == ps && button < |ps|
    && IsNextEligible(ps, NextIdx(button, |ps|), s'.current)
    && (s.street == Preflop ==>
      |d| >= 4 && s'.board == s.board + [d[|d| - 2], d[|d| - 3], d[|d| - 4]] && s'.deck == d[..|d| - 4])
    && (s.street != Preflop ==> |d| >= 2 && s'.board == s.board + [d[|d| - 2]] && s'.deck == d[..|d| - 2])
    && s' == s.(deck := s'.deck, board := s'.board, street := Following(s.street), current := s'.current,
      aggressor := None, prevAggressor := if s.street == Preflop then s.preflopAggressor else s.aggressor)
  }

  /** Enough cards left in the deck to burn and deal the rest of the board from this street on. */
  predicate DeckLasts(street: Street, deck: seq<Card>)
  {
    match street
    case Preflop => |deck| >= 8
    case Flop => |deck| >= 4
    case Turn => |deck| >= 2
    case _ => true
  }

  /**
   * The board and deck once every street up to the river has been dealt,
   * each from the deck's end after a burnt card, as StreetDealt deals them.
   */
  function DealtOut(street: Street, board: seq<Card>, deck: seq<Card>): (r: (seq<Card>, seq<Card>))
    requires DeckLasts(street, deck)
    decreases 4 - StreetIndex(street)
  {
    var d := deck;
    match street
    case Preflop => DealtOut(Flop, board + [d[|d| - 2], d[|d| - 3], d[|d| - 4]], d[..|d| - 4])
    case Flop => DealtOut(Turn, board + [d[|d| - 2]], d[..|d| - 2])
    case Turn => DealtOut(River, board + [d[|d| - 2]], d[..|d| - 2])
    case _ => (board, deck)
  }

  /**
   * Run out from the preflop: the flop is the 2nd, 3rd and 4th cards from
   * the deck's end, the turn the 6th and the river the 8th (the 1st, 5th and
   * 7th are burnt), and eight cards leave the deck.
   */
  lemma DealtOutFromPreflop(board: seq<Card>, d: seq<Card>)
    requires |d| >= 8
    ensures DealtOut(Preflop, board, d)
      == (board + [d[|d| - 2], d[|d| - 3], d[|d| - 4], d[|d| - 6], d[|d| - 8]], d[..|d| - 8])
  {
    var d1 := d[..|d| - 4];
    var d2 := d1[..|d1| - 2];
    var b1 := board + [d[|d| - 2], d[|d| - 3], d[|d| - 4]];
    var b2 := b1 + [d1[|d1| - 2]];
    assert DealtOut(Preflop, board, d) == DealtOut(Flop, b1, d1);
    assert DealtOut(Flop, b1, d1) == DealtOut(Turn, b2, d2);
    assert DealtOut(Turn, b2, d2) == (b2 + [d2[|d2| - 2]], d2[..|d2| - 2]);
    assert d1[|d1| - 2] == d[|d| - 6];
    assert d2[|d2| - 2] == d[|d| - 8];
    assert d2[..|d2| - 2] == d[..|d| - 8];
    assert b2 + [d2[|d2| - 2]] == board + [d[|d| - 2], d[|d| - 3], d[|d| - 4], d[|d| - 6], d[|d| - 8]];
  }

  /** What the previous street's aggressor becomes when the next street is dealt. */
  function Handover(s: TableStatus): Option<nat>
  {
    if s.street == Preflop then s.preflopAggressor else s.aggressor
  }

  /**
   * The fast-forward of step while at most one seat can act, from seats ps
   * and scalars s to seats ps' and scalars s': every remaining street is
   * dealt as DealtOut deals it, then the showdown pays the seats as
   * ShowdownResult does, from the bets moved to the pot and nobody acted.
   * The aggressors are handed over street by street, and the turn ends on
   * the first seat after the button that can act (or stays, from the river).
   */
  ghost predicate RanOut(ps: seq<Player>, s: TableStatus, ps': seq<Player>, s': TableStatus,
    contrib: seq<nat>, button: nat, bb: nat)
  {
    var moved := NoneActed(NoBets(ps));
    s.street != Showdown && DeckLasts(s.street, s.deck) && |contrib| == |ps| && button < |ps|
    && var dealt := DealtOut(s.street, s.board, s.deck);
    ps' == ShowdownResult(moved, contrib, dealt.0, s.potCommitted + Sum(Bets(ps)))
    && s' == s.(deck := dealt.1, board := dealt.0, street := Showdown, handEnded := true,
      potCommitted := s.potCommitted + Sum(Bets(ps)), lastRaiseSize := bb, current := s'.current,
      aggressor := if s.street == River then s.aggressor else None,
      prevAggressor := if s.street == River then s.prevAggressor else if s.street == Turn then s.aggressor else None)
    && (s.street == River ==> s'.current == s.current)
    && (s.street != River ==> IsNextEligible(moved, NextIdx(button, |ps|), s'.current))
  }

  /**
   * Part of the way through a run-out: after no round, nothing has changed;
   * after one or more, the bets are in the pot, nobody has acted, the board
   * still deals out to the same river, and the aggressors and the turn are
   * as the last StreetDealt left them.
   */
  ghost predicate RunningOut(ps: seq<Player>, s: TableStatus, psk: seq<Player>, sk: TableStatus, button: nat, bb: nat)
  {
    s.street != Showdown && sk.street != Showdown && !sk.handEnded && button < |ps|
    && DeckLasts(s.street, s.deck) && DeckLasts(sk.street, sk.deck)
    && DealtOut(sk.street, sk.board, sk.deck) == DealtOut(s.street, s.board, s.deck)
    && StreetIndex(s.street) <= StreetIndex(sk.street)
    && (sk.street == s.street ==> psk == ps && sk == s)
    && (sk.street != s.street ==>
      psk == NoneActed(NoBets(ps))
      && sk.potCommitted == s.potCommitted + Sum(Bets(ps)) && sk.lastRaiseSize == bb
      && sk.preflopAggressor == s.preflopAggressor && sk.aggressor == None
      && sk.prevAggressor == (if StreetIndex(sk.street) == StreetIndex(s.street) + 1 then Handover(s) else None)
      && IsNextEligible(psk, NextIdx(button, |ps|), sk.current))
  }

  /** Clearing bets and acted flags a second time changes nothing. */
  lemma MovedTwice(ps: seq<Player>)
    ensures NoneActed(NoBets(NoneActed(NoBets(ps)))) == NoneActed(NoBets(ps))
    ensures Sum(Bets(NoneActed(NoBets(ps)))) == 0
  {
    ClearingSums(ps);
    ClearingSums(NoBets(ps));
  }

  /**
   * One more round of the run-out: from the river it completes RanOut,
   * before the river it stays RunningOut.
   */
  lemma RunningOutStep(ps: seq<Player>, s: TableStatus, psk: seq<Player>, sk: TableStatus,
    ps1: seq<Player>, s1: TableStatus, contrib: seq<nat>, button: nat, bb: nat)
    requires RunningOut(ps, s, psk, sk, button, bb) && |contrib| == |ps|
    requires RoundEnded(psk, sk, ps1, s1, contrib, button, bb)
    ensures sk.street == River ==> RanOut(ps, s, ps1, s1, contrib, button, bb)
    ensures sk.street != River ==> RunningOut(ps, s, ps1, s1, button, bb)
  {
    if sk.street == River {
      RunningOutLast(ps, s, psk, sk, ps1, s1, contrib, button, bb);
    } else {
      RunningOutNext(ps, s, psk, sk, ps1, s1, contrib, button, bb);
    }
  }

  /** The river round of a run-out ends it at the showdown. */
  lemma RunningOutLast(ps: seq<Player>, s: TableStatus, psk: seq<Player>, sk: TableStatus,
    ps1: seq<Player>, s1: TableStatus, contrib: seq<nat>, button: nat, bb: nat)
    requires RunningOut(ps, s, psk, sk, button, bb) && |contrib| == |ps| && sk.street == River
    requires RoundEnded(psk, sk, ps1, s1, contrib, button, bb)
    ensures RanOut(ps, s, ps1, s1, contrib, button, bb)
  {
    MovedTwice(ps);
    var moved := NoneActed(NoBets(ps));
    assert NoneActed(NoBets(psk)) == moved && sk.potCommitted + Sum(Bets(psk)) == s.potCommitted + Sum(Bets(ps));
    assert DealtOut(s.street, s.board, s.deck) == (sk.board, sk.deck);
  }

  /** A round before the river deals the next street and the run-out goes on. */
  lemma RunningOutNext(ps: seq<Player>, s: TableStatus, psk: seq<Player>, sk: TableStatus,
    ps1: seq<Player>, s1: TableStatus, contrib: seq<nat>, button: nat, bb: nat)
    requires RunningOut(ps, s, psk, sk, button, bb) && |contrib| == |ps| && sk.street != River
    requires RoundEnded(psk, sk, ps1, s1, contrib, button, bb)
    ensures RunningOut(ps, s, ps1, s1, button, bb)
  {
    MovedTwice(ps);
    assert StreetIndex(s1.street) == StreetIndex(sk.street) + 1;
  }

  /** The scalar part of the table state, for saying what a method leaves alone. */
  datatype TableStatus = TableStatus(
    deck: seq<Card>,
    board: seq<Card>,
    street: Street,
    potCommitted: nat,
    current: nat,
    lastRaiseSize: nat,
    handEnded: bool,
    preflopAggressor: Option<nat>,
    aggressor: Option<nat>,
    prevAggressor: Option<nat>)

  /**
   * The state of one hand. The seats and the per-seat contributions of the
   * whole hand are arrays updated in place; the deck is dealt from its end.
   */
  class Table {
    const players: array<Player>
    const contrib: array<nat>
    const button: nat
    const sb: nat
    const bb: nat
    var deck: seq<Card>
    var board: seq<Card>
    var street: Street
    var potCommitted: nat
    var current: nat
    var lastRaiseSize: nat
    var handEnded: bool
    var preflopAggressor: Option<nat>
    var aggressor: Option<nat>
    var prevAggressor: Option<nat>

    function Status(): TableStatus
      reads this
    {
      TableStatus(deck, board, street, potCommitted, current, lastRaiseSize, handEnded,
        preflopAggressor, aggressor, prevAggressor)
    }

    /** The table's dimensions: 1 to 22 seats (two hole cards each plus eight cards for the board fit a 52-card deck). */
    predicate Shape()
      reads this`current
    {
      1 <= players.Length <= 22 && contrib.Length == players.Length
      && button < players.Length && current < players.Length
    }

    /** Every chip still in play: stacks, bets on this street and the pot of earlier streets. */
    function Chips(): nat
      reads this`potCommitted, players
    {
      Sum(Stacks(players[..])) + Sum(Bets(players[..])) + potCommitted
    }

    /** The pot and the current bets are exactly what the seats have put in this hand. */
    predicate Ledger()
      reads this`potCommitted, players, contrib
    {
      potCommitted + Sum(Bets(players[..])) == Sum(contrib[..])
    }

    /** Board and deck sizes per street, and a ledger that balances while the hand runs. */
    predicate Valid()
      reads this, players, contrib
    {
      Shape() &&
      (match street
        case Preflop => |board| == 0 && |deck| >= 8
        case Flop => |board| == 3 && |deck| >= 4
        case Turn => |board| == 4 && |deck| >= 2
        case River => |board| == 5
        case Showdown => |board| == 5 && handEnded) &&
      (!handEnded ==> Ledger())
    }

    /**
     * Contributed chips no seat received once the hand is over: nothing
     * after a lone survivor took the pot, otherwise the showdown's unpaid
     * contributions.
     */
    function Unawarded(): nat
      requires contrib.Length == players.Length
      reads players, contrib
    {
      if |AliveSeats(players[..])| == 1 then 0 else Unpaid(contrib[..], FoldedFlags(players[..]))
    }

    /** What the decision policy reads. */
    function View(): Snapshot
      reads this, players
    {
      Snapshot(players[..], board, street, button, bb, potCommitted, lastRaiseSize, handEnded, prevAggressor)
    }

    /**
     * startHand: a shuffled deck (rng holds the shuffle's draws), seats carried
     * over from prev with the button moved one seat on, or seats fresh
     * seats with the button at seat 0; then the blinds, two hole cards for
     * every seat in the hand, and the turn to the first seat that can act
     * after the big blind.
     */
    constructor (prev: Table?, seats: nat, rng: seq<real>)
      requires prev != null ==> prev.Shape()
      requires prev == null ==> 1 <= seats <= 22
      requires Deck.ValidDraws(rng) && |rng| >= 51
      ensures Valid() && street == Preflop && board == [] && !handEnded
      ensures potCommitted == 0 && lastRaiseSize == BigBlind && sb == SmallBlind && bb == BigBlind
      ensures preflopAggressor == None && aggressor == None && prevAggressor == None
      ensures button == if prev == null then 0 else NextIdx(prev.button, prev.players.Length)
      ensures var seated := old(Seating(prev, seats));
        |seated| == players.Length && Chips() == Sum(Stacks(seated)) &&
        var blinded := Blinded(seated, button, SmallBlind, BigBlind);
        var s0 := NextIdx(button, players.Length); var shuffled := Deck.Shuffled(Deck.Unshuffled(), rng);
        players[..] == NoneActed(HoleDealt(blinded, shuffled, s0)) && deck == DeckAfterHole(blinded, shuffled, s0)
      ensures contrib[..] == Bets(players[..])
      ensures IsNextEligible(players[..], NextIdx(NextIdx(NextIdx(button, players.Length), players.Length), players.Length), current)
    {
      var shuffled := Deck.ShuffledDeck(rng);
      var seated, first := SeatsFor(prev, seats);
      var n := |seated|;
      button := first;
      players := new Player[n](i requires 0 <= i < n => seated[i]);
      contrib := new nat[n](i => 0);
      sb, bb := SmallBlind, BigBlind;
      deck, board, street := shuffled, [], Preflop;
      potCommitted, current, lastRaiseSize, handEnded := 0, 0, BigBlind, false;
      preflopAggressor, aggressor, prevAggressor := None, None, None;
      new;
      assert players[..] == seated && deck == Deck.Shuffled(Deck.Unshuffled(), rng);
      OpenHand(seated);
    }

    /**
     * The rest of startHand once the table is laid out: both blinds, the
     * hole cards, the turn to the first seat that can act after the big
     * blind, and nobody marked as acted.
     */
    method OpenHand(ghost seated: seq<Player>)
      requires Shape() && street == Preflop && board == [] && |deck| == 52 && potCommitted == 0 && !handEnded
      requires players[..] == seated && forall i :: 0 <= i < players.Length ==> seated[i].bet == 0 && contrib[i] == 0
      modifies this`deck, this`current, players, contrib
      ensures Valid() && Status() == old(Status()).(deck := deck, current := current)
      ensures var blinded := Blinded(seated, button, sb, bb); var s0 := NextIdx(button, players.Length);
        players[..] == NoneActed(HoleDealt(blinded, old(deck), s0)) && deck == DeckAfterHole(blinded, old(deck), s0)
      ensures Stacks(players[..]) == Stacks(Blinded(seated, button, sb, bb))
      ensures Bets(players[..]) == Bets(Blinded(seated, button, sb, bb))
      ensures FoldedFlags(players[..]) == FoldedFlags(Blinded(seated, button, sb, bb))
      ensures Chips() == Sum(Stacks(seated))
      ensures contrib[..] == Bets(players[..])
      ensures forall i :: 0 <= i < players.Length ==> !players[i].acted
      ensures IsNextEligible(players[..], NextIdx(NextIdx(NextIdx(button, players.Length), players.Length), players.Length), current)
    {
      BlindsFromScratch(seated);
      ghost var dealt := players[..];
      ghost var chips := Chips();
      FirstTurn();
      ghost var ps := players[..];
      HandOpened(dealt, ps, contrib[..]);
      assert Chips() == chips;
      forall i | 0 <= i < players.Length
        ensures !players[i].acted
      {
        assert players[i] == ps[i];
      }
    }

    /** The blinds and the hole cards at a table where nobody has bet or contributed yet. */
    method BlindsFromScratch(ghost seated: seq<Player>)
      requires Shape() && |deck| == 52
      requires players[..] == seated && forall i :: 0 <= i < players.Length ==> seated[i].bet == 0 && contrib[i] == 0
      modifies this`deck, players, contrib
      ensures |deck| >= 8 && Status() == old(Status()).(deck := deck)
      ensures var blinded := Blinded(seated, button, sb, bb); var s0 := NextIdx(button, players.Length);
        players[..] == HoleDealt(blinded, old(deck), s0) && deck == DeckAfterHole(blinded, old(deck), s0)
      ensures Stacks(players[..]) == Stacks(Blinded(seated, button, sb, bb))
      ensures Bets(players[..]) == Bets(Blinded(seated, button, sb, bb))
      ensures FoldedFlags(players[..]) == FoldedFlags(Blinded(seated, button, sb, bb))
      ensures Chips() == Sum(Stacks(seated)) + potCommitted && contrib[..] == Bets(players[..])
    {
      NothingBetYet(seated, contrib[..]);
      BlindsAndCards();
    }

    /** Before the blinds nobody has bet or contributed anything. */
    static lemma NothingBetYet(ps: seq<Player>, c: seq<nat>)
      requires |c| == |ps| && forall i :: 0 <= i < |ps| ==> ps[i].bet == 0 && c[i] == 0
      ensures c == Bets(ps) && Sum(Bets(ps)) == 0
    {
      assert c == Bets(ps);
      ZeroSum(Bets(ps));
    }

    /** Clearing the acted flags after the deal keeps every chip and the contributions' match with the bets. */
    static lemma HandOpened(dealt: seq<Player>, ps: seq<Player>, c: seq<nat>)
      requires ps == NoneActed(dealt) && c == Bets(dealt)
      ensures Stacks(ps) == Stacks(dealt) && Bets(ps) == Bets(dealt) && FoldedFlags(ps) == FoldedFlags(dealt)
      ensures c == Bets(ps) && Sum(Bets(ps)) == Sum(c)
      ensures forall i :: 0 <= i < |ps| ==> !ps[i].acted
    {
      ClearingSums(dealt);
    }

    /** The turn goes to the first seat after the big blind that can act; then nobody has acted. */
    method FirstTurn()
      requires Shape()
      modifies this`current, players
      ensures Status() == old(Status()).(current := current)
      ensures players[..] == NoneActed(old(players[..]))
      ensures IsNextEligible(players[..], NextIdx(NextIdx(NextIdx(button, players.Length), players.Length), players.Length), current)
    {
      var n := players.Length;
      current := NextEligibleFrom(NextIdx(NextIdx(NextIdx(button, n), n), n));
      ghost var dealt := players[..];
      ClearActed();
      NextEligibleNoneActed(dealt, NextIdx(NextIdx(NextIdx(button, n), n), n), current);
    }

    /** The blinds, then two rounds of hole cards. */
    method BlindsAndCards()
      requires Shape() && |deck| == 52 && contrib[..] == Bets(players[..])
      modifies this`deck, players, contrib
      ensures |deck| >= 8 && Status() == old(Status()).(deck := deck)
      ensures Chips() == old(Chips()) && contrib[..] == Bets(players[..])
      ensures var blinded := Blinded(old(players[..]), button, sb, bb); var s0 := NextIdx(button, players.Length);
        players[..] == HoleDealt(blinded, old(deck), s0) && deck == DeckAfterHole(blinded, old(deck), s0)
      ensures Stacks(players[..]) == Stacks(Blinded(old(players[..]), button, sb, bb))
      ensures Bets(players[..]) == Bets(Blinded(old(players[..]), button, sb, bb))
      ensures FoldedFlags(players[..]) == FoldedFlags(Blinded(old(players[..]), button, sb, bb))
    {
      PostBlinds();
      DealHole();
    }

    /** nextEligibleFrom: the scan for a seat that can act, starting at start. */
    method NextEligibleFrom(start: nat) returns (r: nat)
      requires Shape() && start < players.Length
      ensures IsNextEligible(players[..], start, r)
    {
      var n := players.Length;
      var i := start;
      var k := 0;
      while k < n
        invariant 0 <= k <= n && i < n
        invariant k < n ==> i == Around(start, k, n)
        invariant forall d :: 0 <= d < k ==> !EligibleAt(players[..], start, d)
      {
        if Eligible(players[i]) {
          assert EligibleAt(players[..], start, k);
          return i;
        }
        if k + 1 < n {
          AroundStep(start, k, n);
        }
        i := NextIdx(i, n);
        k := k + 1;
      }
      return start;
    }

    /** rotateToNext: the turn passes to the first seat after the current one that can act. */
    method RotateToNext()
      requires Shape()
      modifies this
      ensures Status() == old(Status()).(current := current)
      ensures IsNextEligible(players[..], NextIdx(old(current), players.Length), current)
    {
      current := NextEligibleFrom(NextIdx(current, players.Length));
    }

    /** Seat i moves pay chips from its stack to its bet and its contribution. */
    method PutChips(i: nat, pay: nat)
      requires Shape() && i < players.Length && pay <= players[i].stack
      modifies players, contrib
      ensures players[..] == old(players[..])[i := Paid(old(players[i]), pay)]
      ensures contrib[..] == old(contrib[..])[i := old(contrib[i]) + pay]
      ensures Chips() == old(Chips()) && (old(Ledger()) ==> Ledger())
    {
      PaidSums(players[..], i, pay);
      SumUpdate(contrib[..], i, contrib[i] + pay);
      players[i] := Paid(players[i], pay);
      contrib[i] := contrib[i] + pay;
    }

    /** postBlind: seat i puts in amt, or its whole stack when shorter, going all in when the stack runs out. */
    method PostBlind(i: nat, amt: nat)
      requires Shape() && i < players.Length
      modifies players, contrib
      ensures players[..] == old(players[..])[i := Paid(old(players[i]), MinNat(amt, old(players[i]).stack))]
      ensures contrib[..] == old(contrib[..])[i := old(contrib[i]) + MinNat(amt, old(players[i]).stack)]
      ensures Chips() == old(Chips()) && (old(Ledger()) ==> Ledger())
    {
      PutChips(i, MinNat(amt, players[i].stack));
    }

    /** foldAction: seat i folds and has acted. */
    method FoldAction(i: nat)
      requires Shape() && i < players.Length
      modifies players
      ensures players[..] == old(players[..])[i := old(players[i]).(folded := true, acted := true)]
      ensures Chips() == old(Chips()) && (old(Ledger()) ==> Ledger())
    {
      SeatChipsKept(players[..], i, players[i].(folded := true, acted := true));
      UpdateSums(players[..], i, players[i].(folded := true, acted := true));
      players[i] := players[i].(folded := true, acted := true);
    }

    /**
     * callAction: seat i moves the amount to call, capped by its stack, from
     * its stack to its bet and its contribution, goes all in when the stack
     * runs out, and has acted.
     */
    method CallAction(i: nat)
      requires Shape() && i < players.Length
      modifies players, contrib
      ensures players[..] == old(players[..])[i := Paid(old(players[i]), CallPay(old(players[..]), i)).(acted := true)]
      ensures contrib[..] == old(contrib[..])[i := old(contrib[i]) + CallPay(old(players[..]), i)]
      ensures Chips() == old(Chips()) && (old(Ledger()) ==> Ledger())
    {
      var need := ToCall(players[..], i);
      var pay := MinNat(need, players[i].stack);
      PutChips(i, pay);
      SeatChipsKept(players[..], i, players[i].(acted := true));
      UpdateSums(players[..], i, players[i].(acted := true));
      players[i] := players[i].(acted := true);
    }

    /**
     * raiseToAction: without chips or without anything to add this is a
     * call; otherwise seat i puts in up to target, the raise size is kept
     * when it is at least the last one, the action reopens for everyone
     * else, and i becomes the street's aggressor.
     */
    method RaiseToAction(i: nat, target: nat)
      requires Shape() && i < players.Length
      modifies this, players, contrib
      ensures old(players[i]).stack == 0 || target <= old(players[i]).bet ==>
        players[..] == old(players[..])[i := Paid(old(players[i]), CallPay(old(players[..]), i)).(acted := true)]
        && contrib[..] == old(contrib[..])[i := old(contrib[i]) + CallPay(old(players[..]), i)]
        && Status() == old(Status())
      ensures old(players[i]).stack > 0 && target > old(players[i]).bet ==>
        var put := MinNat(target - old(players[i]).bet, old(players[i]).stack);
        var paid := old(players[..])[i := Paid(old(players[i]), put)];
        var size := MaxBet(paid) - MaxBet(old(players[..]));
        players[..] == Reopened(paid, i)
        && contrib[..] == old(contrib[..])[i := old(contrib[i]) + put]
        && lastRaiseSize == (if size >= old(lastRaiseSize) then size else old(lastRaiseSize))
        && preflopAggressor == (if old(street) == Preflop then Some(i) else old(preflopAggressor))
        && aggressor == (if old(street) == Preflop then old(aggressor) else Some(i))
        && Status() == old(Status()).(lastRaiseSize := lastRaiseSize, preflopAggressor := preflopAggressor, aggressor := aggressor)
      ensures Chips() == old(Chips()) && (old(Ledger()) ==> Ledger())
    {
      var p := players[i];
      if p.stack == 0 || target <= p.bet {
        CallAction(i);
        return;
      }
      RaisePut(i, MinNat(target - p.bet, p.stack));
    }

    /** The raising branch of raiseToAction: seat i puts in put chips and reopens the action. */
    method RaisePut(i: nat, put: nat)
      requires Shape() && i < players.Length && put <= players[i].stack
      modifies this, players, contrib
      ensures var paid := old(players[..])[i := Paid(old(players[i]), put)];
        var size := MaxBet(paid) - MaxBet(old(players[..]));
        players[..] == Reopened(paid, i)
        && contrib[..] == old(contrib[..])[i := old(contrib[i]) + put]
        && lastRaiseSize == (if size >= old(lastRaiseSize) then size else old(lastRaiseSize))
        && preflopAggressor == (if old(street) == Preflop then Some(i) else old(preflopAggressor))
        && aggressor == (if old(street) == Preflop then old(aggressor) else Some(i))
        && Status() == old(Status()).(lastRaiseSize := lastRaiseSize, preflopAggressor := preflopAggressor, aggressor := aggressor)
      ensures Chips() == old(Chips()) && (old(Ledger()) ==> Ledger())
    {
      ghost var ps0 := players[..];
      var beforeMax := MaxBet(players[..]);
      MaxBetGrows(players[..], i, Paid(players[i], put));
      PutChips(i, put);
      ghost var paid := players[..];
      var newMax := MaxBet(players[..]);
      NoteRaise(i, newMax - beforeMax);
      ReopenAction(i);
    }

    /** The raise size is kept when it is at least the last one, and seat i becomes the street's aggressor. */
    method NoteRaise(i: nat, raiseSize: nat)
      modifies this`lastRaiseSize, this`preflopAggressor, this`aggressor
      ensures lastRaiseSize == (if raiseSize >= old(lastRaiseSize) then raiseSize else old(lastRaiseSize))
      ensures preflopAggressor == (if street == Preflop then Some(i) else old(preflopAggressor))
      ensures aggressor == (if street == Preflop then old(aggressor) else Some(i))
    {
      if raiseSize >= lastRaiseSize {
        lastRaiseSize := raiseSize;
      }
      if street == Preflop {
        preflopAggressor := Some(i);
      } else {
        aggressor := Some(i);
      }
    }

    /** The acted-flag loop of raiseToAction. */
    method ReopenAction(i: nat)
      requires Shape() && i < players.Length
      modifies players
      ensures players[..] == Reopened(old(players[..]), i)
      ensures Chips() == old(Chips()) && (old(Ledger()) ==> Ledger())
    {
      ghost var ps := players[..];
      for q := 0 to players.Length
        invariant forall j :: 0 <= j < q ==> players[j] == Reopened(ps, i)[j]
        invariant forall j :: q <= j < players.Length ==> players[j] == ps[j]
      {
        var p := players[q];
        if !p.folded && !p.allIn {
          players[q] := p.(acted := q == i);
        }
      }
      assert players[..] == Reopened(ps, i);
      ReopenedMeaning(ps, i);
    }

    /** deck.pop(): the last card of the deck leaves it. */
    method Pop() returns (c: Card)
      requires |deck| > 0
      modifies this`deck
      ensures c == old(deck)[|old(deck)| - 1] && deck == old(deck)[..|old(deck)| - 1]
    {
      c := deck[|deck| - 1];
      deck := deck[..|deck| - 1];
    }

    /** burn: the last card of the deck is discarded. */
    method Burn()
      requires |deck| > 0
      modifies this`deck
      ensures deck == old(deck)[..|old(deck)| - 1]
    {
      var _ := Pop();
    }

    /** Both blinds, the small one on the seat after the button and the big one on the seat after that. */
    method PostBlinds()
      requires Shape()
      modifies players, contrib
      ensures players[..] == Blinded(old(players[..]), button, sb, bb)
      ensures old(contrib[..] == Bets(players[..])) ==> contrib[..] == Bets(players[..])
      ensures Chips() == old(Chips()) && (old(Ledger()) ==> Ledger())
    {
      var n := players.Length;
      var s := NextIdx(button, n);
      var b := NextIdx(s, n);
      BetsUpdate(players[..], s, Paid(players[s], MinNat(sb, players[s].stack)));
      PostBlind(s, sb);
      BetsUpdate(players[..], b, Paid(players[b], MinNat(bb, players[b].stack)));
      PostBlind(b, bb);
    }

    /** The seat i takes the card c into its hole cards. */
    method GiveCard(i: nat, c: Card)
      requires i < players.Length
      modifies players
      ensures players[..] == old(players[..])[i := old(players[i]).(cards := old(players[i]).cards + [c])]
    {
      players[i] := players[i].(cards := players[i].cards + [c]);
    }

    /** One round of dealHole's inner loop: every seat in turn from s0, if still in the hand, takes the last card. */
    method DealPass(s0: nat)
      requires Shape() && s0 < players.Length && |deck| >= players.Length
      modifies this`deck, players
      ensures players[..] == DealRound(old(players[..]), old(deck), s0)
      ensures deck == old(deck)[..|old(deck)| - DealtBefore(old(players[..]), s0, players.Length)]
    {
      var n := players.Length;
      ghost var ps := players[..];
      ghost var d0 := deck;
      var i := s0;
      var k := 0;
      while k < n
        invariant 0 <= k <= n && i < n
        invariant k < n ==> i == Around(s0, k, n)
        invariant deck == d0[..|d0| - DealtBefore(ps, s0, k)]
        invariant players[..] == PartialDeal(ps, d0, s0, k)
      {
        PartialDealStep(ps, d0, s0, k);
        var p := players[i];
        if !p.folded {
          var c := Pop();
          assert c == d0[|d0| - 1 - DealtBefore(ps, s0, k)];
          assert deck == d0[..|d0| - DealtBefore(ps, s0, k + 1)];
          GiveCard(i, c);
        }
        if k + 1 < n {
          AroundStep(s0, k, n);
        }
        i := NextIdx(i, n);
        k := k + 1;
      }
      PartialDealEnds(ps, d0, s0);
    }

    /** dealHole: two rounds of one card to each seat in the hand, starting left of the button. */
    method DealHole()
      requires Shape() && |deck| >= 2 * players.Length
      modifies this`deck, players
      ensures players[..] == HoleDealt(old(players[..]), old(deck), NextIdx(button, players.Length))
      ensures deck == DeckAfterHole(old(players[..]), old(deck), NextIdx(button, players.Length))
      ensures Stacks(players[..]) == old(Stacks(players[..])) && Bets(players[..]) == old(Bets(players[..]))
      ensures FoldedFlags(players[..]) == old(FoldedFlags(players[..]))
    {
      var n := players.Length;
      var s0 := NextIdx(button, n);
      ghost var ps := players[..];
      ghost var d0 := deck;
      DealPass(s0);
      ghost var ps1 := players[..];
      DealRoundKeeps(ps, d0, s0);
      DealtBeforeFlags(ps, ps1, s0, n);
      DealPass(s0);
      DealRoundKeeps(ps1, d0[..|d0| - DealtBefore(ps, s0, n)], s0);
    }

    /** The bet-clearing loop. */
    method ZeroBets()
      modifies players
      ensures players[..] == NoBets(old(players[..]))
    {
      ghost var ps := players[..];
      for q := 0 to players.Length
        invariant forall j :: 0 <= j < q ==> players[j] == ps[j].(bet := 0)
        invariant forall j :: q <= j < players.Length ==> players[j] == ps[j]
      {
        players[q] := players[q].(bet := 0);
      }
      assert players[..] == NoBets(ps);
    }

    /** The acted-clearing loop. */
    method ClearActed()
      modifies players
      ensures players[..] == NoneActed(old(players[..]))
    {
      ghost var ps := players[..];
      for q := 0 to players.Length
        invariant forall j :: 0 <= j < q ==> players[j] == ps[j].(acted := false)
        invariant forall j :: q <= j < players.Length ==> players[j] == ps[j]
      {
        players[q] := players[q].(acted := false);
      }
      assert players[..] == NoneActed(ps);
    }

    /** moveBetsToPot: the street's bets go to the pot, the minimum raise resets to the big blind, nobody has acted. */
    method MoveBetsToPot()
      requires Shape()
      modifies this, players
      ensures players[..] == NoneActed(NoBets(old(players[..])))
      ensures Status() == old(Status()).(potCommitted := old(potCommitted + Sum(Bets(players[..]))), lastRaiseSize := bb)
      ensures Chips() == old(Chips()) && (old(Ledger()) ==> Ledger())
      ensures Sum(Bets(players[..])) == 0
    {
      ghost var ps := players[..];
      potCommitted := potCommitted + Sum(Bets(players[..]));
      ZeroBets();
      lastRaiseSize := bb;
      ClearActed();
      ClearingSums(ps);
      ClearingSums(NoBets(ps));
    }

    /** awardIfOnlyOne: with a single seat not folded, it takes the pot and every bet and the hand ends. */
    method AwardIfOnlyOne() returns (won: bool)
      requires Shape()
      modifies this, players
      ensures won <==> |AliveSeats(old(players[..]))| == 1
      ensures won ==> (players[..] == PayLone(old(players[..]), old(potCommitted))
        && Status() == old(Status()).(handEnded := true))
      ensures !won ==> players[..] == old(players[..]) && Status() == old(Status())
    {
      var alive := AliveSeats(players[..]);
      if |alive| == 1 {
        var w := alive[0];
        var total := potCommitted + Sum(Bets(players[..]));
        players[w] := players[w].(stack := players[w].stack + total);
        handEnded := true;
        return true;
      }
      return false;
    }

    /** Splitting one layer: each winner in turn gets the floor share, and one more chip while the remainder lasts. */
    method PaySplit(ws: seq<nat>, amount: nat)
      requires 0 < |ws| && forall t :: 0 <= t < |ws| ==> ws[t] < players.Length
      modifies players
      ensures players[..] == WithStacks(old(players[..]), Credit(Stacks(old(players[..])), ws, amount, |ws|))
    {
      ghost var ps := players[..];
      var k := |ws|;
      var share := amount / k;
      var remainder: int := amount - share * k;
      assert remainder == amount % k;
      WithStacksTwice(ps, Stacks(ps), Stacks(ps));
      var t := 0;
      while t < k
        invariant 0 <= t <= k
        invariant remainder == if t < amount % k then amount % k - t else 0
        invariant players[..] == WithStacks(ps, Credit(Stacks(ps), ws[..t], amount, k))
      {
        var i := ws[t];
        var add := share;
        if remainder > 0 {
          add := add + 1;
          remainder := remainder - 1;
        }
        ghost var cr := Credit(Stacks(ps), ws[..t], amount, k);
        assert add == Share(amount, k, t);
        assert players[i].stack == cr[i];
        CreditStep(Stacks(ps), ws, amount, k, t);
        WithStacksUpdate(ps, cr, i, cr[i] + add);
        players[i] := players[i].(stack := players[i].stack + add);
        t := t + 1;
      }
      assert ws[..t] == ws;
    }

    /** The award loop: every layer with contenders goes to its best hands; a layer nobody left can win stays put. */
    method AwardLayers(segs: seq<Segment>, scores: seq<Score>)
      requires |scores| == players.Length && SeatsBelow(segs, players.Length)
      modifies players
      ensures players[..] == WithStacks(old(players[..]), Award(Stacks(old(players[..])), segs, scores))
    {
      ghost var ps := players[..];
      WithStacksTwice(ps, Stacks(ps), Stacks(ps));
      for k := 0 to |segs|
        invariant players[..] == WithStacks(ps, Award(Stacks(ps), segs[..k], scores))
      {
        assert segs[..k + 1][..k] == segs[..k];
        var seg := segs[k];
        if |seg.participants| > 0 {
          var ws := FindWinners(seg.participants, scores);
          ghost var before := Award(Stacks(ps), segs[..k], scores);
          WithStacksMeaning(ps, before);
          PaySplit(ws, seg.amount);
          WithStacksTwice(ps, before, Credit(before, ws, seg.amount, |ws|));
        }
      }
      assert segs[..|segs|] == segs;
    }

    /** The score of every seat: its best seven-card hand, or zeros when folded. */
    method ScoreSeats() returns (scores: seq<Score>)
      ensures scores == ShowdownScores(players[..], board)
    {
      ghost var ps := players[..];
      scores := [];
      for i := 0 to players.Length
        invariant scores == ShowdownScores(ps[..i], board)
      {
        var sc := ScoreOf(players[i], board);
        assert ps[..i + 1][..i] == ps[..i];
        scores := scores + [sc];
      }
      assert ps[..players.Length] == ps;
    }

    /** The refund of an uncalled remainder to a seat still in the hand. */
    method RefundLone(lone: Option<Lone>)
      requires lone.Some? ==> lone.value.seat < players.Length
      modifies players
      ensures players[..] == WithStacks(old(players[..]),
        Refund(Stacks(old(players[..])), lone, FoldedFlags(old(players[..]))))
    {
      ghost var ps := players[..];
      WithStacksTwice(ps, Stacks(ps), Stacks(ps));
      if lone.Some? {
        var i := lone.value.seat;
        if !players[i].folded && lone.value.amount > 0 {
          WithStacksUpdate(ps, Stacks(ps), i, players[i].stack + lone.value.amount);
          players[i] := players[i].(stack := players[i].stack + lone.value.amount);
        }
      }
    }

    /**
     * showdown: a lone survivor takes everything; otherwise the bets are
     * cleared, the contributions are peeled into layers, the uncalled
     * remainder is refunded, equal-contender layers are merged and each is
     * split among its best hands. The hand is then over.
     */
    method PayShowdown()
      requires Shape()
      modifies this`handEnded, players
      ensures players[..] == ShowdownResult(old(players[..]), contrib[..], board, potCommitted)
      ensures handEnded
    {
      var n := players.Length;
      ghost var ps := players[..];
      var alive := AliveSeats(players[..]);
      if |alive| == 1 {
        var w := alive[0];
        var total := potCommitted + Sum(Bets(players[..]));
        players[w] := players[w].(stack := players[w].stack + total);
        handEnded := true;
        return;
      }
      ZeroBets();
      ClearingSums(ps);
      var c := contrib[..];
      var folded := FoldedFlags(players[..]);
      var segments, lone := PeelLayers(c, folded);
      PeelSeats(c, folded);
      RefundLone(lone);
      ghost var refunded := Refund(Stacks(ps), lone, folded);
      var merged := MergeSegments(segments);
      MergeSeats(segments, n);
      var scores := ScoreSeats();
      ScoresIgnoreChips(ps, refunded, board);
      WithStacksMeaning(NoBets(ps), refunded);
      AwardLayers(merged, scores);
      WithStacksTwice(NoBets(ps), refunded, Award(refunded, merged, scores));
      handEnded := true;
    }

    /** The flop: burn one card, then three to the board. */
    method DealFlop()
      requires |deck| >= 4
      modifies this`deck, this`board
      ensures var d := old(deck);
        board == old(board) + [d[|d| - 2], d[|d| - 3], d[|d| - 4]] && deck == d[..|d| - 4]
      ensures Status() == old(Status()).(deck := deck, board := board)
    {
      Burn();
      var c1 := Pop();
      var c2 := Pop();
      var c3 := Pop();
      board := board + [c1, c2, c3];
    }

    /** The turn or the river: burn one card, then one to the board. */
    method DealOne()
      requires |deck| >= 2
      modifies this`deck, this`board
      ensures var d := old(deck);
        board == old(board) + [d[|d| - 2]] && deck == d[..|d| - 2]
      ensures Status() == old(Status()).(deck := deck, board := board)
    {
      Burn();
      var c := Pop();
      board := board + [c];
    }

    /**
     * nextStreet: before the river, burn and deal the next board cards, the
     * street's aggressor becomes the previous one and the first seat left of
     * the button that can act is to act; after the river, the showdown.
     */
    method NextStreet()
      requires Valid() && !handEnded
      modifies this, players
      ensures Valid()
      ensures old(street) != River ==> StreetDealt(old(players[..]), old(Status()), players[..], Status(), button)
      ensures old(street) == River ==> ShowdownPaid(old(players[..]), old(Status()), players[..], Status(), contrib[..])
    {
      if street == Preflop {
        DealFlop();
        BeginStreet(Flop, preflopAggressor);
      } else if street == Flop {
        DealOne();
        BeginStreet(Turn, aggressor);
      } else if street == Turn {
        DealOne();
        BeginStreet(River, aggressor);
      } else {
        FinishHand();
      }
    }

    /** After the river: the street becomes the showdown and the showdown pays out. */
    method FinishHand()
      requires Valid() && !handEnded && street == River
      modifies this`street, this`handEnded, players
      ensures street == Showdown && handEnded
      ensures players[..] == ShowdownResult(old(players[..]), contrib[..], board, potCommitted)
      ensures Valid()
      ensures Sum(Stacks(players[..])) + Unawarded() == old(Chips())
    {
      ghost var ps := players[..];
      street := Showdown;
      PayShowdown();
      ShowdownPays(ps, contrib[..], board, potCommitted);
    }

    /** The common tail of nextStreet's board streets: new street, aggressor history, first to act. */
    method BeginStreet(next: Street, prev: Option<nat>)
      requires Shape()
      modifies this`street, this`prevAggressor, this`aggressor, this`current
      ensures Status() == old(Status()).(street := next, prevAggressor := prev, aggressor := None, current := current)
      ensures IsNextEligible(players[..], NextIdx(button, players.Length), current) && current < players.Length
    {
      prevAggressor := prev;
      aggressor := None;
      street := next;
      current := NextEligibleFrom(NextIdx(button, players.Length));
    }

    /**
     * The end of a betting round in step: the bets go to the pot and the
     * next street starts, or after the river the showdown ends the hand.
     */
    method EndRound()
      requires Valid() && !handEnded
      modifies this, players
      ensures Valid()
      ensures RoundEnded(old(players[..]), old(Status()), players[..], Status(), contrib[..], button, bb)
      ensures handEnded <==> old(street) == River
      ensures !handEnded ==> (Chips() == old(Chips())
        && CountEligible(players[..]) == old(CountEligible(players[..]))
        && (CountEligible(players[..]) > 0 ==> Eligible(players[current])))
      ensures handEnded ==> Sum(Stacks(players[..])) + Unawarded() == old(Chips())
    {
      ghost var ps, s0 := players[..], Status();
      MoveBetsToPot();
      ghost var moved, s1 := players[..], Status();
      assert s1 == s0.(potCommitted := s0.potCommitted + Sum(Bets(ps)), lastRaiseSize := bb);
      ClearingSums(ps);
      ClearingSums(NoBets(ps));
      if street == River {
        FinishHand();
        RoundEndedIntro(ps, s0, moved, s1, players[..], Status(), contrib[..], button, bb);
      } else {
        NextStreet();
        RoundEndedIntro(ps, s0, moved, s1, players[..], Status(), contrib[..], button, bb);
        CountEligibleSame(moved, ps);
        NextEligibleCanAct(players[..], NextIdx(button, players.Length), current);
      }
    }

    /**
     * step: the seat to act folds, calls or raises (to at least the minimum
     * raise), a lone survivor takes the pot, the turn passes on, streets are
     * run out while at most one seat can act, and a settled round moves to
     * the next street or the showdown. An ended hand does not change.
     */
    method Step(act: Action)
      requires Valid()
      modifies this, players, contrib
      ensures Valid()
      ensures old(handEnded) ==> players[..] == old(players[..]) && contrib[..] == old(contrib[..]) && Status() == old(Status())
      ensures !old(handEnded) && |AliveSeats(old(players[..]))| == 1 ==>
        handEnded && players[..] == PayLone(old(players[..]), old(potCommitted)) && contrib[..] == old(contrib[..])
      ensures !old(handEnded) && !handEnded ==> Chips() == old(Chips())
      ensures !old(handEnded) && handEnded ==> Sum(Stacks(players[..])) + Unawarded() == old(Chips())
      ensures !handEnded ==> CountEligible(players[..]) >= 2 && Eligible(players[current])
    {
      if handEnded {
        return;
      }
      var won := AwardIfOnlyOne();
      if won {
        LoneEnds(old(players[..]), old(potCommitted));
        return;
      }
      Act(act);
      ghost var turn := Advance();
    }

    /**
     * The rest of step after the action: a lone survivor takes the pot, or
     * the turn passes on and the streets are run out as far as they go.
     */
    method Advance() returns (ghost turn: nat)
      requires Valid() && !handEnded
      modifies this, players
      ensures Valid()
      ensures |AliveSeats(old(players[..]))| == 1 ==>
        handEnded && players[..] == PayLone(old(players[..]), old(potCommitted))
      ensures |AliveSeats(old(players[..]))| != 1 ==> PassedOn(old(players[..]), old(Status()), turn)
      ensures !handEnded ==> (Chips() == old(Chips()) && CountEligible(players[..]) >= 2 && Eligible(players[current]))
      ensures handEnded ==> Sum(Stacks(players[..])) + Unawarded() == old(Chips())
    {
      ghost var ps := players[..];
      turn := current;
      var won := AwardIfOnlyOne();
      if won {
        LoneEnds(ps, potCommitted);
        return;
      }
      turn := PassTurn();
    }

    /**
     * After the action, from seats ps and scalars s: the turn passes to turn,
     * the first seat after the one that acted that can act; with at most one
     * seat able to act the streets run out to the showdown; otherwise a
     * settled round ends, and an unsettled one goes on unchanged.
     */
    ghost predicate PassedOn(ps: seq<Player>, s: TableStatus, turn: nat)
      requires |ps| == players.Length && contrib.Length == players.Length && s.current < players.Length
      reads this, players, contrib
    {
      IsNextEligible(ps, NextIdx(s.current, |ps|), turn)
      && (CountEligible(ps) <= 1 ==> RanOut(ps, s.(current := turn), players[..], Status(), contrib[..], button, bb))
      && (CountEligible(ps) >= 2 ==>
        if Settled(ps) then RoundEnded(ps, s.(current := turn), players[..], Status(), contrib[..], button, bb)
        else players[..] == ps && Status() == s.(current := turn))
    }

    /** rotateToNext, then the fast-forward and the round-end check. */
    method PassTurn() returns (ghost turn: nat)
      requires Valid() && !handEnded
      modifies this, players
      ensures Valid()
      ensures PassedOn(old(players[..]), old(Status()), turn)
      ensures !handEnded ==> (Chips() == old(Chips()) && CountEligible(players[..]) >= 2 && Eligible(players[current]))
      ensures handEnded ==> Sum(Stacks(players[..])) + Unawarded() == old(Chips())
    {
      RotateToNext();
      turn := current;
      NextEligibleCanAct(players[..], NextIdx(old(current), players.Length), current);
      RunOut();
    }

    /**
     * The fast-forward and the round-end check of step: while at most one
     * seat can act the round ends at once, street after street; then a
     * settled round ends too.
     */
    method RunOut()
      requires Valid() && !handEnded && (CountEligible(players[..]) > 0 ==> Eligible(players[current]))
      modifies this, players
      ensures Valid()
      ensures old(CountEligible(players[..])) <= 1 ==> handEnded && street == Showdown
      ensures old(CountEligible(players[..])) <= 1 ==>
        RanOut(old(players[..]), old(Status()), players[..], Status(), contrib[..], button, bb)
      ensures old(CountEligible(players[..])) >= 2 ==>
        if Settled(old(players[..])) then
          RoundEnded(old(players[..]), old(Status()), players[..], Status(), contrib[..], button, bb)
        else players[..] == old(players[..]) && Status() == old(Status())
      ensures !handEnded ==> (Chips() == old(Chips()) && CountEligible(players[..]) >= 2 && Eligible(players[current]))
      ensures handEnded ==> Sum(Stacks(players[..])) + Unawarded() == old(Chips())
    {
      while !handEnded && CountEligible(players[..]) <= 1
        invariant Valid()
        invariant !handEnded ==> CountEligible(players[..]) == old(CountEligible(players[..]))
        invariant handEnded ==> street == Showdown
        invariant old(CountEligible(players[..])) <= 1 && !handEnded ==>
          RunningOut(old(players[..]), old(Status()), players[..], Status(), button, bb)
        invariant old(CountEligible(players[..])) <= 1 && handEnded ==>
          RanOut(old(players[..]), old(Status()), players[..], Status(), contrib[..], button, bb)
        invariant old(CountEligible(players[..])) >= 2 ==> players[..] == old(players[..]) && Status() == old(Status())
        invariant !handEnded ==> Chips() == old(Chips())
        invariant !handEnded ==> (CountEligible(players[..]) > 0 ==> Eligible(players[current]))
        invariant handEnded ==> Sum(Stacks(players[..])) + Unawarded() == old(Chips())
        decreases if handEnded then 0 else 5 - StreetIndex(street)
      {
        ghost var psk, sk := players[..], Status();
        EndRound();
        RunningOutStep(old(players[..]), old(Status()), psk, sk, players[..], Status(), contrib[..], button, bb);
      }
      if !handEnded {
        var settled := AllBetsSettled();
        if CountEligible(players[..]) == 0 || settled {
          EndRound();
        }
      }
    }

    /** The action of the seat to act: fold, call, or raise to the requested amount clamped to the minimum raise. */
    method Act(act: Action)
      requires Valid() && !handEnded
      modifies this, players, contrib
      ensures Valid() && !handEnded && Chips() == old(Chips())
      ensures act.Fold? ==>
        players[..] == old(players[..])[old(current) := old(players[current]).(folded := true, acted := true)]
        && contrib[..] == old(contrib[..]) && Status() == old(Status())
      ensures act.Call? ==>
        players[..] == old(players[..])[old(current) := Paid(old(players[current]), CallPay(old(players[..]), old(current))).(acted := true)]
        && contrib[..] == old(contrib[..])[old(current) := old(contrib[current]) + CallPay(old(players[..]), old(current))]
        && Status() == old(Status())
      ensures act.Raise? ==>
        var i := old(current); var p := old(players[current]);
        var tgt := RaiseTarget(old(players[..]), old(lastRaiseSize), bb, act.to);
        if p.stack == 0 || tgt <= p.bet then
          players[..] == old(players[..])[i := Paid(p, CallPay(old(players[..]), i)).(acted := true)]
          && contrib[..] == old(contrib[..])[i := old(contrib[i]) + CallPay(old(players[..]), i)]
          && Status() == old(Status())
        else
          var put := MinNat(tgt - p.bet, p.stack);
          var paid := old(players[..])[i := Paid(p, put)];
          var size := MaxBet(paid) - MaxBet(old(players[..]));
          players[..] == Reopened(paid, i)
          && contrib[..] == old(contrib[..])[i := old(contrib[i]) + put]
          && Status() == old(Status()).(lastRaiseSize := if size >= old(lastRaiseSize) then size else old(lastRaiseSize),
            preflopAggressor := if old(street) == Preflop then Some(i) else old(preflopAggressor),
            aggressor := if old(street) == Preflop then old(aggressor) else Some(i))
    {
      var i := current;
      match act
      case Fold =>
        FoldAction(i);
      case Call =>
        CallAction(i);
      case Raise(to) =>
        var tgt := RaiseTarget(players[..], lastRaiseSize, bb, to);
        RaiseToAction(i, tgt);
    }

    /** allBetsSettled: the scan that every live seat has matched the largest bet and acted. */
    method AllBetsSettled() returns (b: bool)
      requires Shape()
      ensures b == Settled(players[..])
    {
      var mx := MaxBet(players[..]);
      var i := 0;
      while i < players.Length
        invariant 0 <= i <= players.Length
        invariant forall j :: 0 <= j < i && !players[j].folded && !players[j].allIn ==>
          players[j].bet == mx && players[j].acted
      {
        var p := players[i];
        if !p.folded && !p.allIn {
          if p.bet != mx {
            return false;
          }
          if !p.acted {
            return false;
          }
        }
        i := i + 1;
      }
      return true;
    }
  }
}
