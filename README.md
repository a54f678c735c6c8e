# PokerTutor engine in Dafny

A verified model of the engine behind PokerTutor, a no-limit Texas Hold'em
trainer. It covers the hand state machine, the hand evaluator, the deck, the
preflop rating tables, the coach and the bot:

- **The betting state machine** (`engine.dfy`, with the showdown's side-pot
  ledger in `pots.dfy`) is a class `Engine.Table`. It has the seat array and
  the per-seat contribution array, and a method for every engine routine:
  - posting blinds, where a short stack goes all in;
  - dealing and burning from the end of the deck;
  - fold, call and raise, with raises clamped to the minimum raise;
  - turn rotation, skipping folded, all-in and empty seats;
  - the street changes and the fast-forward while at most one seat can act;
  - the lone-survivor award;
  - the showdown, which peels contributions into layers, refunds the
    uncalled remainder, merges layers with the same contenders and splits
    each layer among its best hands, odd chips first.
- **The hand evaluator** (`eval.dfy`, with `sequences.dfy`, `runs.dfy`,
  `scores.dfy` and `combos.dfy`):
  - scores five cards as `[category, kickers…]`;
  - compares scores lexicographically, with missing entries reading as 0;
  - takes the best of every five-card subset;
  - detects flush draws and open-ended straight draws.
- **The deck** (`deck.dfy`): the 52-card deck, the Fisher–Yates shuffle over
  an injected sequence of random draws, and the card labels.
- **Personas** (`personas.dfy`):
  - the three threshold tables and the persona-to-tier map;
  - the preflop rating, in tenths so that it stays an integer;
  - the position counted from the button;
  - the unraised and limped classifications.
- **The coach** (`coach.dfy`) and **the bot** (`bot.dfy`) are decision trees
  over a read-only `Snapshot` of the table. The bot's three random draws are
  boolean inputs (`Bot.Coins`).
- **Double arithmetic** (`doubles.dfy`): just enough of IEEE 754 doubles to
  take the bot's `Math.floor(pot * 0.35)` as JavaScript computes it.

Chips are natural numbers throughout, so rounding a chip count is the
identity and the engine's tolerant equality on chip counts is `==`.

Two of the showdown's own comments promise less than, or something other
than, what its code does; the model follows the code:

- **Merging layers.** The comment at `src/engine/engine.ts:403` calls
  coalescing adjacent layers with the same contenders optional, for cleaner
  logs. The merge changes who gets the odd chips: two layers of 3 chips split
  between two winners pay 4 and 2 when kept apart, but 3 and 3 once merged.
  `Engine.Table.PayShowdown` merges before splitting, as the code does.
- **Uncalled remainder.** The comment at `src/engine/engine.ts:381` says the
  single unmatched stack is refunded. The code refunds it only when that seat
  has not folded (`src/engine/engine.ts:383`), and otherwise drops it.
  `Pots.Refund` and `Pots.RefundSum` say so, and `Pots.SettleConserves`
  counts the dropped chips as unpaid.

## Model

| member | source | states |
|---|---|---|
| Sequences.SortDesc | src/engine/eval.ts:36 | the descending sort keeps the elements: same length and multiset |
| Sequences.SortDescSorted | src/engine/eval.ts:36 | the sorted sequence is non-increasing |
| Sequences.SortDescMembers | src/engine/eval.ts:36 | a value is in the sorted sequence exactly when it is in the input (the same members) |
| Sequences.Dedupe | src/engine/eval.ts:11 | `Array.from(new Set(s))`: no longer than s and holding exactly the values of s |
| Sequences.DedupeDistinct | src/engine/eval.ts:11 | the de-duplicated sequence has no repeats and the same members |
| Sequences.DedupeOfSorted | src/engine/eval.ts:11 | de-duplicating a descending sequence leaves a strictly descending one |
| Sequences.SortDescOfDistinct | src/engine/eval.ts:116 | sorting de-duplicated ranks descending leaves them strictly descending |
| Sequences.Take | src/engine/eval.ts:51 | `slice(0, k)`: min(k, length) elements, and they are the input's prefix |
| Runs.HighestRun | src/engine/eval.ts:10-21 | finds only a value that really ends a run of the given length |
| Runs.HighestRunMeaning | src/engine/eval.ts:10-21 | a run is found exactly when one exists, and the one found is the highest |
| Runs.WithWheelAce | src/engine/eval.ts:12 | `uniq.push(1)` under a leading ace only appends: the ranks stay in front |
| Runs.ScanSequence | src/engine/eval.ts:11-12 | the sequence the run scan walks is strictly decreasing, stays in 1..14 and holds exactly the ranks present plus 1 under an ace |
| Runs.ScanStep | src/engine/eval.ts:14-19 | one step of the run counter keeps the chain length and the fact that no earlier window completed a run |
| Runs.ScanRun | src/engine/eval.ts:13-20 | the run-counter loop returns the top of the highest run of the required length, or none when there is none |
| Scores.Compare | src/engine/eval.ts:96-103 | compareScores' loop answers 1, -1 or 0 exactly as the padded lexicographic order does |
| Scores.CompareScores | src/engine/eval.ts:96-103 | the result is 1, -1 or 0 |
| Scores.CompareScoresMeaning | src/engine/eval.ts:96-103 | 0 exactly on ties after zero-padding, 1 exactly when a is lexicographically above b |
| Scores.CompareAntisymmetric | src/engine/eval.ts:96-103 | swapping the arguments negates the result |
| Scores.CompareReflexive | src/engine/eval.ts:96-103 | every score ties with itself |
| Scores.CompareTransitive | src/engine/eval.ts:96-103 | the order is transitive, and a chain ties end to end only if every step ties |
| Scores.DescribeScore | src/engine/eval.ts:105-107 | the name is one of the nine category names |
| Scores.DescribeScoreInjective | src/engine/eval.ts:105-107 | different categories get different names |
| Combos.Combos5 | src/engine/eval.ts:72-80 | the five nested loops yield exactly Combos5Of: the cards at each increasing 5-tuple of positions, in loop order |
| Combos.ExtendCombos | src/engine/eval.ts:74-79 | one loop level yields exactly the extensions of its prefix from its start position |
| Combos.Combos5Of | src/engine/eval.ts:72-80 | every combination is five cards of the input |
| Combos.Choose5Exact | src/engine/eval.ts:72-80 | the tuples enumerated are exactly the strictly increasing 5-tuples of positions |
| Combos.Choose5Count | src/engine/eval.ts:72-80 | there are C(n, 5) of them |
| Combos.SevenCardsGive21 | src/engine/eval.ts:72-80 | seven cards give 21 five-card hands |
| Combos.Combos5NonEmpty | src/engine/eval.ts:72-80 | five or more cards give at least one hand |
| Deck.DecimalString | src/engine/deck.ts:8 | `String(r)` is never empty |
| Deck.Digits | src/engine/deck.ts:8 | at least one character, each a decimal digit |
| Deck.DigitsRoundTrip | src/engine/deck.ts:8 | reading the digits back gives the number |
| Deck.RankLabel | src/engine/deck.ts:7-8 | up to 10 the decimal string; above, one of J, Q, K, A |
| Deck.CardLabel | src/engine/deck.ts:10 | the rank label followed by the suit symbol |
| Deck.RankLabelInjective | src/engine/deck.ts:7-8 | different ranks of real cards get different labels |
| Deck.CardLabelInjective | src/engine/deck.ts:10 | a card label identifies the card |
| Deck.MakeDeck | src/engine/deck.ts:12-16 | 52 cards, pairwise distinct, every card present, suit by suit and rank by rank |
| Deck.DeckIsComplete | src/engine/deck.ts:12-16 | a deck laid out like makeDeck's holds every card exactly once |
| Deck.DeckCard | src/engine/deck.ts:12-16 | defines the card makeDeck puts at position k: suit k/13, rank k%13; `Deck.DeckCardInjective` and `Deck.MakeDeck` give its meaning |
| Deck.Unshuffled | src/engine/deck.ts:12-16 | makeDeck's 52 cards, position k holding DeckCard(k) |
| Deck.SwapIndex | src/engine/deck.ts:21 | the swap partner lies in 0..i |
| Deck.SwapAt | src/engine/deck.ts:22 | exchanges two entries of the array and changes nothing else |
| Deck.Shuffle | src/engine/deck.ts:18-25 | the in-place Fisher–Yates loop on a fresh copy gives Shuffled(a, rng): same length, same multiset |
| Deck.ShuffledIsPermutation | src/engine/deck.ts:18-25 | shuffling gives a permutation of its input |
| Deck.ShuffledDeck | src/engine/engine.ts:110 | the deck of a new hand is exactly Shuffled(makeDeck(), rng): 52 cards, each card exactly once |
| Eval.FlushSuit | src/engine/eval.ts:39-40 | a suit held five or more times, or none when no suit is |
| Eval.RankGroupsFacts | src/engine/eval.ts:38 | the rank groups hold each rank of the hand once, ordered by count and then by rank, both descending |
| Eval.IsStraight | src/engine/eval.ts:10-21 | the scan returns the high card of the highest five-card run, the ace also counting as 1 |
| Eval.StraightHighRange | src/engine/eval.ts:10-21 | a straight's high card is in 5..14 and ends a real run |
| Eval.StraightHigh | src/engine/eval.ts:10-21 | defines isStraight's answer as the top of the highest five-card run (ace also 1); `Eval.IsStraight` and `Eval.StraightHighRange` prove the scan and the range |
| Eval.WheelIsFiveHigh | src/engine/eval.ts:10-21 | A-2-3-4-5 is the five-high straight |
| Eval.NoWrapAroundAce | src/engine/eval.ts:10-21 | K-A-2-3-4 is not a straight |
| Eval.Classify | src/engine/eval.ts:43-69 | the category chain gives a category in 0..8 |
| Eval.Evaluate5 | src/engine/eval.ts:35-70 | every hand scores a category in 0..8 |
| Eval.FlushOfFive | src/engine/eval.ts:39-44 | five suited cards have their common suit as flush suit and all their ranks as flush ranks |
| Eval.FeaturesOfFive | src/engine/eval.ts:35-41 | the features evaluate5 works out from five cards agree with the cards themselves |
| Eval.HandFeatures | src/engine/eval.ts:36-41 | defines evaluate5's inputs: the ranks high to low, the rank groups, the flush suit's ranks and the straight high card; `Eval.FeaturesOfFive` ties them to the cards |
| Eval.StraightFlushShape | src/engine/eval.ts:43-47 | category 8 exactly for five suited cards forming a run, scored [8, high] |
| Eval.QuadsShape | src/engine/eval.ts:48 | four of a rank score [7, that rank, the fifth card's rank] |
| Eval.FullHouseShape | src/engine/eval.ts:49 | three of one rank and two of another score [6, trips, pair] |
| Eval.TwoPairShape | src/engine/eval.ts:59-64 | two pairs among five different cards score [2, higher pair, lower pair, kicker] |
| Eval.StraightShape | src/engine/eval.ts:54 | a run of five cards not all of one suit scores [4, high] |
| Eval.ScoreMeansShape | src/engine/eval.ts:35-70 | the converse: each of those categories implies the corresponding shape of the hand |
| Eval.BestOfSnoc | src/engine/eval.ts:86-91 | one more score replaces the running best only when it is strictly higher |
| Eval.BestOfIsBest | src/engine/eval.ts:82-94 | the running best is at least every score seen and equal to one of them |
| Eval.Best7Dominates | src/engine/eval.ts:82-94 | the best-of-seven score is at least every five-card subset's score |
| Eval.Best7 | src/engine/eval.ts:82-94 | defines evaluateBest7's value: the best five-card score, or six zeros without five cards; `Eval.Best7Dominates` and `Eval.Best7Attained` make it the maximum |
| Eval.Best7Attained | src/engine/eval.ts:82-94 | with five or more cards the best score is some five-card subset's score |
| Eval.KeepHigher | src/engine/eval.ts:87-91 | the inner comparison loop keeps s exactly when compareScores ranks it above the best so far |
| Eval.EvaluateBest7 | src/engine/eval.ts:82-94 | returns Best7: the best subset score, all zeros without five cards |
| Eval.BestFive | src/engine/eval.ts:24-33 | the score equals evaluateBest7's, and the five cards are a subset that scores it |
| Eval.BestCombo | src/engine/eval.ts:26-31 | the search loop returns the best score together with the subset it came from |
| Eval.HasFlushDraw | src/engine/eval.ts:109-113 | true exactly when some suit occurs four or more times and all but two cards number at least minBoard |
| Eval.OpenEnderMeaning | src/engine/eval.ts:115-124 | an open ender is exactly a run of four distinct ranks (ace also 1) ending in 4..14, with the board condition |
| Eval.OpenEnder | src/engine/eval.ts:115-124 | defines hasOpenEnder's answer; `Eval.OpenEnderMeaning` states it as a run of four and `Eval.HasOpenEnder` proves the loop computes it |
| Eval.HasOpenEnder | src/engine/eval.ts:115-124 | the run-counter scan decides exactly that |
| Pots.Contributors | src/engine/engine.ts:378 | `everyone`: seats with a positive contribution, ascending |
| Pots.ContributorsMeaning | src/engine/engine.ts:378 | the contributors are exactly the seats with chips still in, strictly ascending |
| Pots.NonFolded | src/engine/engine.ts:397 | `participants`: the contributors that have not folded, in order |
| Pots.NonFoldedMembers | src/engine/engine.ts:397 | a layer's contenders are exactly its non-folded contributors |
| Pots.MinContribution | src/engine/engine.ts:393-394 | the minimum loop returns the smallest contribution of the contributors |
| Pots.MinOfMeaning | src/engine/engine.ts:393-394 | that minimum is some contributor's contribution and bounds every other |
| Pots.Lower | src/engine/engine.ts:400 | every positive contribution reduced by m, zeros untouched |
| Pots.LowerContributions | src/engine/engine.ts:400 | the loop computes exactly that |
| Pots.SumLower | src/engine/engine.ts:400 | lowering takes m from each contributor: the total drops by m times their number |
| Pots.EmptyStep | src/engine/engine.ts:379 | with no contributor left, nothing is peeled |
| Pots.LoneStep | src/engine/engine.ts:382-389 | one contributor left: its chips are the uncalled remainder and zeroing them ends the peeling |
| Pots.LayerStep | src/engine/engine.ts:392-400 | two or more contributors: a layer of m times their number, contested by the non-folded ones, then the rest |
| Pots.PeelLayers | src/engine/engine.ts:377-401 | the `while (true)` peeling loop terminates with exactly the layers and remainder of Peel |
| Pots.PeelConserves | src/engine/engine.ts:377-401 | the layers and the remainder add up to every contribution |
| Pots.PeelSeats | src/engine/engine.ts:377-401 | every layer and the remainder name seats of the table |
| Pots.Peel | src/engine/engine.ts:376-401 | defines the peeling loop's result: the layers, each the smallest contribution times the contributors, and the uncalled remainder; `Pots.PeelLayers`, `Pots.PeelSeats` and `Pots.PeelConserves` give its meaning |
| Pots.MergeSegments | src/engine/engine.ts:404-416 | the merge loop computes Merge of the layers |
| Pots.MergeConserves | src/engine/engine.ts:404-416 | merging neither creates nor loses chips |
| Pots.Merge | src/engine/engine.ts:403-416 | defines the coalesced layer list; `Pots.MergeShape`, `Pots.MergeConserves`, `Pots.MergeSeparates` and `Pots.MergeSegments` give its meaning |
| Pots.MergeKeepsClaims | src/engine/engine.ts:404-416 | merging moves no chips between layers with and without contenders |
| Pots.MergeSeparates | src/engine/engine.ts:404-416 | no two adjacent merged layers have the same contenders |
| Pots.MergeParticipants | src/engine/engine.ts:404-416 | every merged layer's contenders are those of some original layer |
| Pots.WinnersFold | src/engine/engine.ts:435-451 | the winner search yields a non-empty list of contenders exactly when there are contenders |
| Pots.WinnersMeaning | src/engine/engine.ts:435-451 | the winners are exactly the contenders tied with the best contender score, in their order |
| Pots.FindWinners | src/engine/engine.ts:435-451 | the winner loop computes that list |
| Pots.SharesExact | src/engine/engine.ts:454-462 | the shares of a layer add up to its amount |
| Pots.Share | src/engine/engine.ts:454-462 | defines the j-th winner's chips: the floor share plus one while the remainder lasts; `Pots.SharesExact` and `Pots.SharesFair` give its meaning |
| Pots.SharesFair | src/engine/engine.ts:454-462 | each share is the floor share or one more, and shares never increase along the winners |
| Pots.Credit | src/engine/engine.ts:456-462 | stacks after the first winners got their shares (length kept) |
| Pots.CreditSum | src/engine/engine.ts:456-462 | paying the first j winners adds exactly their shares |
| Pots.Award | src/engine/engine.ts:425-462 | stacks after every layer with contenders is split (length kept) |
| Pots.AwardSum | src/engine/engine.ts:425-462 | awarding pays out exactly the chips of layers with contenders |
| Pots.Refund | src/engine/engine.ts:384-388 | the remainder goes back to its seat unless that seat folded |
| Pots.RefundSum | src/engine/engine.ts:384-388 | the refund adds the remainder to the stacks exactly when its seat has not folded |
| Pots.SettleConserves | src/engine/engine.ts:370-462 | settlement hands out every contributed chip except a folded seat's remainder and the layers without contenders |
| Pots.Settle | src/engine/engine.ts:370-462 | defines the stacks after the showdown: refund, then award the merged layers; `Pots.SettleConserves` proves what it pays |
| Pots.Unpaid | src/engine/engine.ts:376-401 | defines the chips nobody receives: a folded seat's remainder and the layers without contenders; `Pots.SettleConserves` and `Pots.NoFoldsNothingUnpaid` give its meaning |
| Pots.NoFoldsAllClaimed | src/engine/engine.ts:396-397 | with nobody folded every layer has contenders |
| Pots.NoFoldsNothingUnpaid | src/engine/engine.ts:396-397 | with nobody folded a showdown pays out every contributed chip |
| Engine.MaxBetMeaning | src/engine/engine.ts:10-12 | the largest bet is some seat's bet and bounds every seat's bet |
| Engine.MaxBet | src/engine/engine.ts:10-12 | defines maxBet; `Engine.MaxBetMeaning` makes it the largest bet |
| Engine.ToCall | src/engine/engine.ts:14-18 | what seat i must add to reach the largest bet: bet plus it equals maxBet, never negative |
| Engine.MinRaiseTarget | src/engine/engine.ts:298-301 | maxBet plus the larger of the last raise size and the big blind |
| Engine.RaiseTargetClamped | src/engine/engine.ts:323 | the raise target step uses is at least maxBet + max(lastRaiseSize, bb); a larger request passes unchanged |
| Engine.RaiseTarget | src/engine/engine.ts:323 | defines the target step passes to raiseToAction: max(minRaiseTarget, to, or maxBet when to is missing); `Engine.RaiseTargetClamped` states the clamp |
| Engine.RaiseTargetExample | src/engine/engine.ts:323 | with maxBet 40 and last raise 20, a raise to 45 becomes 60 |
| Engine.CountEligible | src/engine/engine.ts:41-44 | how many seats can act: 0 exactly when none can, all exactly when all can |
| Engine.AliveSeats | src/engine/engine.ts:231 | `alive`: exactly the seats that have not folded |
| Engine.NextIdxWraps | src/engine/engine.ts:8 | the next seat is one further, or seat 0 after the last |
| Engine.NextEligibleUnique | src/engine/engine.ts:46-54 | the scan's result is determined by the seats and the start |
| Engine.NextEligibleCanAct | src/engine/engine.ts:46-54 | when any seat can act, the seat found can act |
| Engine.NextEligibleNoneActed | src/engine/engine.ts:166-167 | clearing acted flags after the scan does not change its result |
| Engine.Reopened | src/engine/engine.ts:288-290 | the seats after the acted-flag loop (length kept) |
| Engine.ReopenedMeaning | src/engine/engine.ts:288-290 | the raiser has acted and every other live seat has not; folded and all-in seats, chips and folds unchanged |
| Engine.MaxBetGrows | src/engine/engine.ts:284-285 | raising one seat's bet never lowers the largest bet, so the raise size is never negative |
| Engine.PaidSums | src/engine/engine.ts:254-257 | paying a stake keeps the seat's chips and adds the stake to the bets |
| Engine.Paid | src/engine/engine.ts:254-261 | defines a seat after a payment: stack down, bet up, all in when the stack is empty; `Engine.PaidSums` proves chips kept |
| Engine.CallPay | src/engine/engine.ts:252-254 | defines callAction's payment: min(toCall, stack) |
| Engine.LoneSurvivor | src/engine/engine.ts:231-233 | with exactly one seat not folded, every other seat folded |
| Engine.PayLoneSums | src/engine/engine.ts:233-237 | the lone survivor receives exactly the pot plus all bets, and the bets are not cleared |
| Engine.PayLone | src/engine/engine.ts:230-243 | defines awardIfOnlyOne's seats; `Engine.PayLoneSums` states what the survivor gets |
| Engine.LoneEnds | src/engine/engine.ts:358-367 | a lone survivor's award pays out every chip in play |
| Engine.ShowdownScores | src/engine/engine.ts:419-421 | one score per seat |
| Engine.ScoresIgnoreChips | src/engine/engine.ts:371 | clearing bets and paying chips leaves the showdown scores unchanged |
| Engine.ShowdownConserves | src/engine/engine.ts:370-462 | with two or more seats in, every contributed chip is paid except the unpaid ones, all bets end at 0; with no seat folded everything is paid |
| Engine.ShowdownStacks | src/engine/engine.ts:370-462 | after a contested showdown the stacks are Settle of the old stacks and contributions, and every bet is 0 |
| Engine.ShowdownResult | src/engine/engine.ts:356-485 | the seats after showdown, one per seat; `Engine.ShowdownConserves` and `Engine.ShowdownPays` prove what it pays |
| Engine.ShowdownPays | src/engine/engine.ts:356-462 | the showdown pays out stacks, bets and pot in full except the unpaid contributions, and changes no fold |
| Engine.Following | src/engine/engine.ts:183-209 | preflop → flop → turn → river → showdown |
| Engine.ClearingSums | src/engine/engine.ts:178-180 | clearing bets keeps every stack and leaves nothing bet; clearing acted flags keeps all chips |
| Engine.DealRound | src/engine/engine.ts:96-100 | one dealing round (length kept) |
| Engine.DealtBeforeStrict | src/engine/engine.ts:96-100 | a seat in the hand is dealt strictly before every later seat in dealing order |
| Engine.PartialDealStep | src/engine/engine.ts:96-100 | one step of the round: the next seat in order takes the next card from the top exactly when it has not folded |
| Engine.DealRoundKeeps | src/engine/engine.ts:93-102 | dealing changes only hole cards |
| Engine.DealtCards | src/engine/engine.ts:98 | one round gives a seat one card exactly when it has not folded |
| Engine.TwoHoleCards | src/engine/engine.ts:93-102 | from empty hands, HoleDealt leaves two cards with every seat in the hand and none with the others |
| Engine.HoleDealt | src/engine/engine.ts:93-102 | dealHole's seats: two dealing rounds from s0, the second from the deck the first left; one seat per seat |
| Engine.DeckAfterHole | src/engine/engine.ts:93-102 | the deck dealHole leaves: a prefix, shorter by two cards per seat in the hand |
| Engine.HoleDealtKeeps | src/engine/engine.ts:93-102 | dealing hole cards changes no stack, bet or fold |
| Engine.StreetDealt | src/engine/engine.ts:183-204 | defines nextStreet before the river: burn one, deal three on the flop and one later, the aggressor moves to prevAggressor, the turn to the first seat after the button that can act |
| Engine.ShowdownPaid | src/engine/engine.ts:205-209 | defines nextStreet after the river: the street becomes showdown, the seats become ShowdownResult and the hand ends |
| Engine.RoundEnded | src/engine/engine.ts:341-349 | defines the end of a betting round: bets to the pot, raise size back to bb, nobody acted, then StreetDealt or ShowdownPaid |
| Engine.DealtOut | src/engine/engine.ts:183-204 | defines the board and deck once every street to the river is dealt from the deck's end, one card burnt before each; `Engine.DealtOutFromPreflop` gives it in closed form |
| Engine.DealtOutFromPreflop | src/engine/engine.ts:183-204 | dealt out from the preflop, the flop is the 2nd, 3rd and 4th cards from the deck's end, the turn the 6th, the river the 8th, and the deck loses eight cards |
| Engine.RanOut | src/engine/engine.ts:329-337 | defines the fast-forward to showdown: the board and deck become DealtOut's, the seats become ShowdownResult of the seats with bets cleared and nobody acted, with pot plus bets as the pot; the raise size is bb, the aggressors are handed over street by street, and the turn ends on the first seat after the button that can act (it stays put from the river) |
| Engine.RunningOut | src/engine/engine.ts:329-337 | defines the fast-forward part way: nothing changed yet, or bets moved, nobody acted, the same DealtOut ahead, aggressors and turn as the last street left them |
| Engine.MovedTwice | src/engine/engine.ts:174-181 | moving the bets to the pot a second time changes no seat, and nothing is left bet after the first |
| Engine.RunningOutStep | src/engine/engine.ts:329-337 | one more round of the fast-forward: after the river round RanOut holds, before it RunningOut still holds |
| Engine.RunningOutLast | src/engine/engine.ts:331-335 | the river round of the fast-forward completes RanOut |
| Engine.RunningOutNext | src/engine/engine.ts:330-336 | a round before the river keeps RunningOut, one street further on |
| Engine.DealtPositions | src/engine/engine.ts:93-102 | no two seats in the hand take a card from the same deck position |
| Engine.ReseatAll | src/engine/engine.ts:115-129 | carries every seat over (length kept) |
| Engine.ReseatAllMeaning | src/engine/engine.ts:115-129 | stacks kept, bets, cards and flags cleared, and a seat folds exactly when it has no chips |
| Engine.FreshSeats | src/engine/engine.ts:58-73 | n seats |
| Engine.FreshSeatsChips | src/engine/engine.ts:58-73 | a new table holds n starting stacks of 1000 and no bets |
| Engine.InitPlayers | src/engine/engine.ts:58-73 | the loop builds n seats, each with 1000 chips, no bet, no cards, not folded, not acted |
| Engine.Blinded | src/engine/engine.ts:151-154 | both blinds posted (length kept) |
| Engine.BlindedMeaning | src/engine/engine.ts:151-154 | min(sb, stack) on the seat after the button, min(bb, stack) on the next one, nothing elsewhere, chips kept, a blind left without chips all in |
| Engine.SeatingChips | src/engine/engine.ts:113-130 | a new table holds 1000 per seat; a carried table the previous stacks |
| Engine.SeatsFor | src/engine/engine.ts:113-130 | carried seats with the button moved one on, or fresh seats with the button at 0; no bets |
| Engine.ScoreOf | src/engine/engine.ts:420 | a seat's showdown score: its best seven-card score, or zeros when folded |
| Engine.Table.constructor | src/engine/engine.ts:104-172 | startHand: the seats are the reseated table with blinds posted and the two hole cards dealt from Shuffled(makeDeck(), rng), nobody acted; the deck is what dealing left; chips, blinds, street, pot, aggressors, button and first seat to act |
| Engine.Table.BlindsFromScratch | src/engine/engine.ts:151-165 | at a table with no bets or contributions: the seats become HoleDealt of the blinded seats, the deck DeckAfterHole, the contributions equal the bets, and the chips are the seats' stacks |
| Engine.Table.OpenHand | src/engine/engine.ts:151-167 | the seats become HoleDealt of the blinded seats from the old deck, with nobody acted; the deck becomes DeckAfterHole; the first seat to act; chips kept |
| Engine.Table.FirstTurn | src/engine/engine.ts:166-167 | the turn goes to the first seat after the big blind that can act, then every acted flag is cleared |
| Engine.Table.BlindsAndCards | src/engine/engine.ts:151-165 | the seats become HoleDealt of the blinded seats and the deck DeckAfterHole; chips and ledger kept |
| Engine.Table.NextEligibleFrom | src/engine/engine.ts:46-54 | the first seat from start that can act, or start when none can |
| Engine.Table.RotateToNext | src/engine/engine.ts:217-228 | the turn passes to the first seat after the current one that can act, else the seat after current; nothing else changes |
| Engine.Table.PutChips | src/engine/engine.ts:254-257 | pay chips move from the seat's stack to its bet and its contribution; chips and ledger kept |
| Engine.Table.PostBlind | src/engine/engine.ts:75-89 | the seat puts in min(amt, stack), goes all in when its stack runs out; chips and ledger kept |
| Engine.Table.FoldAction | src/engine/engine.ts:245-250 | the seat folds and has acted; nothing else changes |
| Engine.Table.CallAction | src/engine/engine.ts:251-264 | the seat moves min(toCall, stack) to its bet and contribution, goes all in when its stack runs out, and has acted |
| Engine.Table.RaiseToAction | src/engine/engine.ts:265-296 | no chips or nothing to add: a call; otherwise min(target − bet, stack) goes in, the raise size is kept only when not smaller, the action reopens and the aggressor is noted |
| Engine.Table.RaisePut | src/engine/engine.ts:273-295 | the raising branch: the stake goes in, the raise size, acted flags and aggressor update as above |
| Engine.Table.NoteRaise | src/engine/engine.ts:284-293 | the raise size is kept when at least the last one; the raiser becomes the street's aggressor |
| Engine.Table.ReopenAction | src/engine/engine.ts:288-290 | the acted-flag loop gives Reopened; chips kept |
| Engine.Table.Pop | src/engine/engine.ts:98 | `deck.pop()`: the last card leaves the deck and is returned |
| Engine.Table.Burn | src/engine/engine.ts:90-92 | the last card of the deck is discarded |
| Engine.Table.PostBlinds | src/engine/engine.ts:151-154 | the seats become Blinded(seats, button, sb, bb); chips and ledger kept |
| Engine.Table.GiveCard | src/engine/engine.ts:98 | the seat takes the card into its hole cards |
| Engine.Table.DealPass | src/engine/engine.ts:96-100 | one dealing round from s0, taking as many cards from the deck's end as seats are in the hand |
| Engine.Table.DealHole | src/engine/engine.ts:93-102 | two rounds from the seat after the button: the seats become HoleDealt and the deck DeckAfterHole; nothing else changes |
| Engine.Table.ZeroBets | src/engine/engine.ts:178 | every bet cleared |
| Engine.Table.ClearActed | src/engine/engine.ts:180 | every acted flag cleared |
| Engine.Table.MoveBetsToPot | src/engine/engine.ts:174-181 | the bets move to the pot, every bet becomes 0, the raise size resets to bb, nobody has acted; chips kept |
| Engine.Table.AwardIfOnlyOne | src/engine/engine.ts:230-243 | with exactly one seat not folded it takes pot plus bets and the hand ends (pot and bets are not cleared); otherwise nothing changes |
| Engine.Table.PaySplit | src/engine/engine.ts:453-462 | each winner in turn gets the floor share, plus one chip while the remainder lasts |
| Engine.Table.AwardLayers | src/engine/engine.ts:424-469 | the award loop gives Award: every layer with contenders split among its best hands, the others skipped |
| Engine.Table.ScoreSeats | src/engine/engine.ts:419-421 | the score of every seat |
| Engine.Table.RefundLone | src/engine/engine.ts:382-388 | the uncalled remainder goes back to a seat that has not folded |
| Engine.Table.PayShowdown | src/engine/engine.ts:356-485 | showdown: the seats become ShowdownResult and the hand ends |
| Engine.Table.DealFlop | src/engine/engine.ts:184-186 | one burned card, then three cards from the deck's end onto the board; nothing else changes |
| Engine.Table.DealOne | src/engine/engine.ts:192-193 | one burned card, then one card onto the board; nothing else changes |
| Engine.Table.NextStreet | src/engine/engine.ts:183-213 | before the river StreetDealt: burn, deal 3/1/1 cards, move the aggressor, first seat after the button that can act; after the river ShowdownPaid |
| Engine.Table.FinishHand | src/engine/engine.ts:205-208 | the street becomes showdown, the showdown pays out, and all chips but the unpaid ones stay in the stacks |
| Engine.Table.BeginStreet | src/engine/engine.ts:187-190 | the new street, the aggressor history and the first seat after the button that can act; nothing else changes |
| Engine.Table.EndRound | src/engine/engine.ts:341-349 | RoundEnded: the bets go to the pot, the raise size resets, nobody has acted, then StreetDealt or, after the river, ShowdownPaid; the hand ends exactly after the river |
| Engine.Table.Act | src/engine/engine.ts:314-327 | fold: the seat folds and has acted; call: CallPay moves to its bet and contribution; raise: to RaiseTarget, a call when nothing can be added, else the stake goes in, the raise size, acted flags and aggressor update; no other field changes |
| Engine.Table.Advance | src/engine/engine.ts:316-349 | a lone survivor takes everything; otherwise PassedOn: the turn goes to the next seat that can act, then RanOut to showdown when at most one seat can act, or the round end as RunOut states; a running hand leaves two or more seats able to act with the turn on one of them |
| Engine.Table.PassedOn | src/engine/engine.ts:327-349 | defines the state after the turn passes: the new turn is the next seat that can act; at most one such seat means RanOut from the state with that turn; two or more mean RoundEnded when settled, else only the turn moved |
| Engine.Table.PassTurn | src/engine/engine.ts:327-349 | PassedOn: the turn moves to the next seat that can act, then RanOut when at most one seat can act, or the round ends as RunOut states |
| Engine.Table.RunOut | src/engine/engine.ts:329-349 | with at most one seat able to act, RanOut: every street dealt out as DealtOut deals it and the seats paid as ShowdownResult from the moved bets, the hand ended at showdown; with two or more, a settled round ends as RoundEnded and an unsettled one changes nothing; chips are conserved up to the unpaid ones |
| Engine.Table.Step | src/engine/engine.ts:303-352 | an ended hand does not change; a lone survivor is paid; chips are conserved while the hand runs and, once it ends, paid out except the unpaid ones |
| Engine.Table.AllBetsSettled | src/engine/engine.ts:29-39 | true exactly when every live seat has matched the largest bet and acted |
| Engine.Settled | src/engine/engine.ts:29-39 | defines allBetsSettled on the seats: every seat not folded or all in has matched maxBet and acted; `Engine.Table.AllBetsSettled` proves the loop computes it |
| Personas.PersonaToRange | src/engine/personas.ts:9-10 | NIT → tight, LAG → loose, everything else → standard |
| Personas.Ranges | src/engine/personas.ts:3-7 | the three RANGES tables, entry for entry; `Personas.TiersOrdered` and `Personas.BigBlindSentinels` state their shape |
| Personas.TiersOrdered | src/engine/personas.ts:3-7 | loose ≤ standard ≤ tight pointwise for OPEN, CALL, ISO and THREE_BET |
| Personas.PersonasOrdered | src/engine/personas.ts:3-10 | LAG's table is no tighter than TAG's, TAG's no tighter than NIT's |
| Personas.BigBlindSentinels | src/engine/personas.ts:3-7 | six positions per table, OPEN[2] and ISO[2] are 999 in every tier |
| Personas.RatingSymmetric | src/engine/personas.ts:18-26 | the order of the two hole cards does not matter |
| Personas.PreflopRating | src/engine/personas.ts:18-26 | defines preflopRating times ten; `Personas.RatingSymmetric`, `Personas.SuitedBonus`, `Personas.PairsRateHighest` and `Personas.RatingBelowSentinel` state its properties |
| Personas.SuitedBonus | src/engine/personas.ts:18-26 | suited cards rate exactly 3 above the same ranks offsuit |
| Personas.PairsRateHighest | src/engine/personas.ts:18-26 | every pocket pair rates strictly above every unpaired hand |
| Personas.RatingBelowSentinel | src/engine/personas.ts:18-26 | no hand reaches 999, so the big blind never opens or isolates from those entries |
| Personas.PosIndexRange | src/engine/personas.ts:29-30 | the position lies in 0..n−1, is 0 exactly at the button, and counts seats from the button |
| Personas.PosIndex | src/engine/personas.ts:29-30 | defines posIndexFromButton with the truncating remainder; `Personas.PosIndexRange` and `Personas.BigBlindPosition` state its meaning |
| Personas.BigBlindPosition | src/engine/personas.ts:29-30 | with three or more seats the big blind's seat has position 2 |
| Personas.Posted | src/engine/personas.ts:36 | the posted counter is at most the number of seats |
| Personas.PostedCounts | src/engine/personas.ts:36 | the counter is exactly the number of seats with a positive bet |
| Personas.UnraisedMeaning | src/engine/personas.ts:32-38 | unraised iff preflop, maxBet ≤ bb, at most two seats posted |
| Personas.IsPreflopUnraised | src/engine/personas.ts:32-38 | defines isPreflopUnraised; `Personas.UnraisedMeaning` restates it with maxBet |
| Personas.IsLimpedPreflop | src/engine/personas.ts:40-46 | defines isLimpedPreflop; `Personas.LimpedMeaning` and `Personas.UnraisedNotLimped` give its meaning |
| Personas.PricedPreflop | src/engine/bot.ts:44 | defines the preflop calling price (also coach.ts line 52): at most 3 bb or floor(0.4 · pot) |
| Personas.LimpedMeaning | src/engine/personas.ts:40-46 | limped iff preflop, maxBet = bb, more than two seats posted |
| Personas.UnraisedNotLimped | src/engine/personas.ts:32-46 | never both unraised and limped |
| Personas.TwoBettors | src/engine/personas.ts:36 | with bets on only two seats, at most two seats count as posted |
| Personas.HandStartsUnraised | src/engine/personas.ts:32-38 | once the blinds are posted on a table with no bets, the pot is unraised |
| Coach.PreflopHint | src/engine/coach.ts:22-55 | the preflop branch never answers "—" and checks only when nothing is owed |
| Coach.PostflopHint | src/engine/coach.ts:58-62 | never "—" or Raise; Check exactly when nothing is owed |
| Coach.CoachHint | src/engine/coach.ts:7-63 | "—" exactly when the hand is over, at showdown, or the seat is folded or without two cards; Check only when nothing is owed |
| Coach.CoachUnraisedOption | src/engine/coach.ts:31-34 | unraised big blind with nothing to call: Raise iff the rating reaches ISO[2], else Check |
| Coach.CoachUnraisedOpen | src/engine/coach.ts:35-37 | other unraised seats: Raise iff OPEN[pos] is reached, Call iff only CALL[pos], Fold otherwise |
| Coach.CoachLimped | src/engine/coach.ts:40-47 | limped pots: the same tree with ISO[pos] in place of OPEN[pos] |
| Coach.CoachRaised | src/engine/coach.ts:50-54 | raised pots: Raise iff THREE_BET is reached, Call iff CALL[pos] is reached at a fair price, never Check |
| Coach.CoachPostflop | src/engine/coach.ts:58-62 | postflop never Raise; Check iff nothing is owed; facing a bet Call iff trips or better or a pair of queens or better |
| Coach.Decent | src/engine/coach.ts:60 | defines decent: trips or better, or one pair of queens or better |
| Coach.HandScore | src/engine/coach.ts:58 | the seat's evaluateBest7 score of its hole cards plus the board |
| Coach.CoachTierMonotone | src/engine/coach.ts:22-55 | a tighter table raises only where a looser one raises, and folds wherever the looser one folds |
| Bot.PreflopAction | src/engine/bot.ts:19-47 | every preflop raise is to at least the minimum raise |
| Bot.PostflopAction | src/engine/bot.ts:49-64 | with nothing to call never Fold, and a strong made hand bets half the pot (at least the minimum raise); facing a bet never Raise, and Call exactly for a strong made hand or a draw at PricedDraw's price, else Fold; every raise to at least the minimum raise |
| Bot.MadeStrong | src/engine/bot.ts:50 | defines madeStrong: a pair or better, and trips or better or a top rank of jack or better |
| Bot.Drawy | src/engine/bot.ts:51 | defines drawy: a flush draw or an open ender, with at least three board cards |
| Bot.PricedDraw | src/engine/bot.ts:61 | defines the postflop calling price: at most 3 bb, or at most Math.floor(pot · 0.35) with the product rounded as a double (`Doubles.FloorTimes035`); `Bot.PricedDrawExact` gives it in whole chips |
| Bot.PricedDrawExact | src/engine/bot.ts:61 | for pots below 2^40, a draw is priced iff need ≤ 3 bb or need ≤ 35·pot/100, less one chip on the RoundsBelow pots |
| Bot.PricedDrawPot180 | src/engine/bot.ts:61 | with a pot of 180 and bb ≤ 20 a draw calls 62 chips and folds to 63, though 35·180/100 is 63 |
| Bot.OptionRaise | src/engine/bot.ts:28 | the raise of the big blind's option: to max(minRaiseTarget, 3 bb) |
| Bot.BotAction | src/engine/bot.ts:6-65 | call for a folded or all-in seat; call postflop when at most one seat can act; every raise to at least minRaiseTarget |
| Bot.BotFollowsCoachPreflop | src/engine/bot.ts:26-46 | preflop the bot's fold/call/raise matches coachHint, except the unraised big blind facing a bet |
| Bot.BotBigBlindFacingBet | src/engine/bot.ts:26-46 | that big blind falls through to the raised-pot rules: raise iff THREE_BET, call iff CALL[2] at a fair price |
| Bot.BotFreeToAct | src/engine/bot.ts:53-58 | postflop with nothing to call: never folds, and raises every strong made hand |
| Bot.BotFacingBet | src/engine/bot.ts:59-64 | postflop facing a bet: never raises; calls iff a strong made hand or a fairly priced draw |
| Bot.CoinsMatterOnlyThere | src/engine/bot.ts:55-57 | the coin flips change the action only at the flop or turn c-bet of the last aggressor or at a bluff with a draw |
| Bot.NoCoinsBetsOnlyValue | src/engine/bot.ts:53-58 | with every coin false the bot bets postflop only with a strong made hand |
| Bot.BotStickierThanCoach | src/engine/bot.ts:59-64 | facing a postflop bet the bot continues with every hand the coach calls with |
| Bot.BotTierMonotone | src/engine/bot.ts:19-47 | a tighter table makes the bot raise no more and fold no less |
| Doubles.RoundToDouble | src/engine/bot.ts:61 | the double nearest a whole number: itself below 2^53, else the nearer multiple of the unit in the last place, the even one on a tie; the error is at most 2^-53 of the number |
| Doubles.Ulp | src/engine/bot.ts:61 | the unit in the last place u of a number q of 53 or more bits: 2^52·u ≤ q < 2^53·u |
| Doubles.RoundNear | src/engine/bot.ts:61 | a number d below an even multiple m of its unit in the last place u rounds down to u·(m−1) iff d is over half a unit, else up to u·m (a tie goes up, to the even multiple) |
| Doubles.FloorTimes035 | src/engine/bot.ts:61 | defines Math.floor(p * 0.35): the exact product with the double 0.35 (6305039478318694 / 2^54), rounded to a double and floored; `Doubles.FloorTimes035Exact` gives its value |
| Doubles.RoundsBelow | src/engine/bot.ts:61 | defines the pots where the product rounds below a whole number: multiples of 20 with x = 7p/20 strictly between 1.75·2^e and 2^(e+1), e the exponent of x |
| Doubles.FloorTimes035Exact | src/engine/bot.ts:61 | for pots below 2^40, Math.floor(p * 0.35) is 35p/100, one less exactly on the RoundsBelow pots |
| Doubles.RoundsBelowCase | src/engine/bot.ts:61 | for the multiples of 20, the product lies 8p/20 below 7p/20 · 2^54 and rounds down exactly on the RoundsBelow pots |
| Doubles.MultipleOf20Ulp | src/engine/bot.ts:61 | for p = 20k the product has exponent e + 54, so its unit in the last place is 4·2^e and exceeds its distance 8k below x·2^54 |
| Doubles.FloorTimes035At180 | src/engine/bot.ts:61 | Math.floor(180 * 0.35) is 62 |
| Doubles.FloorTimes035At340 | src/engine/bot.ts:61 | Math.floor(340 * 0.35) is 118 |
| Doubles.FloorTimes035At200 | src/engine/bot.ts:61 | Math.floor(200 * 0.35) is 70 |
| Doubles.FloorTimes035At181 | src/engine/bot.ts:61 | Math.floor(181 * 0.35) is 63 |

## Left out

- The React interface, its components, timers and bankroll buttons, and the driver loop that re-rotates past dead seats.
- `util.ts`. Chips are whole numbers here, so its rounding `norm` is the identity and its tolerant `eq` on chip counts is `==`.
- The hand-history log strings of every routine, and the player names, ids and the human flag, which feed only the log.
- `bestFive` at showdown: its result only feeds the log. `Eval.BestFive` models the function on its own.
- The random source. `shuffle`'s `Math.random` becomes a sequence of draws in [0, 1) passed to `Deck.Shuffle` and to the `Engine.Table` constructor.
- The persona frequencies `AGGR`. The bot's three `Math.random() < freq` draws become the booleans of `Bot.Coins`, so the persona is not a parameter of `Bot.BotAction`.
- Floating point.
  - The preflop rating is kept in tenths: 10·(hi + pair + suited + broad + conn) + lo. Scaling by 10 is exact for every lo, and the thresholds T are integers. The float sum hi + lo/10 is exact for lo = 10, and for every other lo it lies at least a tenth away from any integer, which its rounding error cannot bridge. So the float rating reaches T exactly when the scaled rating is at least 10·T.
  - Five of the bot's float sizings are exact integer formulas:
    - `round(2.5·bb)` is (5·bb+1)/2;
    - `round(pot·0.5)` is (pot+1)/2;
    - `round(pot·0.4)` is (4·pot+5)/10;
    - `round(need·2.5)` is (5·need+1)/2;
    - `floor(pot·0.4)` is 4·pot/10.
  - `floor(pot·0.35)` is not always 35·pot/100. The double 0.35 lies a little below 0.35, so on some multiples of 20 (180, 340, 360, 660, …) the product rounds to just under a whole number. `Doubles.FloorTimes035` models the double product (round to nearest, ties to even), and `Doubles.FloorTimes035Exact` gives its value.
- `Doubles.FloorTimes035Exact`: its closed form is proved for pots below 2^40 chips; `Doubles.FloorTimes035` itself models every pot.
- `Doubles.RoundToDouble`: it models whole numbers only, with no overflow to infinity; the products it rounds stay far below 2^1024.
- `Engine.Table.constructor`: a table holds at most 22 seats, so two hole cards per seat plus the board never exhaust the 52-card deck. The source does not bound the seat count.
- `Engine.Table.constructor`: the second all-in check after the blinds is not modelled separately. The blind posting already sets all-in when a stack runs out, so that check changes nothing.
- `Engine.Table.Step`: it states termination, the ended-hand and lone-survivor cases, chip conservation and the invariant that a running hand has a seat able to act. It does not restate every field after a whole step.
- `Bot.BotAction`: it requires the seat to exist and a non-idle preflop seat to hold two cards. The source reads `p.cards[0]` there and would throw without them.
- `Coach.CoachHint`: it requires the seat to exist while the hand runs. The source reads `st.players[i].folded` there and would throw a TypeError on a missing seat.
- `Eval.BestFive`: it requires at least five cards. The source returns `null` for fewer, against its declared result type; `Eval.EvaluateBest7` models the all-zeros fallback of the scoring path.
- `Coach.CoachHint`: the reason strings are not modelled; only the suggested action is.
- The coach's and the bot's position labels only feed the reason strings.
- Scores.DescribeScore: requires a category in 0..8, which every evaluator score has. The source would give `undefined` outside that range.
