# Spider Solitaire engine in Dafny

This project models the game engine of a single-suit Spider Solitaire web
game, together with its deck and shuffle helpers and its statistics store.

- **The deck.** `createDeck` builds eight Ace-to-King runs of spades.
- **The shuffle.** `shuffleDeck` is a Fisher-Yates shuffle. It is driven by a
  linear congruential generator seeded from a string hash, so one seed
  always gives one deal.
- **The game store.** `useGameStore` is a zustand store.
  - `initializeGame` deals ten piles of 6, 6, 6, 6, 5, 5, 5, 5, 5, 5 cards,
    each with only its top card face up. The other 50 cards form the stock.
  - `moveCards` moves a descending same-suit group onto an empty pile or
    onto a card one rank higher.
  - `dealFromStock` lays one card from the stock face up on each pile.
  - A King-to-Ace run that forms on top of a pile goes to the foundation
    and scores 100 points. Each move costs one point.
  - `undo` restores the layout saved before the last move or deal.
  - `showHint` scores every candidate move and points at the best one.
  - `autoMoveCard` picks a target pile for a double-clicked group.
- **The statistics store.** `useStatsStore` keeps counters, streaks and
  best results across games.

The project has five modules, one per file:

- **`Cards`** (`cards.dfy`): the card, pile and undo-snapshot types, and
  `Math.max` and `Math.min` on integers.
- **`Utils`** (`utils.dfy`):
  - the deck;
  - the seed hash, using `bv32` for `Math.imul`;
  - the generator, as class `SeededRandom`;
  - the shuffle, as an in-place loop over an `array` proved equal to the
    function `Shuffle`, with `Shuffle` proved to be a permutation.
- **`Rules`** (`rules.dfy`): the game rules as functions on values, with
  lemmas. The rules are the group test, run removal, the layout after a
  move and after a deal, and the hint and auto-move scores.
- **`GameEngine`** (`engine.dfy`):
  - the loops of the store, as methods proved against the `Rules`
    functions;
  - the move, deal, undo and initialize commands, as functions on a
    `PlayState` value, with the invariants and round trips proved about
    them;
  - class `GameStore`, whose methods update its fields in place. Each
    method is proved to leave exactly the state its command function
    describes.
- **`Stats`** (`stats.dfy`): one transition function per statistics
  action, lemmas about single actions and about whole histories of
  actions, and class `StatsStore`.

Inputs the source takes from the environment are parameters here. The
random fallback seed of `initializeGame` is `randomSeed`.

## Model

| member | source | states |
|---|---|---|
| Utils.Decimal | src/lib/utils.ts:68 | `rank.toString()` gives a non-empty string of decimal digits, one digit exactly for numbers below 10 |
| Utils.DecimalInjective | src/lib/utils.ts:68 | distinct numbers have distinct decimal numerals |
| Utils.GetRankString | src/lib/utils.ts:62-70 | rank 10 shows as "10", every other rank as a single character |
| Utils.RankStringMatchesTable | src/lib/utils.ts:62-70 | the face of rank r is the r-th of A, 2, ..., 10, J, Q, K |
| Utils.RankStringInjective | src/lib/utils.ts:62-70 | two ranks with the same face are the same rank |
| Utils.CardIdInjective | src/lib/utils.ts:41 | for run indices below 10, two spade ids agree only when rank and run index agree |
| Utils.NewDeck | src/lib/utils.ts:31-50 | the deck has 104 cards, all spades and face down; card k has rank k mod 13 + 1; all ids are pairwise distinct |
| Utils.CreateDeck | src/lib/utils.ts:31-50 | the nested push loop builds exactly that deck |
| Utils.Finalize | src/lib/utils.ts:19 | the final mixing `(h ^ h >>> 16) >>> 0` is an unsigned 32-bit value |
| Utils.SeedHash | src/lib/utils.ts:13-20 | the hash of any seed string is a 32-bit unsigned state |
| Utils.NextState | src/lib/utils.ts:24 | the linear congruential step stays within [0, 2^32) |
| Utils.SeededRandom.constructor | src/lib/utils.ts:13-20 | a generator starts in the hash state of its seed |
| Utils.SeededRandom.Next | src/lib/utils.ts:23-26 | `next()` advances the state by one step and returns state / 2^32, which lies in [0, 1) |
| Utils.SwapIndex | src/lib/utils.ts:56 | the swap partner of position i is at most i |
| Utils.SwapIndexBound | src/lib/utils.ts:56 | `(state * (i + 1)) div 2^32` lies in [0, i] for every 32-bit state |
| Utils.FloorOfScaledState | src/lib/utils.ts:56 | `Math.floor(next() * (i + 1))` equals the integer swap index, so the float step is exact |
| Utils.Swap | src/lib/utils.ts:57 | swapping two positions keeps the length |
| Utils.SwapPermutes | src/lib/utils.ts:57 | a swap keeps the multiset of cards |
| Utils.ShufflePass | src/lib/utils.ts:55-58 | the passes from position i down keep the length and never touch a position above i |
| Utils.Shuffle | src/lib/utils.ts:52-60 | the shuffle keeps the length, and returns a deck of at most one card unchanged |
| Utils.ShufflePassPermutes | src/lib/utils.ts:55-58 | the passes from position i down to 1 keep the length and the multiset of cards |
| Utils.ShufflePermutes | src/lib/utils.ts:52-60 | `shuffleDeck` returns a permutation of its input |
| Utils.ShuffleStep | src/lib/utils.ts:55-58 | one loop iteration, drawing the next state and swapping, advances the pass by one position |
| Utils.DrawIndex | src/lib/utils.ts:56 | a draw advances the generator and yields the swap index of the new state |
| Utils.SwapInPlace | src/lib/utils.ts:57 | the destructuring swap exchanges exactly the two array cells |
| Utils.CopyOf | src/lib/utils.ts:54 | `[...deck]` is a fresh array holding the deck |
| Utils.ShuffleRound | src/lib/utils.ts:55-58 | one iteration on the array leaves the pass one position shorter still to reach the same target |
| Utils.ShuffleInPlace | src/lib/utils.ts:55-58 | the whole loop leaves the array equal to the pure shuffle pass from the starting state |
| Utils.ShuffleDeck | src/lib/utils.ts:52-60 | the result is the function `Shuffle` of deck and seed alone (so one seed gives one order), with the same length and multiset as the deck |
| Rules.ValidGroup | src/store/gameStore.ts:25-31 | an empty or one-card group is always valid, since the loop never runs |
| Rules.ValidGroupAt | src/store/gameStore.ts:25-31 | in a valid group, card k has the first card's suit and its rank minus k |
| Rules.ValidGroupShape | src/store/gameStore.ts:25-31 | a non-empty group is valid exactly when it is one suit counting down by one from its first card |
| Rules.ValidGroupLength | src/store/gameStore.ts:25-31 | a valid group is no longer than the rank of its first card |
| Rules.CompletedRunEndsWithAce | src/store/gameStore.ts:34-42 | a completed run ends with the Ace of the suit of the King 13 cards down |
| Rules.CompletedRunIsKingToAce | src/store/gameStore.ts:34-42 | a pile is a completed run exactly when it has at least 13 cards and the top 13 are King down to Ace of the top card's suit |
| Rules.SliceSplit | src/store/gameStore.ts:109-138 | the part that stays and the group that moves together make up the source pile |
| Rules.RevealTop | src/store/gameStore.ts:147-155 | revealing keeps the pile's length |
| Rules.RevealTopEffect | src/store/gameStore.ts:147-155 | revealing keeps every card below the top and turns the top face up |
| Rules.SettledPileEffect | src/store/gameStore.ts:160-183 | a completed run leaves the pile 13 cards shorter, the cards beneath it kept and the new top face up; any other pile is unchanged |
| Rules.SettleAt | src/store/gameStore.ts:160-183 | a completed-run check keeps the pile count and the stock |
| Rules.SettleAtEffect | src/store/gameStore.ts:160-183 | the check touches only its pile; a run adds the top card's suit to the foundation and 100 to the score; otherwise nothing changes |
| Rules.SettleKeepsCards | src/store/gameStore.ts:160-183 | removing a run keeps the card count, which counts 13 per finished run |
| Rules.PilesPartitionDeck | src/store/gameStore.ts:77-85 | the opening piles take consecutive, non-overlapping stretches covering the first 54 cards |
| Rules.FaceUpLast | src/store/gameStore.ts:79-84 | of the cards dealt to a pile, only the last lies face up |
| Rules.OpeningPrefixLength | src/store/gameStore.ts:77-85 | the first n opening piles hold exactly the deck's first PileStart(n) cards |
| Rules.OpeningLayoutShape | src/store/gameStore.ts:63-101 | the opening layout has ten piles of 6, 6, 6, 6, 5, 5, 5, 5, 5, 5 cards with only the top face up, a stock of 50, and all 104 cards |
| Rules.MoveAcceptedEdges | src/store/gameStore.ts:109-121 | when cardIndex is past the pile's end the empty group is accepted exactly onto an empty pile; nothing is ever accepted onto an Ace |
| Rules.SelfMoveRejected | src/store/gameStore.ts:109-121 | a non-empty group is never accepted onto its own pile |
| Rules.ApplyMove | src/store/gameStore.ts:132-183 | a move keeps the pile count and the stock |
| Rules.ApplyMoveEffect | src/store/gameStore.ts:132-183 | the source keeps the cards below the group with its top revealed; the destination gains the group and then one run check; other piles stay; the score drops by 1, or rises by 99 with a suit added to the foundation when a run completes |
| Rules.SelfMoveKeepsTable | src/store/gameStore.ts:109-138 | the only move a pile accepts from itself is the empty group onto an empty pile, which changes no pile |
| Rules.MoveConservesCards | src/store/gameStore.ts:104-197 | an accepted move keeps the card count |
| Rules.DealOne | src/store/gameStore.ts:217-244 | one deal step keeps the pile count, and with an empty stock changes nothing |
| Rules.DealOneEffect | src/store/gameStore.ts:217-244 | one deal step pops the stock's last card and lays it face up on pile i, followed by a run check; other piles stay |
| Rules.DealUpTo | src/store/gameStore.ts:217-244 | the deal loop keeps the pile count |
| Rules.DealOneScoresRuns | src/store/gameStore.ts:226-242 | one deal step only appends to the foundation, and scores 100 per run added |
| Rules.DealOneKeepsCards | src/store/gameStore.ts:217-244 | one deal step keeps the card count |
| Rules.DealUpToKeepsCards | src/store/gameStore.ts:199-258 | a whole deal keeps the card count |
| Rules.DealUpToScoresRuns | src/store/gameStore.ts:213-244 | a whole deal changes the score only by 100 per completed run, and only appends to the foundation |
| Rules.DealUpToStock | src/store/gameStore.ts:217-219 | dealing to n piles removes the last min(n, stock size) cards of the stock |
| Rules.DealUpToDealtPiles | src/store/gameStore.ts:217-244 | pile i gets the i-th card from the end of the stock, face up, then one run check |
| Rules.DealReachesPile | src/store/gameStore.ts:217-224 | the loop step that reaches pile i deals it that card |
| Rules.DealUpToOtherPiles | src/store/gameStore.ts:217-244 | piles beyond the last card dealt are left alone |
| Rules.LayoutCardsSize | src/store/gameStore.ts:160-183 | the cards in play, as a multiset with face-up state ignored, number 13 fewer per finished run than the card count |
| Rules.RevealTopCards | src/store/gameStore.ts:147-155 | turning the top card up keeps the pile's multiset of cards |
| Rules.SettledPileCards | src/store/gameStore.ts:160-183 | a completed-run check leaves the pile's cards except exactly the 13 of the run it removes |
| Rules.SettleAtCards | src/store/gameStore.ts:160-183 | a completed-run check on one pile leaves the cards in play except exactly the 13 of the run it removes |
| Rules.MovedTableCards | src/store/gameStore.ts:132-155 | taking the group off one pile and putting it on another keeps the multiset of cards on the tableau, and the destination is its old cards followed by the group |
| Rules.MoveKeepsCardContents | src/store/gameStore.ts:132-183 | an accepted move keeps every card in play, face-up state aside, except exactly the 13 of a run it completes on the destination |
| Rules.DealOneKeepsCardContents | src/store/gameStore.ts:217-244 | one deal step moves the stock's last card onto the pile and keeps every other card in play, except exactly the 13 of a run it completes |
| Rules.DealOneFewerCards | src/store/gameStore.ts:217-244 | after one deal step every card in play was in play before, no card more often |
| Rules.DealUpToKeepsCardContents | src/store/gameStore.ts:217-244 | after the deal loop every card in play was in play before, no card more often |
| Rules.DealKeepsCardContents | src/store/gameStore.ts:199-258 | a whole deal leaves only cards that were in play before, exactly 13 fewer for each run it completes |
| Rules.HintScore | src/store/gameStore.ts:319-367 | every scored candidate scores at least 10, is a face-up valid group moved onto another existing pile, and would be accepted by moveCards |
| Rules.BestHintUnique | src/store/gameStore.ts:369-376 | at most one candidate is the highest-scoring one with every earlier candidate lower |
| Rules.RunLength | src/store/gameStore.ts:431-444 | the run length is at most the pile's size, and at least 1 for a non-empty pile |
| Rules.RunLengthIsTopGroup | src/store/gameStore.ts:431-444 | the top run-length cards form a valid group |
| Rules.RunLengthIsLongest | src/store/gameStore.ts:431-444 | the card beneath the top run-length cards does not extend them, so no longer valid group lies on top |
| Rules.RunLengthStep | src/store/gameStore.ts:431-444 | the run grows past k exactly when the card below the top k extends the group |
| Rules.AutoScore | src/store/gameStore.ts:415-449 | a non-negative score means another pile that is empty or tops one rank higher; a score above 1000 means exactly a non-empty pile one rank higher |
| Rules.BestAutoTargetUnique | src/store/gameStore.ts:451-455 | the first pile with the highest score is unique |
| Rules.AutoTargetAccepted | src/store/gameStore.ts:415-460 | the pile autoMoveCard picks accepts the group under moveCards' tests |
| GameEngine.IsValidMoveGroup | src/store/gameStore.ts:25-31 | the loop with early exits answers true exactly for a valid group |
| GameEngine.IsCompletedRun | src/store/gameStore.ts:34-42 | the checks answer true exactly for a completed run |
| GameEngine.TopRunLength | src/store/gameStore.ts:431-444 | the downward counting loop returns the run length of the pile |
| GameEngine.ChooseAutoTarget | src/store/gameStore.ts:412-456 | the scan returns -1 exactly when no pile can take the group; otherwise it returns the first pile with the highest score |
| GameEngine.ScanStart | src/store/gameStore.ts:301-302 | before the scan no candidate has been seen: no best move, best score -1 |
| GameEngine.ScanSkip | src/store/gameStore.ts:304-319 | passing over candidates that score nothing keeps the best so far |
| GameEngine.ScanPass | src/store/gameStore.ts:369-376 | a candidate scoring no higher than the best keeps the best |
| GameEngine.ScanTake | src/store/gameStore.ts:369-376 | a candidate scoring strictly higher becomes the best |
| GameEngine.ScanSkipOne | src/store/gameStore.ts:319 | the candidates before a move's successor are those before it, and the move itself |
| GameEngine.ScanSkipCard | src/store/gameStore.ts:309-314 | a face-down card, or one not starting a valid group, yields no candidate |
| GameEngine.ScanNextCard | src/store/gameStore.ts:319 | destinations past the last pile yield no candidate |
| GameEngine.ScanNextPile | src/store/gameStore.ts:304-309 | card positions past a pile's end yield no candidate |
| GameEngine.ScanComplete | src/store/gameStore.ts:381-392 | after the whole scan, the result is the best candidate, and there is none exactly when no candidate exists |
| GameEngine.RateCandidate | src/store/gameStore.ts:320-367 | the scoring steps with their `continue` exits compute the candidate's hint score |
| GameEngine.ScanTargets | src/store/gameStore.ts:319-377 | the destination loop for one group keeps the scan's best-so-far state |
| GameEngine.FindHint | src/store/gameStore.ts:301-379 | the triple loop finds the best hint, or nothing exactly when there is no candidate |
| GameEngine.FoundationAtMostEight | src/store/gameStore.ts:185 | a layout holding 104 cards has at most eight finished runs, so eight is the win |
| GameEngine.OpeningDeal | src/store/gameStore.ts:63-101 | the deal for any seed has ten piles, 104 cards, a stock of 50, no runs and score 500 |
| GameEngine.DealOpening | src/store/gameStore.ts:73-87 | the two dealing loops and the stock slice produce the opening layout of the deck |
| GameEngine.DealGame | src/store/gameStore.ts:64-87 | creating, shuffling and dealing gives the opening deal of the seed |
| GameEngine.MoveOnLayout | src/store/gameStore.ts:104-183 | the move is accepted exactly when the group is valid and fits the destination; an accepted move gives the layout ApplyMove describes |
| GameEngine.MoveTests | src/store/gameStore.ts:109-121 | the source's two validations pass exactly when MoveAccepted holds: the group is a valid run and, onto a non-empty pile, its first card is one rank below the destination's top card |
| GameEngine.SettleOnLayout | src/store/gameStore.ts:160-183 | the completed-run check on the destination pile gives the layout SettleAt describes |
| GameEngine.DealOnLayout | src/store/gameStore.ts:210-244 | the ten-step deal loop gives the layout DealUpTo describes |
| GameEngine.OpeningPlay | src/store/gameStore.ts:63-101 | initializeGame leaves ten piles, a stock of 50, no runs, score 500, no history, no moves, and every flag off |
| GameEngine.MoveCommand | src/store/gameStore.ts:104-197 | moveCards keeps the pile count and never touches the stock; the history and the move count only grow |
| GameEngine.DealCommand | src/store/gameStore.ts:199-258 | dealFromStock keeps the pile count and never counts as a move |
| GameEngine.DealShrinksStock | src/store/gameStore.ts:217-219 | a deal only takes cards from the end of the stock, and at least one when there are cards and piles |
| GameEngine.UndoCommand | src/store/gameStore.ts:260-275 | undo only shortens the history, by exactly one when there is one; a won flag after undo means undo changed nothing |
| GameEngine.OpeningPlayValid | src/store/gameStore.ts:89-101 | the state after initializeGame satisfies the board invariant |
| GameEngine.MoveCommandValid | src/store/gameStore.ts:104-197 | moveCards keeps all 104 cards in ten piles, in the layout and in every undo snapshot |
| GameEngine.DealCommandValid | src/store/gameStore.ts:199-258 | dealFromStock keeps the board invariant |
| GameEngine.UndoCommandValid | src/store/gameStore.ts:260-275 | undo keeps the board invariant |
| GameEngine.MoveWinFlagCounts | src/store/gameStore.ts:185-196 | after an accepted move, gameWon holds exactly when eight runs are finished, play goes on, and there are never more than eight |
| GameEngine.DealWinFlagCounts | src/store/gameStore.ts:199-257 | after a deal from a non-empty stock, gameWon holds exactly when eight runs are finished, play stops exactly on a win, and there are never more than eight |
| GameEngine.MoveThenUndo | src/store/gameStore.ts:104-275 | undo right after an accepted move restores the layout and the history, with both steps counted as moves |
| GameEngine.DealThenUndo | src/store/gameStore.ts:199-275 | undo right after a deal restores the layout and the history, with only the undo counted as a move |
| GameEngine.CommandsHistoryLength | src/store/gameStore.ts:104-275 | a move or a deal that goes ahead pushes one snapshot, undo pops one, and the rejected cases keep the history |
| GameEngine.UndoChangesIffHistory | src/store/gameStore.ts:277 | canUndo's test, a non-empty history, holds exactly when undo changes the state |
| GameEngine.GameStore.constructor | src/store/gameStore.ts:47-57 | the store starts empty with score 500, every counter 0, every flag off and no hint |
| GameEngine.GameStore.Set | src/store/gameStore.ts:187-196 | the closing set call writes layout, history, moves and flags, and clears the pause |
| GameEngine.GameStore.InitializeGame | src/store/gameStore.ts:63-102 | the seed is the argument, or the random fallback when that is empty; the state becomes the opening play for it, the timer 0, and the invariant holds |
| GameEngine.GameStore.MoveCards | src/store/gameStore.ts:104-197 | the store's new play state is MoveCommand of the old one, and the invariant holds |
| GameEngine.GameStore.DealFromStock | src/store/gameStore.ts:199-258 | the new play state is DealCommand of the old one, and the invariant holds |
| GameEngine.GameStore.Undo | src/store/gameStore.ts:260-275 | the new play state is UndoCommand of the old one, and the invariant holds |
| GameEngine.GameStore.CanUndo | src/store/gameStore.ts:277 | canUndo holds exactly when undo would change the store's play state |
| GameEngine.GameStore.ToggleTimer | src/store/gameStore.ts:279 | isPlaying flips, nothing else changes |
| GameEngine.GameStore.TogglePause | src/store/gameStore.ts:281 | isPaused flips, nothing else changes |
| GameEngine.GameStore.IncrementTimer | src/store/gameStore.ts:283 | the timer counts up only while playing and not paused |
| GameEngine.GameStore.RestartGame | src/store/gameStore.ts:285-288 | restarting deals again from the stored seed, so a seeded game restarts to the same layout |
| GameEngine.GameStore.ShowHint | src/store/gameStore.ts:290-398 | a hint costs one move; the source of the best candidate is shown when one exists, otherwise the deal hint when the stock has cards, otherwise the new-game hint |
| GameEngine.GameStore.AutoMoveCard | src/store/gameStore.ts:400-461 | nothing changes unless the pile exists, the index lies inside it, the group is valid and some pile can take it; then the store performs moveCards onto the pile the choice rule picks |
| Cards.Max | src/store/statsStore.ts:45-46 | Math.max is an upper bound equal to one argument |
| Cards.Min | src/store/statsStore.ts:47-48 | Math.min is a lower bound equal to one argument |
| Stats.InitialConsistent | src/store/statsStore.ts:26-33 | the initial statistics satisfy the invariant |
| Stats.GameStartEffect | src/store/statsStore.ts:35-37 | recordGameStart adds one to gamesPlayed, changes nothing else, and keeps the invariant |
| Stats.LossEffect | src/store/statsStore.ts:53-55 | recordLoss sets currentStreak to 0, changes nothing else, and keeps the invariant |
| Stats.WinEffect | src/store/statsStore.ts:39-51 | recordWin adds one win and extends the streak; the best streak covers it; the best score never decreases and covers this score; bestTime and leastMoves are set and never increase; the other fields are kept, and the invariant too |
| Stats.DailyChallengeEffect | src/store/statsStore.ts:57-62 | afterwards the date is listed; the list holds exactly the old dates and this one; no duplicate appears; other fields are kept |
| Stats.DailyChallengeIdempotent | src/store/statsStore.ts:57-62 | marking the same date twice equals marking it once |
| Stats.StepConsistent | src/store/statsStore.ts:35-75 | every statistics action keeps 0 <= currentStreak <= bestStreak <= gamesWon, best time and least moves present exactly after a win, and no duplicate dates |
| Stats.ReplayConsistent | src/store/statsStore.ts:35-75 | any history of actions from a consistent record keeps it consistent |
| Stats.ReplayStreak | src/store/statsStore.ts:39-55 | currentStreak counts the wins since the last loss or reset, plus the starting streak when there was neither |
| Stats.ReplayWinsRecords | src/store/statsStore.ts:46-48 | after a run of wins, bestScore is the maximum of the old best and all scores; bestTime and leastMoves are the minimum of the old value (if any) and all values, absent only with no win at all |
| Stats.StatsStore.constructor | src/store/statsStore.ts:26-33 | the store starts at the initial statistics |
| Stats.StatsStore.RecordGameStart | src/store/statsStore.ts:35-37 | the fields become AfterGameStart of the old ones |
| Stats.StatsStore.RecordWin | src/store/statsStore.ts:39-51 | the fields become AfterWin of the old ones |
| Stats.StatsStore.RecordLoss | src/store/statsStore.ts:53-55 | the fields become AfterLoss of the old ones |
| Stats.StatsStore.MarkDailyChallengeCompleted | src/store/statsStore.ts:57-62 | the fields become AfterDailyChallenge of the old ones |
| Stats.StatsStore.ResetStats | src/store/statsStore.ts:64-75 | the fields become exactly the initial statistics |

## Left out

- Tableau pile ids (`TableauPile.id`) are dropped. They always equal the
  pile's index and nothing changes them.
- The two-second `setTimeout` that clears the hint is not modelled, because
  timers are outside the model. ShowHint's contract describes the state
  just after the hint is set.
- `Math.random()` in initializeGame is the `randomSeed` parameter. The seed
  string it becomes is not characterised.
- `new Date()` and the `yyyy-MM-dd` format used to pick the daily
  challenge's date are left out; the date is a parameter of
  MarkDailyChallengeCompleted.
- zustand's persistence, `cardBack`, `colorScheme` with their setters, and
  the `cn` class-name helper are outside the model.
- The React components that call the stores are outside the model.
- Cards are values. The source mutates card objects in place
  (`card.faceUp = ...`) and copies snapshots with JSON round trips. The model
  builds new values, so aliasing between the history and the live layout is
  not represented.
- Pile and card indices are natural numbers. Negative, fractional or
  non-numeric indices are not modelled.
- GameEngine.GameStore.MoveCards: requires in-range pile indices. The
  source throws a TypeError on a missing source pile, and on a missing
  destination once the group passes validation. With an invalid group and a
  missing destination it returns unchanged, a case the requires also leaves
  out; the game's callers never pass a missing pile.
- GameEngine.GameStore.MoveCards: requires that an empty group never targets
  a non-empty pile. For that case the source reads a missing card's rank and
  throws.
- GameEngine.GameStore.MoveCards: its frame lists `stock`, because the
  shared set helper writes it. Its ensures pins `stock` to the old value.
- GameEngine.GameStore.MoveCards: requires `Valid()`, the board invariant.
  Every store starts from the constructor, since the game state is not
  persisted, and every command keeps the invariant.
- GameEngine.GameStore.DealFromStock: requires `Valid()` for the same
  reason. It also relies on ten piles; the source indexes piles 0 to 9.
- GameEngine.GameStore.ShowHint: requires ten piles. Before the first deal
  the source first clears the three hint fields and adds the one-move
  penalty, and only then does its scan read `cards` of a missing pile and
  throw. The model leaves that partial update out.
- GameEngine.GameStore.AutoMoveCard: requires `Valid()` for the same reason
  as MoveCards.
- Neither moveCards nor autoMoveCard checks that the moved cards are face
  up. The model follows the code, so such moves are accepted when the
  group is otherwise valid. showHint checks that the group's first card is
  face up.
- Undo always clears `gameWon`, even when the restored layout has eight
  runs. The model follows the code, so `gameWon` equals "eight runs" only
  right after a move or a deal (GameEngine.MoveWinFlagCounts and
  GameEngine.DealWinFlagCounts), not as a
  standing invariant.
- JavaScript numbers are modelled as unbounded integers. Scores, moves,
  times and counters stay far below 2^53. The generator's output is an exact
  rational.
- Utils.ShuffleDeck: equals `Shuffle` for every deck, but the double product
  `next() * (i + 1)` is exact only for decks of at most 2^21 cards. The
  model does not represent rounding beyond that; the game shuffles 104.
- The statistics store is persisted, so a stored record may have been
  written by another version. Its methods therefore promise invariant
  preservation (`old(Valid()) ==> Valid()`) rather than requiring it.
