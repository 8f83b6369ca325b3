/** The game store of src/store/gameStore.ts: the state the board shows and
    the commands that change it. The layout rules themselves are the
    functions of module Rules; every command here is proved to do what
    those functions say. */
module GameEngine {
  import opened Cards
  import opened Utils
  import opened Rules

  // ---------------------------------------------------------------------
  // Loops of the store that only compute a value

  /** isValidMoveGroup, with the source's loop and early exits. */
  method IsValidMoveGroup(cards: seq<Card>) returns (valid: bool)
    ensures valid <==> ValidGroup(cards)
  {
    var i := 0;
    while i < |cards| - 1
      invariant i == 0 || i < |cards|
      invariant forall k :: 0 <= k < i ==> Follows(cards[k], cards[k + 1])
    {
      if cards[i].suit != cards[i + 1].suit {
        return false;
      }
      if cards[i].rank != cards[i + 1].rank + 1 {
        return false;
      }
      i := i + 1;
    }
    return true;
  }

  /** checkCompletedRun: too short, no King 13 from the top, or a broken
      group all say no. */
  method IsCompletedRun(pile: Pile) returns (completed: bool)
    ensures completed <==> CheckCompletedRun(pile)
  {
    if |pile| < 13 {
      return false;
    }
    var last13 := pile[|pile| - 13..];
    if last13[0].rank != 13 {
      return false;
    }
    completed := IsValidMoveGroup(last13);
  }

  /** The run-length loop of autoMoveCard: counts the movable group on top
      of a pile, from the top card down, stopping at the first break. */
  method TopRunLength(pile: Pile) returns (runLength: nat)
    ensures runLength == RunLength(pile)
  {
    runLength := 0;
    var j := |pile| - 1;
    while j >= 0
      invariant -1 <= j < |pile|
      invariant runLength == |pile| - 1 - j
      invariant runLength <= RunLength(pile)
      decreases j
    {
      if j == |pile| - 1 {
        runLength := 1;
        j := j - 1;
        continue;
      }
      var current := pile[j];
      var next := pile[j + 1];
      RunLengthStep(pile, runLength);
      if current.suit == next.suit && current.rank == next.rank + 1 {
        runLength := runLength + 1;
      } else {
        break;
      }
      j := j - 1;
    }
  }

  /** The target scan of autoMoveCard: the first pile with the highest
      score, or -1 when no pile can take the group. */
  method ChooseAutoTarget(t: seq<Pile>, from: int, rank: int) returns (bestTargetIndex: int)
    requires |t| == 10
    ensures bestTargetIndex == -1 <==> !HasAutoTarget(t, from, rank)
    ensures bestTargetIndex != -1 ==> IsBestAutoTarget(t, from, rank, bestTargetIndex)
  {
    bestTargetIndex := -1;
    var bestScore: int := -1;
    for i := 0 to 10
      invariant bestTargetIndex == -1 ==>
        bestScore == -1 && forall j :: 0 <= j < i ==> AutoScore(t, from, rank, j) < 0
      invariant bestTargetIndex != -1 ==>
        && 0 <= bestTargetIndex < i
        && bestScore == AutoScore(t, from, rank, bestTargetIndex) >= 0
        && (forall j :: 0 <= j < i ==> AutoScore(t, from, rank, j) <= bestScore)
        && (forall j :: 0 <= j < bestTargetIndex ==> AutoScore(t, from, rank, j) < bestScore)
    {
      if i == from {
        continue;
      }
      var pile := t[i];
      var score: int := -1;
      if |pile| == 0 {
        score := 0;
      } else {
        var targetCard := Top(pile);
        if targetCard.rank == rank + 1 {
          var runLength := TopRunLength(pile);
          score := 1000 + runLength;
        }
      }
      if score > bestScore {
        bestScore := score;
        bestTargetIndex := i;
      }
    }
  }

  // ---------------------------------------------------------------------
  // The hint scan

  /** After the scan has rated every candidate before `bound`: `best` is the
      first candidate with the highest score so far, or None with score -1
      when no candidate was found. */
  ghost predicate ScanState(t: seq<Pile>, bound: Move, best: Option<Move>, bestScore: int)
  {
    && (best.None? ==> bestScore == -1)
    && (best.Some? ==> Precedes(best.value, bound) && HintScore(t, best.value) == Some(bestScore))
    && (forall m :: Precedes(m, bound) && HintScore(t, m).Some? ==> HintScore(t, m).value <= bestScore)
    && (forall m :: best.Some? && Precedes(m, best.value) && HintScore(t, m).Some? ==>
          HintScore(t, m).value < bestScore)
  }

  /** Nothing precedes the first candidate of the scan. */
  lemma ScanStart(t: seq<Pile>)
    ensures ScanState(t, Move(0, 0, 0), None, -1)
  {
  }

  /** Passing over candidates none of which is rated keeps the scan state. */
  lemma ScanSkip(t: seq<Pile>, b1: Move, b2: Move, best: Option<Move>, bestScore: int)
    requires ScanState(t, b1, best, bestScore) && !Precedes(b2, b1)
    requires forall m :: Precedes(m, b2) && !Precedes(m, b1) ==> HintScore(t, m).None?
    ensures ScanState(t, b2, best, bestScore)
  {
  }

  /** A candidate rated no higher than the best so far leaves the best. */
  lemma ScanPass(t: seq<Pile>, b: Move, best: Option<Move>, bestScore: int)
    requires ScanState(t, b, best, bestScore)
    requires HintScore(t, b).None? || HintScore(t, b).value <= bestScore
    ensures ScanState(t, Move(b.from, b.cardIndex, b.to + 1), best, bestScore)
  {
    var next := Move(b.from, b.cardIndex, b.to + 1);
    ScanSkipOne(t, b);
    assert forall m :: Precedes(m, next) ==> Precedes(m, b) || m == b;
  }

  /** A candidate rated strictly higher than the best so far becomes the
      best. */
  lemma ScanTake(t: seq<Pile>, b: Move, best: Option<Move>, bestScore: int)
    requires ScanState(t, b, best, bestScore)
    requires HintScore(t, b).Some? && HintScore(t, b).value > bestScore
    ensures ScanState(t, Move(b.from, b.cardIndex, b.to + 1), Some(b), HintScore(t, b).value)
  {
    ScanSkipOne(t, b);
  }

  /** The candidates before b's successor are those before b, and b. */
  lemma ScanSkipOne(t: seq<Pile>, b: Move)
    ensures forall m :: Precedes(m, Move(b.from, b.cardIndex, b.to + 1)) <==> Precedes(m, b) || m == b
  {
  }

  /** A face-down card, or one that does not start a valid group, yields no
      candidate. */
  lemma ScanSkipCard(t: seq<Pile>, f: int, i: int, best: Option<Move>, bestScore: int)
    requires 0 <= f < |t| && 0 <= i < |t[f]|
    requires !t[f][i].faceUp || !ValidGroup(t[f][i..])
    requires ScanState(t, Move(f, i, 0), best, bestScore)
    ensures ScanState(t, Move(f, i + 1, 0), best, bestScore)
  {
    ScanSkip(t, Move(f, i, 0), Move(f, i + 1, 0), best, bestScore);
  }

  /** Destinations past the last pile yield no candidate. */
  lemma ScanNextCard(t: seq<Pile>, f: int, i: int, best: Option<Move>, bestScore: int)
    requires ScanState(t, Move(f, i, |t|), best, bestScore)
    ensures ScanState(t, Move(f, i + 1, 0), best, bestScore)
  {
    ScanSkip(t, Move(f, i, |t|), Move(f, i + 1, 0), best, bestScore);
  }

  /** Card indices past the end of a pile yield no candidate. */
  lemma ScanNextPile(t: seq<Pile>, f: int, best: Option<Move>, bestScore: int)
    requires 0 <= f < |t| && ScanState(t, Move(f, |t[f]|, 0), best, bestScore)
    ensures ScanState(t, Move(f + 1, 0, 0), best, bestScore)
  {
    ScanSkip(t, Move(f, |t[f]|, 0), Move(f + 1, 0, 0), best, bestScore);
  }

  /** Once every pile is scanned, the scan's answer is the best candidate,
      and there is none exactly when no candidate exists. */
  lemma ScanComplete(t: seq<Pile>, best: Option<Move>, bestScore: int)
    requires ScanState(t, Move(|t|, 0, 0), best, bestScore)
    ensures best.Some? ==> IsBestHint(t, best.value)
    ensures best.None? <==> NoHintCandidate(t)
  {
    if best.None? {
      forall m | HintScore(t, m).Some?
        ensures false
      {
        assert Precedes(m, Move(|t|, 0, 0));
      }
    } else {
      forall m | HintScore(t, m).Some?
        ensures HintScore(t, m).value <= bestScore
      {
        assert Precedes(m, Move(|t|, 0, 0));
      }
    }
  }

  /** The score showHint gives moving the group at (from, i) onto pile
      `to`, with the source's early exits; None where it skips the move. */
  method RateCandidate(t: seq<Pile>, from: nat, i: nat, to: nat) returns (score: Option<int>)
    requires from < |t| && to < |t| && from != to && i < |t[from]|
    requires t[from][i].faceUp && ValidGroup(t[from][i..])
    ensures score == HintScore(t, Move(from, i, to))
  {
    var pile := t[from];
    var card := pile[i];
    var cardAbove: Option<Card> := if i > 0 then Some(pile[i - 1]) else None;
    var toPile := t[to];
    var s := 0;
    if |toPile| == 0 {
      s := 10;
    } else {
      var targetCard := Top(toPile);
      if targetCard.rank != card.rank + 1 {
        return None;
      }
      if cardAbove.Some? && cardAbove.value.faceUp && cardAbove.value.rank == targetCard.rank {
        var isCurrentSuitMatch := cardAbove.value.suit == card.suit;
        var isTargetSuitMatch := targetCard.suit == card.suit;
        if isCurrentSuitMatch {
          return None;
        }
        if !isTargetSuitMatch {
          return None;
        }
        s := s + 100;
      }
      s := s + 20;
      if targetCard.suit == card.suit {
        s := s + 40;
      }
    }
    if cardAbove.Some? && !cardAbove.value.faceUp {
      s := s + 60;
    }
    if i == 0 && |pile| > 0 {
      s := s + 15;
    }
    return Some(s);
  }

  /** The innermost loop of the scan: the group at (from, i) against every
      other pile, a strictly higher score replacing the best so far. */
  method ScanTargets(t: seq<Pile>, from: nat, i: nat, best: Option<Move>, bestScore: int)
    returns (best': Option<Move>, bestScore': int)
    requires |t| == 10 && from < |t| && i < |t[from]|
    requires t[from][i].faceUp && ValidGroup(t[from][i..])
    requires ScanState(t, Move(from, i, 0), best, bestScore)
    ensures ScanState(t, Move(from, i + 1, 0), best', bestScore')
  {
    best', bestScore' := best, bestScore;
    for toPileIndex := 0 to 10
      invariant ScanState(t, Move(from, i, toPileIndex), best', bestScore')
    {
      var candidate := Move(from, i, toPileIndex);
      if from == toPileIndex {
        ScanPass(t, candidate, best', bestScore');
        continue;
      }
      var score := RateCandidate(t, from, i, toPileIndex);
      if score.Some? && score.value > bestScore' {
        ScanTake(t, candidate, best', bestScore');
        bestScore' := score.value;
        best' := Some(candidate);
      } else {
        ScanPass(t, candidate, best', bestScore');
      }
    }
    ScanNextCard(t, from, i, best', bestScore');
  }

  /** The scan of showHint: every face-up card starting a valid group,
      against every other pile; the first candidate with the highest score
      wins. */
  method FindHint(t: seq<Pile>) returns (best: Option<Move>)
    requires |t| == 10
    ensures best.Some? ==> IsBestHint(t, best.value)
    ensures best.None? <==> NoHintCandidate(t)
  {
    best := None;
    var bestScore := -1;
    ScanStart(t);
    for fromPileIndex := 0 to 10
      invariant ScanState(t, Move(fromPileIndex, 0, 0), best, bestScore)
    {
      var fromPile := t[fromPileIndex];
      if |fromPile| == 0 {
        ScanNextPile(t, fromPileIndex, best, bestScore);
        continue;
      }
      for i := 0 to |fromPile|
        invariant ScanState(t, Move(fromPileIndex, i, 0), best, bestScore)
      {
        var card := fromPile[i];
        if !card.faceUp {
          ScanSkipCard(t, fromPileIndex, i, best, bestScore);
          continue;
        }
        var valid := IsValidMoveGroup(fromPile[i..]);
        if !valid {
          ScanSkipCard(t, fromPileIndex, i, best, bestScore);
          continue;
        }
        best, bestScore := ScanTargets(t, fromPileIndex, i, best, bestScore);
      }
      ScanNextPile(t, fromPileIndex, best, bestScore);
    }
    ScanComplete(t, best, bestScore);
  }

  // ---------------------------------------------------------------------
  // The store

  /** A dealt layout: ten piles holding, with the stock and the finished
      runs, all 104 cards. */
  ghost predicate WellFormed(s: Snapshot)
  {
    |s.tableau| == 10 && CardCount(s) == 104
  }

  /** All 104 cards fit in at most eight finished runs, so the win at eight
      is the most a game can reach. */
  lemma FoundationAtMostEight(s: Snapshot)
    requires WellFormed(s)
    ensures |s.foundation| <= 8
  {
  }

  /** The layout initializeGame deals for a seed string. */
  function OpeningDeal(seed: JsString): (s: Snapshot)
    ensures WellFormed(s) && |s.stock| == 50 && s.foundation == [] && s.score == 500
  {
    ShufflePermutes(NewDeck(), seed);
    OpeningLayoutShape(Shuffle(NewDeck(), seed));
    OpeningLayout(Shuffle(NewDeck(), seed))
  }

  /** The dealing loops of initializeGame: pile i takes the next 6 (piles
      0 to 3) or 5 (piles 4 to 9) cards of the shuffled deck, only the last
      of them face up, and the cards left over form the stock. */
  method DealOpening(deck: seq<Card>) returns (piles: seq<Pile>, stock: seq<Card>)
    requires |deck| == 104
    ensures Snapshot(piles, stock, [], 500) == OpeningLayout(deck)
  {
    piles := seq(10, _ => []);
    var cardIndex := 0;
    for i := 0 to 10
      invariant |piles| == 10 && cardIndex == PileStart(i)
      invariant forall p :: 0 <= p < i ==> piles[p] == OpeningPile(deck, p)
      invariant forall p :: i <= p < 10 ==> piles[p] == []
    {
      var numCards := if i < 4 then 6 else 5;
      for j := 0 to numCards
        invariant |piles| == 10 && cardIndex == PileStart(i) + j
        invariant |piles[i]| == j
        invariant forall k :: 0 <= k < j ==>
          piles[i][k] == deck[PileStart(i) + k].(faceUp := k == numCards - 1)
        invariant forall p :: 0 <= p < i ==> piles[p] == OpeningPile(deck, p)
        invariant forall p :: i < p < 10 ==> piles[p] == []
      {
        var card := deck[cardIndex].(faceUp := j == numCards - 1);
        cardIndex := cardIndex + 1;
        piles := piles[i := piles[i] + [card]];
      }
      assert piles[i] == OpeningPile(deck, i);
    }
    stock := deck[cardIndex..];
  }

  /** The deck steps of initializeGame: a fresh deck, shuffled with the
      seed, dealt into the opening layout. */
  method DealGame(seed: JsString) returns (opening: Snapshot)
    ensures opening == OpeningDeal(seed)
  {
    var newDeck := CreateDeck();
    var deck := ShuffleDeck(newDeck, seed);
    var piles, stock := DealOpening(deck);
    opening := Snapshot(piles, stock, [], 500);
  }

  /** The two tests moveCards makes before it changes anything. Cards past
      the end of the source make an empty group, which only an empty
      destination takes. */
  method MoveTests(t: seq<Pile>, from: nat, to: nat, cardIndex: nat) returns (accepted: bool)
    requires from < |t| && to < |t|
    requires cardIndex < |t[from]| || t[to] == []
    ensures accepted <==> MoveAccepted(t, from, to, cardIndex)
  {
    var toPile := t[to];
    var cardsToMove := SliceFrom(t[from], cardIndex);
    var valid := IsValidMoveGroup(cardsToMove);
    if !valid {
      return false;
    }
    if |toPile| > 0 {
      var targetCard := Top(toPile);
      var movingCard := cardsToMove[0];
      if targetCard.rank != movingCard.rank + 1 {
        return false;
      }
    }
    return true;
  }

  /** The completed-run check both commands run on one pile: a run on top
      goes to the foundation for 100 points and the new top is revealed. */
  method SettleOnLayout(s: Snapshot, p: nat) returns (r: Snapshot)
    requires p < |s.tableau|
    ensures r == SettleAt(s, p)
  {
    var pile := s.tableau[p];
    var completed := IsCompletedRun(pile);
    if completed {
      var completedSuit := Top(pile).suit;
      r := Snapshot(s.tableau[p := RevealTop(pile[..|pile| - 13])], s.stock, s.foundation + [completedSuit], s.score + 100);
    } else {
      r := s;
    }
  }

  /** The body of moveCards on a layout: the two tests, then the move. */
  method MoveOnLayout(s: Snapshot, from: nat, to: nat, cardIndex: nat) returns (accepted: bool, r: Snapshot)
    requires from < |s.tableau| && to < |s.tableau|
    requires cardIndex < |s.tableau[from]| || s.tableau[to] == []
    ensures accepted <==> MoveAccepted(s.tableau, from, to, cardIndex)
    ensures accepted ==> r == ApplyMove(s, from, to, cardIndex)
  {
    accepted := MoveTests(s.tableau, from, to, cardIndex);
    if !accepted {
      return false, s;
    }
    var fromPile := s.tableau[from];
    var cardsToMove := SliceFrom(fromPile, cardIndex);
    var newTableau := s.tableau[from := SliceTo(fromPile, cardIndex)];
    newTableau := newTableau[to := s.tableau[to] + cardsToMove];
    newTableau := newTableau[from := RevealTop(newTableau[from])];
    r := SettleOnLayout(Snapshot(newTableau, s.stock, s.foundation, s.score - 1), to);
  }

  /** The deal loop of dealFromStock on a layout: for piles 0 to 9, while
      the stock has cards, pop its last card, lay it face up on the pile
      and check that pile once for a completed run. */
  method DealOnLayout(s: Snapshot) returns (r: Snapshot)
    requires |s.tableau| == 10
    ensures r == DealUpTo(s, |s.tableau|)
  {
    var newStock := s.stock;
    var newTableau := s.tableau;
    var newFoundation := s.foundation;
    var newScore := s.score;
    for i := 0 to 10
      invariant Snapshot(newTableau, newStock, newFoundation, newScore) == DealUpTo(s, i)
    {
      if |newStock| > 0 {
        var card := Top(newStock).(faceUp := true);
        newStock := newStock[..|newStock| - 1];
        newTableau := newTableau[i := newTableau[i] + [card]];
        var completed := IsCompletedRun(newTableau[i]);
        if completed {
          var pile := newTableau[i];
          var completedSuit := Top(pile).suit;
          newTableau := newTableau[i := RevealTop(pile[..|pile| - 13])];
          newFoundation := newFoundation + [completedSuit];
          newScore := newScore + 100;
        }
      }
    }
    r := Snapshot(newTableau, newStock, newFoundation, newScore);
  }

  // ---------------------------------------------------------------------
  // The commands as functions of the play state

  /** The fields of the store that moveCards, dealFromStock, undo and
      initializeGame write: the layout an undo snapshot records, the undo
      history, the move count and the three game flags. */
  datatype PlayState = PlayState(
    layout: Snapshot,
    history: seq<Snapshot>,
    moves: int,
    gameWon: bool,
    isPlaying: bool,
    isPaused: bool)

  /** Before the first deal the board is empty; after it, the layout and
      every undo snapshot hold all 104 cards in ten piles. */
  ghost predicate ValidBoard(layout: Snapshot, history: seq<Snapshot>)
  {
    && (WellFormed(layout) || (layout.tableau == [] && layout.stock == []))
    && forall i :: 0 <= i < |history| ==> WellFormed(history[i])
  }

  ghost predicate ValidPlay(p: PlayState)
  {
    ValidBoard(p.layout, p.history)
  }

  /** Every set call of the move, deal and undo commands clears the pause. */
  function Commit(layout: Snapshot, history: seq<Snapshot>, moves: int, gameWon: bool, isPlaying: bool): PlayState
  {
    PlayState(layout, history, moves, gameWon, isPlaying, false)
  }

  /** initializeGame: the opening layout for the seed, no history, no moves,
      not yet playing. */
  function OpeningPlay(seed: JsString): (r: PlayState)
    ensures |r.layout.tableau| == 10 && |r.layout.stock| == 50
    ensures r.layout.foundation == [] && r.layout.score == 500
    ensures r.history == [] && r.moves == 0 && !r.gameWon && !r.isPlaying && !r.isPaused
  {
    Commit(OpeningDeal(seed), [], 0, false, false)
  }

  /** moveCards: a rejected move changes nothing; an accepted one pushes the
      old layout, counts a move, sets the win flag from the foundation and
      resumes play. */
  function MoveCommand(p: PlayState, from: nat, to: nat, cardIndex: nat): (r: PlayState)
    requires from < |p.layout.tableau| && to < |p.layout.tableau|
    ensures |r.layout.tableau| == |p.layout.tableau| && r.layout.stock == p.layout.stock
    ensures p.history <= r.history && p.moves <= r.moves
  {
    if !MoveAccepted(p.layout.tableau, from, to, cardIndex) then p
    else
      var next := ApplyMove(p.layout, from, to, cardIndex);
      Commit(next, p.history + [p.layout], p.moves + 1, |next.foundation| == 8, true)
  }

  /** dealFromStock: an empty stock changes nothing; otherwise the deal
      pushes the old layout and does not count as a move, and play stops
      exactly when the game is won. */
  function DealCommand(p: PlayState): (r: PlayState)
    ensures |r.layout.tableau| == |p.layout.tableau| && r.moves == p.moves
  {
    if p.layout.stock == [] then p
    else
      var next := DealUpTo(p.layout, |p.layout.tableau|);
      Commit(next, p.history + [p.layout], p.moves, |next.foundation| == 8, |next.foundation| != 8)
  }

  /** undo: without history nothing changes; otherwise the last snapshot
      comes back, leaves the history, counts as a move, clears the win flag
      and resumes play. */
  function UndoCommand(p: PlayState): (r: PlayState)
    ensures r.history <= p.history && (p.history != [] ==> |r.history| == |p.history| - 1)
    ensures r.gameWon ==> r == p
  {
    if p.history == [] then p
    else Commit(p.history[|p.history| - 1], p.history[..|p.history| - 1], p.moves + 1, false, true)
  }

  /** The opening deal satisfies the invariant. */
  lemma OpeningPlayValid(seed: JsString)
    ensures ValidPlay(OpeningPlay(seed))
  {
  }

  /** An accepted move keeps every card: the invariant survives it. */
  lemma MoveCommandValid(p: PlayState, from: nat, to: nat, cardIndex: nat)
    requires ValidPlay(p) && from < |p.layout.tableau| && to < |p.layout.tableau|
    ensures ValidPlay(MoveCommand(p, from, to, cardIndex))
  {
    if MoveAccepted(p.layout.tableau, from, to, cardIndex) {
      MoveConservesCards(p.layout, from, to, cardIndex);
    }
  }

  /** A deal keeps every card: the invariant survives it. */
  lemma DealCommandValid(p: PlayState)
    requires ValidPlay(p)
    ensures ValidPlay(DealCommand(p))
  {
    if p.layout.stock != [] {
      var next := DealUpTo(p.layout, |p.layout.tableau|);
      DealUpToKeepsCards(p.layout, |p.layout.tableau|);
      PushKeepsBoard(p.layout, p.history, next);
    }
  }

  /** Recording a dealt-from layout and moving on to a whole layout keeps
      the board valid. */
  lemma PushKeepsBoard(layout: Snapshot, history: seq<Snapshot>, next: Snapshot)
    requires ValidBoard(layout, history) && layout.stock != [] && WellFormed(next)
    ensures ValidBoard(next, history + [layout])
  {
  }

  /** A deal only takes cards from the end of the stock, and takes at least
      one whenever there are cards and piles. */
  lemma DealShrinksStock(p: PlayState)
    ensures DealCommand(p).layout.stock <= p.layout.stock
    ensures p.layout.stock != [] && p.layout.tableau != [] ==>
      |DealCommand(p).layout.stock| < |p.layout.stock|
  {
    if p.layout.stock != [] {
      DealUpToStock(p.layout, |p.layout.tableau|);
    }
  }

  /** Undo brings back a recorded snapshot: the invariant survives it. */
  lemma UndoCommandValid(p: PlayState)
    requires ValidPlay(p)
    ensures ValidPlay(UndoCommand(p))
  {
  }

  /** After an accepted move the win flag is set exactly when eight runs
      are finished, play goes on, and eight is the most there can be. */
  lemma MoveWinFlagCounts(p: PlayState, from: nat, to: nat, cardIndex: nat)
    requires ValidPlay(p) && from < |p.layout.tableau| && to < |p.layout.tableau|
    requires MoveAccepted(p.layout.tableau, from, to, cardIndex)
    ensures var r := MoveCommand(p, from, to, cardIndex);
      (r.gameWon <==> |r.layout.foundation| == 8) && r.isPlaying && |r.layout.foundation| <= 8
  {
    MoveCommandValid(p, from, to, cardIndex);
    FoundationAtMostEight(MoveCommand(p, from, to, cardIndex).layout);
  }

  /** After a deal the win flag is set exactly when eight runs are
      finished, play stops exactly on a win, and eight is the most there
      can be. */
  lemma DealWinFlagCounts(p: PlayState)
    requires ValidPlay(p) && p.layout.stock != []
    ensures var r := DealCommand(p);
      (r.gameWon <==> |r.layout.foundation| == 8) && r.isPlaying == !r.gameWon && |r.layout.foundation| <= 8
  {
    DealCommandValid(p);
    FoundationAtMostEight(DealCommand(p).layout);
  }

  /** Undo right after an accepted move restores the layout and the
      history; both steps count as moves. */
  lemma MoveThenUndo(p: PlayState, from: nat, to: nat, cardIndex: nat)
    requires from < |p.layout.tableau| && to < |p.layout.tableau|
    requires MoveAccepted(p.layout.tableau, from, to, cardIndex)
    ensures UndoCommand(MoveCommand(p, from, to, cardIndex)) == Commit(p.layout, p.history, p.moves + 2, false, true)
  {
    var h := p.history + [p.layout];
    assert h[..|h| - 1] == p.history;
  }

  /** Undo right after a deal restores the layout and the history; only
      the undo counts as a move. */
  lemma DealThenUndo(p: PlayState)
    requires p.layout.stock != []
    ensures UndoCommand(DealCommand(p)) == Commit(p.layout, p.history, p.moves + 1, false, true)
  {
    var h := p.history + [p.layout];
    assert h[..|h| - 1] == p.history;
  }

  /** Undo with an empty history, a rejected move and a deal from an empty
      stock leave the play state as it was; a move, a deal and an undo that
      go ahead each change the history's length by one. */
  lemma CommandsHistoryLength(p: PlayState, from: nat, to: nat, cardIndex: nat)
    requires from < |p.layout.tableau| && to < |p.layout.tableau|
    ensures |MoveCommand(p, from, to, cardIndex).history| ==
      |p.history| + (if MoveAccepted(p.layout.tableau, from, to, cardIndex) then 1 else 0)
    ensures |DealCommand(p).history| == |p.history| + (if p.layout.stock != [] then 1 else 0)
    ensures |UndoCommand(p).history| == if p.history == [] then 0 else |p.history| - 1
  {
  }

  /** canUndo's test, a non-empty history, is exactly when undo changes
      the play state. */
  lemma UndoChangesIffHistory(p: PlayState)
    ensures p.history != [] <==> UndoCommand(p) != p
  {
  }

  // ---------------------------------------------------------------------
  // The store object

  class GameStore {
    var tableau: seq<Pile>
    var stock: seq<Card>
    var foundation: seq<Suit>
    var moves: int
    var score: int
    var timer: int
    var isPlaying: bool
    var isPaused: bool
    var gameWon: bool
    var seed: JsString
    var history: seq<Snapshot>
    var hintSource: Option<HintSource>
    var hintDeck: bool
    var hintNewGame: bool

    /** The part of the state an undo snapshot records. */
    function Layout(): Snapshot
      reads this`tableau, this`stock, this`foundation, this`score
    {
      Snapshot(tableau, stock, foundation, score)
    }

    /** The fields the move, deal, undo and initialize commands write. */
    function Play(): PlayState
      reads this`tableau, this`stock, this`foundation, this`score, this`history
      reads this`moves, this`gameWon, this`isPlaying, this`isPaused
    {
      PlayState(Layout(), history, moves, gameWon, isPlaying, isPaused)
    }

    ghost predicate Valid()
      reads this`tableau, this`stock, this`foundation, this`score, this`history
    {
      ValidBoard(Layout(), history)
    }

    /** The store's initial state. */
    constructor ()
      ensures Valid()
      ensures tableau == [] && stock == [] && foundation == [] && history == []
      ensures moves == 0 && score == 500 && timer == 0 && seed == []
      ensures !isPlaying && !isPaused && !gameWon
      ensures hintSource == None && !hintDeck && !hintNewGame
    {
      tableau, stock, foundation := [], [], [];
      moves, score, timer := 0, 500, 0;
      isPlaying, isPaused, gameWon := false, false, false;
      seed, history := [], [];
      hintSource, hintDeck, hintNewGame := None, false, false;
    }

    /** The set call that ends each of the move, deal, undo and initialize
        commands: it writes the play state, the pause flag always false. */
    method Set(layout: Snapshot, newHistory: seq<Snapshot>, newMoves: int, won: bool, playing: bool)
      modifies this`tableau, this`stock, this`foundation, this`score, this`history
      modifies this`moves, this`gameWon, this`isPlaying, this`isPaused
      ensures Play() == Commit(layout, newHistory, newMoves, won, playing)
    {
      tableau, stock, foundation, score := layout.tableau, layout.stock, layout.foundation, layout.score;
      history, moves := newHistory, newMoves;
      gameWon, isPlaying, isPaused := won, playing, false;
    }

    /** initializeGame: shuffle a fresh deck with the given seed (or the
        random fallback when it is empty), deal the opening layout and reset
        the counters, the flags and the history. */
    method InitializeGame(seedArg: JsString, randomSeed: JsString)
      modifies this`tableau, this`stock, this`foundation, this`moves, this`score, this`timer
      modifies this`isPlaying, this`isPaused, this`gameWon, this`seed, this`history
      ensures Valid()
      ensures seed == (if seedArg != [] then seedArg else randomSeed)
      ensures Play() == OpeningPlay(seed) && timer == 0
    {
      var finalSeed := if seedArg != [] then seedArg else randomSeed;
      var opening := DealGame(finalSeed);
      OpeningPlayValid(finalSeed);
      Set(opening, [], 0, false, false);
      timer, seed := 0, finalSeed;
    }

    /** moveCards: the group from cardIndex up moves onto pile `to` when it
        is valid and the destination is empty or one rank above; otherwise
        nothing changes. */
    method MoveCards(from: nat, to: nat, cardIndex: nat)
      requires Valid() && from < |tableau| && to < |tableau|
      requires cardIndex < |tableau[from]| || tableau[to] == []
      modifies this`tableau, this`history, this`moves, this`score, this`foundation
      modifies this`stock, this`gameWon, this`isPlaying, this`isPaused
      ensures Valid()
      ensures Play() == MoveCommand(old(Play()), from, to, cardIndex)
    {
      var accepted, next := MoveOnLayout(Layout(), from, to, cardIndex);
      if !accepted {
        return;
      }
      MoveCommandValid(Play(), from, to, cardIndex);
      Set(next, history + [Layout()], moves + 1, |next.foundation| == 8, true);
    }

    /** dealFromStock: nothing on an empty stock; otherwise one card from
        the end of the stock, face up, onto each of the ten piles in turn
        while cards remain, each pile getting one completed-run check. */
    method DealFromStock()
      requires Valid()
      modifies this`stock, this`tableau, this`history, this`foundation, this`score
      modifies this`moves, this`gameWon, this`isPlaying, this`isPaused
      ensures Valid()
      ensures Play() == DealCommand(old(Play()))
    {
      if |stock| == 0 {
        return;
      }
      var next := DealOnLayout(Layout());
      DealCommandValid(Play());
      var won := |next.foundation| == 8;
      Set(next, history + [Layout()], moves, won, !won);
    }

    /** undo: nothing without history; otherwise the last snapshot comes
        back and leaves the history, and the undo itself counts as a move. */
    method Undo()
      requires Valid()
      modifies this`tableau, this`stock, this`foundation, this`score, this`history
      modifies this`moves, this`isPaused, this`gameWon, this`isPlaying
      ensures Valid()
      ensures Play() == UndoCommand(old(Play()))
    {
      if |history| == 0 {
        return;
      }
      UndoCommandValid(Play());
      var previousState := history[|history| - 1];
      Set(previousState, history[..|history| - 1], moves + 1, false, true);
    }

    /** canUndo: there is a snapshot to go back to, so undo changes the
        store. */
    predicate CanUndo()
      reads this`tableau, this`stock, this`foundation, this`score, this`history
      reads this`moves, this`gameWon, this`isPlaying, this`isPaused
      ensures CanUndo() <==> UndoCommand(Play()) != Play()
    {
      history != []
    }

    method ToggleTimer()
      modifies this`isPlaying
      ensures isPlaying == !old(isPlaying)
    {
      isPlaying := !isPlaying;
    }

    method TogglePause()
      modifies this`isPaused
      ensures isPaused == !old(isPaused)
    {
      isPaused := !isPaused;
    }

    /** incrementTimer: the clock runs only while playing and not paused. */
    method IncrementTimer()
      modifies this`timer
      ensures timer == if isPlaying && !isPaused then old(timer) + 1 else old(timer)
    {
      timer := if isPlaying && !isPaused then timer + 1 else timer;
    }

    /** restartGame: deal again from the stored seed, so a game with a seed
        restarts to the very same layout. */
    method RestartGame(randomSeed: JsString)
      modifies this`tableau, this`stock, this`foundation, this`moves, this`score, this`timer
      modifies this`isPlaying, this`isPaused, this`gameWon, this`seed, this`history
      ensures Valid()
      ensures seed == (if old(seed) != [] then old(seed) else randomSeed)
      ensures Play() == OpeningPlay(seed) && timer == 0
    {
      InitializeGame(seed, randomSeed);
    }

    /** showHint: costs a move and changes only the hint fields: the source
        of the best candidate, else the deal hint when the stock has cards,
        else the new-game hint. */
    method ShowHint()
      requires |tableau| == 10
      modifies this`hintSource, this`hintDeck, this`hintNewGame, this`moves
      ensures moves == old(moves) + 1
      ensures hintSource.Some? <==> !NoHintCandidate(tableau)
      ensures hintSource.Some? ==>
        exists m :: IsBestHint(tableau, m) && hintSource == Some(HintSource(m.from, m.cardIndex))
      ensures hintDeck <==> NoHintCandidate(tableau) && stock != []
      ensures hintNewGame <==> NoHintCandidate(tableau) && stock == []
    {
      hintSource, hintDeck, hintNewGame := None, false, false;
      moves := moves + 1;
      var bestMove := FindHint(tableau);
      if bestMove.Some? {
        hintSource := Some(HintSource(bestMove.value.from, bestMove.value.cardIndex));
      } else if |stock| > 0 {
        hintDeck := true;
      } else {
        hintNewGame := true;
      }
    }

    /** autoMoveCard: when the pile exists, cardIndex is inside it and the
        group is valid, move it with moveCards onto the pile the choice rule
        picks, if any; otherwise nothing changes. */
    method AutoMoveCard(from: int, cardIndex: nat)
      requires Valid()
      modifies this`tableau, this`history, this`moves, this`score, this`foundation
      modifies this`stock, this`gameWon, this`isPlaying, this`isPaused
      ensures Valid()
      ensures !AutoMoveApplies(old(tableau), from, cardIndex) ==> Play() == old(Play())
      ensures AutoMoveApplies(old(tableau), from, cardIndex) ==>
        exists b :: IsBestAutoTarget(old(tableau), from, old(tableau)[from][cardIndex].rank, b)
                 && Play() == MoveCommand(old(Play()), from, b, cardIndex)
    {
      if !(0 <= from < |tableau|) || cardIndex >= |tableau[from]| {
        return;
      }
      var cardsToMove := tableau[from][cardIndex..];
      var valid := IsValidMoveGroup(cardsToMove);
      if !valid {
        return;
      }
      var movingCard := cardsToMove[0];
      var bestTargetIndex := ChooseAutoTarget(tableau, from, movingCard.rank);
      if bestTargetIndex != -1 {
        AutoTargetAccepted(tableau, from, cardIndex, bestTargetIndex);
        MoveCards(from, bestTargetIndex, cardIndex);
      }
    }
  }
}
