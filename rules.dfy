/** The rules of single-suit Spider as src/store/gameStore.ts applies them,
    stated as functions on values: the movable-group test, completed-run
    removal, the layout after a move or a deal, and the scores the hint
    and auto-move scans give. The store (module GameEngine) is proved
    against these. */
module Rules {
  import opened Cards

  function Top(pile: Pile): Card
    requires pile != []
  {
    pile[|pile| - 1]
  }

  // ---------------------------------------------------------------------
  // Movable groups and completed runs

  /** `lower` may rest directly on `upper` inside a movable group. */
  predicate Follows(upper: Card, lower: Card)
  {
    upper.suit == lower.suit && upper.rank == lower.rank + 1
  }

  /** isValidMoveGroup: each card has the suit of the next and a rank one
      higher. Empty and single-card groups qualify. */
  predicate ValidGroup(cards: seq<Card>)
    ensures |cards| <= 1 ==> ValidGroup(cards)
  {
    forall i :: 0 <= i < |cards| - 1 ==> Follows(cards[i], cards[i + 1])
  }

  lemma {:induction false} ValidGroupAt(cards: seq<Card>, k: nat)
    requires ValidGroup(cards) && k < |cards|
    ensures cards[k].suit == cards[0].suit && cards[k].rank == cards[0].rank - k
    decreases k
  {
    if k > 0 {
      ValidGroupAt(cards, k - 1);
      assert Follows(cards[k - 1], cards[k]);
    }
  }

  /** A non-empty group is valid exactly when it is one suit and its ranks
      count down by one from its first card. */
  lemma ValidGroupShape(cards: seq<Card>)
    requires cards != []
    ensures ValidGroup(cards) <==>
      forall k :: 0 <= k < |cards| ==> cards[k].suit == cards[0].suit && cards[k].rank == cards[0].rank - k
  {
    if ValidGroup(cards) {
      forall k | 0 <= k < |cards|
        ensures cards[k].suit == cards[0].suit && cards[k].rank == cards[0].rank - k
      {
        ValidGroupAt(cards, k);
      }
    }
  }

  /** A valid group holds at most as many cards as the rank of its first. */
  lemma ValidGroupLength(cards: seq<Card>)
    requires cards != [] && ValidGroup(cards)
    ensures |cards| <= cards[0].rank
  {
    ValidGroupAt(cards, |cards| - 1);
  }

  /** checkCompletedRun: at least 13 cards, and the top 13 start with a King
      and form a valid group. */
  predicate CheckCompletedRun(pile: Pile)
  {
    |pile| >= 13 && pile[|pile| - 13].rank == 13 && ValidGroup(pile[|pile| - 13..])
  }

  /** A completed run ends with the Ace of the suit of the King 13 cards
      down. */
  lemma CompletedRunEndsWithAce(pile: Pile)
    requires CheckCompletedRun(pile)
    ensures Top(pile).rank == 1 && Top(pile).suit == pile[|pile| - 13].suit
  {
    ValidGroupAt(pile[|pile| - 13..], 12);
  }

  /** The top 13 cards of a completed run are King down to Ace, all of the
      top card's suit; and any such pile is a completed run. */
  lemma CompletedRunIsKingToAce(pile: Pile)
    ensures CheckCompletedRun(pile) <==>
      |pile| >= 13 &&
      forall k :: |pile| - 13 <= k < |pile| ==>
        pile[k].rank == |pile| - k && pile[k].suit == Top(pile).suit
  {
    if |pile| >= 13 {
      var run := pile[|pile| - 13..];
      ValidGroupShape(run);
      assert run[12] == Top(pile);
      if CheckCompletedRun(pile) {
        forall k | |pile| - 13 <= k < |pile|
          ensures pile[k].rank == |pile| - k && pile[k].suit == Top(pile).suit
        {
          assert pile[k] == run[k - (|pile| - 13)];
        }
      }
    }
  }

  // ---------------------------------------------------------------------
  // Pile helpers

  /** cards.slice(n) for n >= 0. */
  function SliceFrom(s: Pile, n: nat): Pile
  {
    if n <= |s| then s[n..] else []
  }

  /** cards.slice(0, n) for n >= 0. */
  function SliceTo(s: Pile, n: nat): Pile
  {
    if n <= |s| then s[..n] else s
  }

  /** The two slices split the pile. */
  lemma SliceSplit(s: Pile, n: nat)
    ensures SliceTo(s, n) + SliceFrom(s, n) == s
  {
  }

  /** Turns a face-down top card face up; every other card is kept. */
  function RevealTop(pile: Pile): (r: Pile)
    ensures |r| == |pile|
  {
    if pile != [] && !Top(pile).faceUp then pile[..|pile| - 1] + [Top(pile).(faceUp := true)] else pile
  }

  /** Revealing keeps every card but the top, and leaves the top face up. */
  lemma RevealTopEffect(pile: Pile)
    ensures forall k :: 0 <= k < |pile| - 1 ==> RevealTop(pile)[k] == pile[k]
    ensures pile != [] ==> Top(RevealTop(pile)) == Top(pile).(faceUp := true)
  {
  }

  /** A pile after one completed-run check: a completed run on top leaves
      it and the card beneath turns face up. */
  function SettledPile(pile: Pile): Pile
  {
    if CheckCompletedRun(pile) then RevealTop(pile[..|pile| - 13]) else pile
  }

  /** A completed run leaves the pile 13 cards shorter, with the cards
      beneath it kept and the new top face up; any other pile is kept. */
  lemma SettledPileEffect(pile: Pile)
    ensures CheckCompletedRun(pile) ==>
      && |SettledPile(pile)| == |pile| - 13
      && (forall k :: 0 <= k < |pile| - 14 ==> SettledPile(pile)[k] == pile[k])
      && (|pile| > 13 ==> Top(SettledPile(pile)) == pile[|pile| - 14].(faceUp := true))
    ensures !CheckCompletedRun(pile) ==> SettledPile(pile) == pile
  {
    if CheckCompletedRun(pile) {
      RevealTopEffect(pile[..|pile| - 13]);
    }
  }

  // ---------------------------------------------------------------------
  // Conservation of cards

  function TotalLength(t: seq<Pile>): nat
  {
    if t == [] then 0 else TotalLength(t[..|t| - 1]) + |t[|t| - 1]|
  }

  lemma {:induction false} TotalLengthUpdate(t: seq<Pile>, p: nat, x: Pile)
    requires p < |t|
    ensures TotalLength(t[p := x]) == TotalLength(t) - |t[p]| + |x|
    decreases |t|
  {
    var u := t[p := x];
    assert u[..|u| - 1] == if p < |t| - 1 then t[..|t| - 1][p := x] else t[..|t| - 1];
    if p < |t| - 1 {
      TotalLengthUpdate(t[..|t| - 1], p, x);
    }
  }

  /** Cards on the table, in the stock, and 13 for each finished run. */
  function CardCount(s: Snapshot): nat
  {
    TotalLength(s.tableau) + |s.stock| + 13 * |s.foundation|
  }

  // ---------------------------------------------------------------------
  // Completed-run removal

  /** The completed-run check on pile p: a King-to-Ace run on top is
      removed, its suit goes to the foundation and the score gains 100. */
  function SettleAt(s: Snapshot, p: nat): (r: Snapshot)
    requires p < |s.tableau|
    ensures |r.tableau| == |s.tableau| && r.stock == s.stock
  {
    var pile := s.tableau[p];
    if CheckCompletedRun(pile) then
      Snapshot(s.tableau[p := RevealTop(pile[..|pile| - 13])], s.stock, s.foundation + [Top(pile).suit], s.score + 100)
    else
      s
  }

  /** Only pile p is touched; a completed run on it adds its suit to the
      foundation and 100 to the score, and anything else changes nothing. */
  lemma SettleAtEffect(s: Snapshot, p: nat)
    requires p < |s.tableau|
    ensures forall q :: 0 <= q < |s.tableau| && q != p ==> SettleAt(s, p).tableau[q] == s.tableau[q]
    ensures SettleAt(s, p).tableau[p] == SettledPile(s.tableau[p])
    ensures CheckCompletedRun(s.tableau[p]) ==>
      SettleAt(s, p).foundation == s.foundation + [Top(s.tableau[p]).suit] && SettleAt(s, p).score == s.score + 100
    ensures !CheckCompletedRun(s.tableau[p]) ==> SettleAt(s, p) == s
  {
  }

  /** Removing a completed run moves 13 cards from the table to the
      foundation's count. */
  lemma SettleKeepsCards(s: Snapshot, p: nat)
    requires p < |s.tableau|
    ensures CardCount(SettleAt(s, p)) == CardCount(s)
  {
    var pile := s.tableau[p];
    if CheckCompletedRun(pile) {
      TotalLengthUpdate(s.tableau, p, SettledPile(pile));
    }
  }

  // ---------------------------------------------------------------------
  // initializeGame

  /** The first four piles get six cards, the other six get five. */
  function PileSize(i: nat): nat
  {
    if i < 4 then 6 else 5
  }

  /** Where pile i's cards start in the shuffled deck. */
  function PileStart(i: nat): nat
  {
    if i <= 4 then 6 * i else 24 + 5 * (i - 4)
  }

  /** The piles take consecutive, non-overlapping stretches of the deck,
      starting at its first card and covering exactly the first 54. */
  lemma PilesPartitionDeck(i: nat)
    ensures PileStart(0) == 0 && PileStart(10) == 54
    ensures PileStart(i) + PileSize(i) == PileStart(i + 1)
  {
  }

  /** Cards dealt to one pile: only the last lies face up. */
  function FaceUpLast(cards: seq<Card>): (r: Pile)
    ensures |r| == |cards|
    ensures forall k :: 0 <= k < |cards| ==> r[k] == cards[k].(faceUp := k == |cards| - 1)
  {
    seq(|cards|, k requires 0 <= k < |cards| => cards[k].(faceUp := k == |cards| - 1))
  }

  function OpeningPile(deck: seq<Card>, i: nat): Pile
    requires i < 10 && |deck| >= 54
  {
    FaceUpLast(deck[PileStart(i)..PileStart(i) + PileSize(i)])
  }

  /** The layout initializeGame deals from a shuffled deck: ten piles, the
      other 50 cards as the stock, no runs, score 500. */
  function OpeningLayout(deck: seq<Card>): Snapshot
    requires |deck| == 104
  {
    Snapshot(seq(10, i requires 0 <= i < 10 => OpeningPile(deck, i)), deck[54..], [], 500)
  }

  lemma {:induction false} OpeningPrefixLength(deck: seq<Card>, n: nat)
    requires |deck| == 104 && n <= 10
    ensures TotalLength(OpeningLayout(deck).tableau[..n]) == PileStart(n)
  {
    if n > 0 {
      var t := OpeningLayout(deck).tableau;
      assert t[..n][..n - 1] == t[..n - 1];
      OpeningPrefixLength(deck, n - 1);
    }
  }

  /** The opening layout: piles of 6, 6, 6, 6, 5, 5, 5, 5, 5, 5 cards with
      only the top one face up, a stock of 50, and all 104 cards. */
  lemma OpeningLayoutShape(deck: seq<Card>)
    requires |deck| == 104
    ensures var s := OpeningLayout(deck);
      && |s.tableau| == 10 && |s.stock| == 50 && CardCount(s) == 104
      && (forall i :: 0 <= i < 10 ==> |s.tableau[i]| == PileSize(i))
      && (forall i, k :: 0 <= i < 10 && 0 <= k < |s.tableau[i]| ==>
            (s.tableau[i][k].faceUp <==> k == |s.tableau[i]| - 1))
  {
    var t := OpeningLayout(deck).tableau;
    OpeningPrefixLength(deck, 10);
    assert t[..10] == t;
  }

  // ---------------------------------------------------------------------
  // moveCards

  /** The two tests moveCards makes before it changes anything: the group
      from cardIndex up is valid, and the destination is empty or its top
      card is one rank above the group's first card (suits are not
      compared). */
  predicate MoveAccepted(t: seq<Pile>, from: nat, to: nat, cardIndex: nat)
    requires from < |t| && to < |t|
  {
    var group := SliceFrom(t[from], cardIndex);
    ValidGroup(group) && (t[to] == [] || (group != [] && Top(t[to]).rank == group[0].rank + 1))
  }

  /** An empty group, from past the end of the source, goes exactly onto
      an empty pile; and nothing ever goes onto an Ace. */
  lemma MoveAcceptedEdges(t: seq<Pile>, from: nat, to: nat, cardIndex: nat)
    requires from < |t| && to < |t|
    ensures cardIndex >= |t[from]| ==> (MoveAccepted(t, from, to, cardIndex) <==> t[to] == [])
    ensures MoveAccepted(t, from, to, cardIndex) && t[to] != [] ==> Top(t[to]).rank >= 2
  {
  }

  /** A pile never accepts a non-empty group taken from itself: the group's
      own last card is the destination top, and its rank is not one above
      the group's first. */
  lemma SelfMoveRejected(t: seq<Pile>, p: nat, cardIndex: nat)
    requires p < |t| && cardIndex < |t[p]|
    ensures !MoveAccepted(t, p, p, cardIndex)
  {
    var group := SliceFrom(t[p], cardIndex);
    if ValidGroup(group) {
      ValidGroupAt(group, |group| - 1);
      assert Top(t[p]) == group[|group| - 1];
    }
  }

  /** The piles after the group from cardIndex up leaves pile `from` for
      pile `to` and the source's new top is turned face up. */
  function MovedTable(t: seq<Pile>, from: nat, to: nat, cardIndex: nat): seq<Pile>
    requires from < |t| && to < |t|
  {
    var taken := t[from := SliceTo(t[from], cardIndex)];
    var placed := taken[to := t[to] + SliceFrom(t[from], cardIndex)];
    placed[from := RevealTop(placed[from])]
  }

  /** The layout after an accepted moveCards: the group leaves the source,
      whose new top turns face up; it lands on the destination, which then
      gets one completed-run check; the move costs one point. */
  function ApplyMove(s: Snapshot, from: nat, to: nat, cardIndex: nat): (r: Snapshot)
    requires from < |s.tableau| && to < |s.tableau|
    ensures |r.tableau| == |s.tableau| && r.stock == s.stock
  {
    SettleAt(Snapshot(MovedTable(s.tableau, from, to, cardIndex), s.stock, s.foundation, s.score - 1), to)
  }

  /** A move between two piles: the source keeps the cards below the group
      with its new top face up, the destination gains the group and gets
      one completed-run check, every other pile and the stock stay; the
      move costs one point, and a completed run adds its suit to the
      foundation and 100 points. */
  lemma ApplyMoveEffect(s: Snapshot, from: nat, to: nat, cardIndex: nat)
    requires from < |s.tableau| && to < |s.tableau| && from != to
    ensures var r := ApplyMove(s, from, to, cardIndex);
      && r.tableau[from] == RevealTop(SliceTo(s.tableau[from], cardIndex))
      && r.tableau[to] == SettledPile(s.tableau[to] + SliceFrom(s.tableau[from], cardIndex))
      && (forall q :: 0 <= q < |s.tableau| && q != from && q != to ==> r.tableau[q] == s.tableau[q])
      && var completed := CheckCompletedRun(s.tableau[to] + SliceFrom(s.tableau[from], cardIndex));
      && (!completed ==> r.foundation == s.foundation && r.score == s.score - 1)
      && (completed ==> r.foundation == s.foundation + [Top(s.tableau[to] + SliceFrom(s.tableau[from], cardIndex)).suit]
                        && r.score == s.score + 99)
  {
    var src := s.tableau[from];
    var taken := s.tableau[from := SliceTo(src, cardIndex)];
    var placed := taken[to := s.tableau[to] + SliceFrom(src, cardIndex)];
    var revealed := placed[from := RevealTop(placed[from])];
    SettleAtEffect(Snapshot(revealed, s.stock, s.foundation, s.score - 1), to);
  }

  /** Lifting a group from one pile onto another keeps the number of
      cards on the table. */
  lemma MovedTableLength(t: seq<Pile>, from: nat, to: nat, cardIndex: nat)
    requires from < |t| && to < |t| && from != to
    ensures TotalLength(MovedTable(t, from, to, cardIndex)) == TotalLength(t)
  {
    var src := t[from];
    var taken := t[from := SliceTo(src, cardIndex)];
    var placed := taken[to := t[to] + SliceFrom(src, cardIndex)];
    SliceSplit(src, cardIndex);
    TotalLengthUpdate(t, from, SliceTo(src, cardIndex));
    TotalLengthUpdate(taken, to, t[to] + SliceFrom(src, cardIndex));
    TotalLengthUpdate(placed, from, RevealTop(placed[from]));
  }

  /** The only move a pile accepts from itself is the empty group onto the
      empty pile, and it changes nothing. */
  lemma SelfMoveKeepsTable(t: seq<Pile>, p: nat, cardIndex: nat)
    requires p < |t| && MoveAccepted(t, p, p, cardIndex)
    ensures t[p] == [] && MovedTable(t, p, p, cardIndex) == t
  {
    if cardIndex < |t[p]| {
      SelfMoveRejected(t, p, cardIndex);
    }
    assert SliceFrom(t[p], cardIndex) == [];
  }

  /** An accepted move keeps the card count. */
  lemma MoveConservesCards(s: Snapshot, from: nat, to: nat, cardIndex: nat)
    requires from < |s.tableau| && to < |s.tableau|
    requires MoveAccepted(s.tableau, from, to, cardIndex)
    ensures CardCount(ApplyMove(s, from, to, cardIndex)) == CardCount(s)
  {
    if from == to {
      SelfMoveKeepsTable(s.tableau, from, cardIndex);
    } else {
      MovedTableLength(s.tableau, from, to, cardIndex);
    }
    SettleKeepsCards(Snapshot(MovedTable(s.tableau, from, to, cardIndex), s.stock, s.foundation, s.score - 1), to);
  }


  // ---------------------------------------------------------------------
  // dealFromStock

  /** One step of the deal loop: if the stock is not empty, its last card
      goes face up onto pile i, which then gets one completed-run check. */
  function DealOne(s: Snapshot, i: nat): (r: Snapshot)
    requires i < |s.tableau|
    ensures |r.tableau| == |s.tableau|
    ensures s.stock == [] ==> r == s
  {
    if s.stock == [] then s
    else
      var card := Top(s.stock).(faceUp := true);
      SettleAt(Snapshot(s.tableau[i := s.tableau[i] + [card]], s.stock[..|s.stock| - 1], s.foundation, s.score), i)
  }

  /** One deal step pops the stock and changes only pile i. */
  lemma DealOneEffect(s: Snapshot, i: nat)
    requires i < |s.tableau| && s.stock != []
    ensures DealOne(s, i).stock == s.stock[..|s.stock| - 1]
    ensures DealOne(s, i).tableau[i] == SettledPile(s.tableau[i] + [Top(s.stock).(faceUp := true)])
    ensures forall q :: 0 <= q < |s.tableau| && q != i ==> DealOne(s, i).tableau[q] == s.tableau[q]
  {
    var card := Top(s.stock).(faceUp := true);
    SettleAtEffect(Snapshot(s.tableau[i := s.tableau[i] + [card]], s.stock[..|s.stock| - 1], s.foundation, s.score), i);
  }

  /** The layout after the deal loop has visited piles 0 .. n-1. */
  function DealUpTo(s: Snapshot, n: nat): (r: Snapshot)
    requires n <= |s.tableau|
    ensures |r.tableau| == |s.tableau|
    decreases n
  {
    if n == 0 then s else DealOne(DealUpTo(s, n - 1), n - 1)
  }

  /** r extends s's foundation, and the score moved by exactly 100 per
      added run. */
  predicate RunsScored(s: Snapshot, r: Snapshot)
  {
    && s.foundation <= r.foundation
    && r.score - s.score == 100 * (|r.foundation| - |s.foundation|)
  }

  /** One deal step scores only completed runs. */
  lemma DealOneScoresRuns(s: Snapshot, i: nat)
    requires i < |s.tableau|
    ensures RunsScored(s, DealOne(s, i))
  {
  }

  /** One deal step keeps the card count. */
  lemma DealOneKeepsCards(s: Snapshot, i: nat)
    requires i < |s.tableau|
    ensures CardCount(DealOne(s, i)) == CardCount(s)
  {
    if s.stock != [] {
      var card := Top(s.stock).(faceUp := true);
      var grown := Snapshot(s.tableau[i := s.tableau[i] + [card]], s.stock[..|s.stock| - 1], s.foundation, s.score);
      TotalLengthUpdate(s.tableau, i, s.tableau[i] + [card]);
      SettleKeepsCards(grown, i);
    }
  }

  /** Step n of the deal loop keeps the card count. */
  lemma DealStepKeepsCards(s: Snapshot, n: nat)
    requires 0 < n <= |s.tableau|
    ensures CardCount(DealUpTo(s, n)) == CardCount(DealUpTo(s, n - 1))
  {
    DealOneKeepsCards(DealUpTo(s, n - 1), n - 1);
  }

  /** A whole deal keeps the card count. */
  lemma {:induction false} DealUpToKeepsCards(s: Snapshot, n: nat)
    requires n <= |s.tableau|
    ensures CardCount(DealUpTo(s, n)) == CardCount(s)
    decreases n
  {
    if n > 0 {
      DealUpToKeepsCards(s, n - 1);
      DealStepKeepsCards(s, n);
    }
  }

  /** A whole deal moves the score only by 100 per completed run, and
      only appends to the foundation. */
  lemma {:induction false} DealUpToScoresRuns(s: Snapshot, n: nat)
    requires n <= |s.tableau|
    ensures RunsScored(s, DealUpTo(s, n))
    decreases n
  {
    if n > 0 {
      DealUpToScoresRuns(s, n - 1);
      var prev := DealUpTo(s, n - 1);
      DealOneScoresRuns(prev, n - 1);
      assert DealUpTo(s, n) == DealOne(prev, n - 1);
    }
  }

  /** The card the deal puts on pile i: the i-th from the end of the stock,
      turned face up. */
  function DealtCard(stock: seq<Card>, i: nat): Card
    requires i < |stock|
  {
    stock[|stock| - 1 - i].(faceUp := true)
  }

  /** Pile i after a deal that reached it: its old cards, the dealt card,
      then one completed-run check. */
  function DealtPile(s: Snapshot, i: nat): Pile
    requires i < |s.tableau| && i < |s.stock|
  {
    SettledPile(s.tableau[i] + [DealtCard(s.stock, i)])
  }

  /** Dealing to piles 0 .. n-1 takes the last min(n, |stock|) stock cards. */
  lemma {:induction false} DealUpToStock(s: Snapshot, n: nat)
    requires n <= |s.tableau|
    ensures DealUpTo(s, n).stock == s.stock[..|s.stock| - Min(n, |s.stock|)]
    decreases n
  {
    if n > 0 {
      DealUpToStock(s, n - 1);
    }
  }

  /** Step n of the deal loop leaves the piles before n - 1 alone. */
  lemma DealStepKeepsPile(s: Snapshot, n: nat, i: nat)
    requires 0 < n <= |s.tableau| && i < n - 1
    ensures DealUpTo(s, n).tableau[i] == DealUpTo(s, n - 1).tableau[i]
  {
    var prev := DealUpTo(s, n - 1);
    if prev.stock != [] {
      DealOneEffect(prev, n - 1);
    }
  }

  /** ... one face up onto each pile in order, from the end of the stock
      backwards, each pile then getting one completed-run check ... */
  lemma {:induction false} DealUpToDealtPiles(s: Snapshot, n: nat)
    requires n <= |s.tableau|
    ensures forall i :: 0 <= i < Min(n, |s.stock|) ==> DealUpTo(s, n).tableau[i] == DealtPile(s, i)
    decreases n
  {
    if n > 0 {
      DealUpToDealtPiles(s, n - 1);
      forall i | 0 <= i < Min(n, |s.stock|)
        ensures DealUpTo(s, n).tableau[i] == DealtPile(s, i)
      {
        if i < n - 1 {
          assert i < Min(n - 1, |s.stock|);
          DealStepKeepsPile(s, n, i);
        } else {
          DealReachesPile(s, i);
        }
      }
    }
  }

  /** The step of the deal loop that reaches pile i puts the i-th card from
      the end of the stock on it. */
  lemma DealReachesPile(s: Snapshot, i: nat)
    requires i < |s.tableau| && i < |s.stock|
    ensures DealUpTo(s, i + 1).tableau[i] == DealtPile(s, i)
  {
    DealUpToStock(s, i);
    DealUpToOtherPiles(s, i);
    var prev := DealUpTo(s, i);
    assert prev.tableau[i] == s.tableau[i];
    assert Top(prev.stock) == s.stock[|s.stock| - 1 - i];
  }

  /** ... and the piles beyond the last card dealt are left alone. */
  lemma {:induction false} DealUpToOtherPiles(s: Snapshot, n: nat)
    requires n <= |s.tableau|
    ensures forall i :: Min(n, |s.stock|) <= i < |s.tableau| ==> DealUpTo(s, n).tableau[i] == s.tableau[i]
    decreases n
  {
    if n > 0 {
      DealUpToOtherPiles(s, n - 1);
      DealUpToStock(s, n - 1);
      var prev := DealUpTo(s, n - 1);
      if prev.stock != [] {
        DealOneEffect(prev, n - 1);
      }
    }
  }
  // ---------------------------------------------------------------------
  // Which cards stay in play

  /** A card whichever way up it lies: moves and deals only ever turn cards
      face up, so this is what they must keep. */
  function Unturned(c: Card): Card
  {
    c.(faceUp := false)
  }

  /** The cards of a pile, each taken face down. */
  function PileCards(p: seq<Card>): multiset<Card>
    decreases |p|
  {
    if p == [] then multiset{} else PileCards(p[..|p| - 1]) + multiset{Unturned(p[|p| - 1])}
  }

  function TableCards(t: seq<Pile>): multiset<Card>
    decreases |t|
  {
    if t == [] then multiset{} else TableCards(t[..|t| - 1]) + PileCards(t[|t| - 1])
  }

  /** The cards on the table and in the stock. */
  function LayoutCards(s: Snapshot): multiset<Card>
  {
    TableCards(s.tableau) + PileCards(s.stock)
  }

  /** The 13 cards a completed-run check takes off a pile, if any. */
  function RemovedRun(pile: Pile): multiset<Card>
  {
    if CheckCompletedRun(pile) then PileCards(pile[|pile| - 13..]) else multiset{}
  }

  lemma {:induction false} PileCardsSize(p: seq<Card>)
    ensures |PileCards(p)| == |p|
    decreases |p|
  {
    if p != [] {
      PileCardsSize(p[..|p| - 1]);
    }
  }

  lemma {:induction false} TableCardsSize(t: seq<Pile>)
    ensures |TableCards(t)| == TotalLength(t)
    decreases |t|
  {
    if t != [] {
      TableCardsSize(t[..|t| - 1]);
      PileCardsSize(t[|t| - 1]);
    }
  }

  /** The cards in play, plus 13 for each finished run, are the card count. */
  lemma LayoutCardsSize(s: Snapshot)
    ensures |LayoutCards(s)| + 13 * |s.foundation| == CardCount(s)
  {
    TableCardsSize(s.tableau);
    PileCardsSize(s.stock);
  }

  lemma {:induction false} PileCardsAppend(a: seq<Card>, b: seq<Card>)
    ensures PileCards(a + b) == PileCards(a) + PileCards(b)
    decreases |b|
  {
    if b == [] {
      assert a + b == a;
    } else {
      assert (a + b)[..|a + b| - 1] == a + b[..|b| - 1];
      PileCardsAppend(a, b[..|b| - 1]);
    }
  }

  /** Revealing the top card keeps the pile's cards. */
  lemma RevealTopCards(pile: Pile)
    ensures PileCards(RevealTop(pile)) == PileCards(pile)
  {
    if pile != [] && !Top(pile).faceUp {
      var r := RevealTop(pile);
      assert r[..|r| - 1] == pile[..|pile| - 1];
    }
  }

  lemma {:induction false} TableCardsConcat(a: seq<Pile>, b: seq<Pile>)
    ensures TableCards(a + b) == TableCards(a) + TableCards(b)
    decreases |b|
  {
    if b == [] {
      assert a + b == a;
    } else {
      var n := |b| - 1;
      assert (a + b)[..|a + b| - 1] == a + b[..n];
      TableCardsConcat(a, b[..n]);
    }
  }

  /** Replacing one pile swaps that pile's cards for the new pile's. */
  lemma TableCardsUpdate(t: seq<Pile>, p: nat, x: Pile)
    requires p < |t|
    ensures TableCards(t[p := x]) + PileCards(t[p]) == TableCards(t) + PileCards(x)
  {
    assert t == t[..p] + [t[p]] + t[p + 1..];
    assert t[p := x] == t[..p] + [x] + t[p + 1..];
    TableCardsConcat(t[..p] + [t[p]], t[p + 1..]);
    TableCardsConcat(t[..p] + [x], t[p + 1..]);
    TableCardsConcat(t[..p], [t[p]]);
    TableCardsConcat(t[..p], [x]);
    assert [x][..0] == [] && [t[p]][..0] == [];
  }

  /** Cancellation: from a + b == c + d and d + e == b, a + e == c. */
  lemma CancelCards(a: multiset<Card>, b: multiset<Card>, c: multiset<Card>, d: multiset<Card>, e: multiset<Card>)
    requires a + b == c + d && d + e == b
    ensures a + e == c
  {
    assert forall x :: (a + e)[x] == c[x] by {
      forall x ensures (a + e)[x] == c[x] {
        assert (a + b)[x] == (c + d)[x];
        assert (d + e)[x] == b[x];
      }
    }
  }

  /** The bookkeeping of a move: taking the group off the source, adding
      it to the destination and revealing the source's top leave the
      table's cards as they were. */
  lemma MoveCardsBalance(t0: multiset<Card>, t1: multiset<Card>, t2: multiset<Card>, t3: multiset<Card>,
                         src: multiset<Card>, kept: multiset<Card>, group: multiset<Card>,
                         dst: multiset<Card>, grown: multiset<Card>, top: multiset<Card>)
    requires t1 + src == t0 + kept && kept + group == src
    requires t2 + dst == t1 + grown && dst + group == grown
    requires t3 + top == t2 + top
    ensures t3 == t0
  {
    assert forall x :: t3[x] == t0[x] by {
      forall x ensures t3[x] == t0[x] {
        assert (t1 + src)[x] == (t0 + kept)[x] && (kept + group)[x] == src[x];
        assert (t2 + dst)[x] == (t1 + grown)[x] && (dst + group)[x] == grown[x];
        assert (t3 + top)[x] == (t2 + top)[x];
      }
    }
  }

  /** The bookkeeping of a deal step: one card leaves the stock and joins a
      pile. */
  lemma DealCardsBalance(t0: multiset<Card>, t1: multiset<Card>, pile: multiset<Card>, grown: multiset<Card>,
                         one: multiset<Card>, stock: multiset<Card>, rest: multiset<Card>)
    requires t1 + pile == t0 + grown && pile + one == grown && rest + one == stock
    ensures t1 + rest == t0 + stock
  {
    assert forall x :: (t1 + rest)[x] == (t0 + stock)[x] by {
      forall x ensures (t1 + rest)[x] == (t0 + stock)[x] {
        assert (t1 + pile)[x] == (t0 + grown)[x] && (pile + one)[x] == grown[x] && (rest + one)[x] == stock[x];
      }
    }
  }

  /** Taking cards away from a collection leaves a part of it. */
  lemma FewerCards(a: multiset<Card>, b: multiset<Card>, c: multiset<Card>)
    requires a + b == c
    ensures a <= c
  {
    assert forall x :: a[x] <= c[x] by {
      forall x ensures a[x] <= c[x] {
        assert (a + b)[x] == c[x];
      }
    }
  }

  lemma PartOfPart(a: multiset<Card>, b: multiset<Card>, c: multiset<Card>)
    requires a <= b && b <= c
    ensures a <= c
  {
    assert forall x :: a[x] <= c[x] by {
      forall x ensures a[x] <= c[x] {
        assert a[x] <= b[x] <= c[x];
      }
    }
  }


  /** Cutting a pile at k and turning up the new top card keeps its cards. */
  lemma CutPileCards(pile: Pile, k: nat)
    requires k <= |pile|
    ensures PileCards(RevealTop(pile[..k])) + PileCards(pile[k..]) == PileCards(pile)
  {
    var front, back := pile[..k], pile[k..];
    SliceSplit(pile, k);
    RevealTopCards(front);
    PileCardsAppend(front, back);
  }

  /** A completed-run check keeps the pile's cards but the run it removes. */
  lemma SettledPileCards(pile: Pile)
    ensures PileCards(SettledPile(pile)) + RemovedRun(pile) == PileCards(pile)
  {
    if CheckCompletedRun(pile) {
      CutPileCards(pile, |pile| - 13);
    }
  }

  lemma SettleAtCards(s: Snapshot, p: nat)
    requires p < |s.tableau|
    ensures LayoutCards(SettleAt(s, p)) + RemovedRun(s.tableau[p]) == LayoutCards(s)
  {
    var pile := s.tableau[p];
    if CheckCompletedRun(pile) {
      var u := s.tableau[p := SettledPile(pile)];
      assert SettleAt(s, p).tableau == u;
      SettledPileCards(pile);
      TableCardsUpdate(s.tableau, p, SettledPile(pile));
      CancelCards(TableCards(u), PileCards(pile), TableCards(s.tableau), PileCards(SettledPile(pile)), RemovedRun(pile));
    }
  }

  /** Lifting a group from one pile onto another keeps the table's cards. */
  lemma MovedTableCards(t: seq<Pile>, from: nat, to: nat, cardIndex: nat)
    requires from < |t| && to < |t| && from != to
    ensures TableCards(MovedTable(t, from, to, cardIndex)) == TableCards(t)
    ensures MovedTable(t, from, to, cardIndex)[to] == t[to] + SliceFrom(t[from], cardIndex)
  {
    var src := t[from];
    var group := SliceFrom(src, cardIndex);
    var taken := t[from := SliceTo(src, cardIndex)];
    var placed := taken[to := t[to] + group];
    SliceSplit(src, cardIndex);
    PileCardsAppend(SliceTo(src, cardIndex), group);
    PileCardsAppend(t[to], group);
    TableCardsUpdate(t, from, SliceTo(src, cardIndex));
    TableCardsUpdate(taken, to, t[to] + group);
    TableCardsUpdate(placed, from, RevealTop(placed[from]));
    RevealTopCards(placed[from]);
    MoveCardsBalance(TableCards(t), TableCards(taken), TableCards(placed), TableCards(MovedTable(t, from, to, cardIndex)),
                     PileCards(src), PileCards(SliceTo(src, cardIndex)), PileCards(group),
                     PileCards(t[to]), PileCards(t[to] + group), PileCards(placed[from]));
  }

  /** Before the run check, a move keeps the cards in play, and the
      destination holds its old cards followed by the group. */
  lemma MovedLayoutCards(s: Snapshot, from: nat, to: nat, cardIndex: nat)
    requires from < |s.tableau| && to < |s.tableau|
    requires MoveAccepted(s.tableau, from, to, cardIndex)
    ensures var m := Snapshot(MovedTable(s.tableau, from, to, cardIndex), s.stock, s.foundation, s.score - 1);
      && LayoutCards(m) == LayoutCards(s)
      && m.tableau[to] == s.tableau[to] + SliceFrom(s.tableau[from], cardIndex)
  {
    if from == to {
      SelfMoveKeepsTable(s.tableau, from, cardIndex);
      assert s.tableau[to] + SliceFrom(s.tableau[from], cardIndex) == s.tableau[to];
    } else {
      MovedTableCards(s.tableau, from, to, cardIndex);
    }
  }

  /** An accepted move keeps every card on the table and in the stock, face
      up or down, except the 13 of a run it completes. */
  lemma MoveKeepsCardContents(s: Snapshot, from: nat, to: nat, cardIndex: nat)
    requires from < |s.tableau| && to < |s.tableau|
    requires MoveAccepted(s.tableau, from, to, cardIndex)
    ensures LayoutCards(ApplyMove(s, from, to, cardIndex))
              + RemovedRun(s.tableau[to] + SliceFrom(s.tableau[from], cardIndex))
            == LayoutCards(s)
  {
    var m := Snapshot(MovedTable(s.tableau, from, to, cardIndex), s.stock, s.foundation, s.score - 1);
    MovedLayoutCards(s, from, to, cardIndex);
    SettleAtCards(m, to);
  }

  /** One deal step moves the stock's last card onto the pile and keeps
      every other card but the 13 of a run it completes. */
  lemma DealOneKeepsCardContents(s: Snapshot, i: nat)
    requires i < |s.tableau| && s.stock != []
    ensures LayoutCards(DealOne(s, i)) + RemovedRun(s.tableau[i] + [Top(s.stock).(faceUp := true)])
            == LayoutCards(s)
  {
    var card := Top(s.stock).(faceUp := true);
    var grown := Snapshot(s.tableau[i := s.tableau[i] + [card]], s.stock[..|s.stock| - 1], s.foundation, s.score);
    TableCardsUpdate(s.tableau, i, s.tableau[i] + [card]);
    PileCardsAppend(s.tableau[i], [card]);
    assert [card][..0] == [];
    DealCardsBalance(TableCards(s.tableau), TableCards(grown.tableau), PileCards(s.tableau[i]), PileCards(s.tableau[i] + [card]),
                     PileCards([card]), PileCards(s.stock), PileCards(grown.stock));
    SettleAtCards(grown, i);
  }

  /** Whether or not the stock has a card left, a deal step adds no card. */
  lemma DealOneFewerCards(s: Snapshot, i: nat)
    requires i < |s.tableau|
    ensures LayoutCards(DealOne(s, i)) <= LayoutCards(s)
  {
    if s.stock != [] {
      DealOneKeepsCardContents(s, i);
      FewerCards(LayoutCards(DealOne(s, i)), RemovedRun(s.tableau[i] + [Top(s.stock).(faceUp := true)]), LayoutCards(s));
    }
  }

  /** Step n of the deal loop keeps "only cards that were in play before". */
  lemma DealStepFewerCards(s: Snapshot, n: nat)
    requires 0 < n <= |s.tableau|
    requires LayoutCards(DealUpTo(s, n - 1)) <= LayoutCards(s)
    ensures LayoutCards(DealUpTo(s, n)) <= LayoutCards(s)
  {
    var prev := DealUpTo(s, n - 1);
    assert DealUpTo(s, n) == DealOne(prev, n - 1);
    DealOneFewerCards(prev, n - 1);
    PartOfPart(LayoutCards(DealUpTo(s, n)), LayoutCards(prev), LayoutCards(s));
  }

  /** The deal loop leaves only cards that were in play before, none of
      them twice. */
  lemma {:induction false} DealUpToKeepsCardContents(s: Snapshot, n: nat)
    requires n <= |s.tableau|
    ensures LayoutCards(DealUpTo(s, n)) <= LayoutCards(s)
    decreases n
  {
    if n > 0 {
      DealUpToKeepsCardContents(s, n - 1);
      DealStepFewerCards(s, n);
    }
  }

  /** A whole deal leaves only cards that were in play before, none of
      them twice, and exactly 13 fewer for each run it completes. */
  lemma DealKeepsCardContents(s: Snapshot)
    ensures var r := DealUpTo(s, |s.tableau|);
      && LayoutCards(r) <= LayoutCards(s)
      && |LayoutCards(r)| + 13 * |r.foundation| == |LayoutCards(s)| + 13 * |s.foundation|
  {
    DealUpToKeepsCardContents(s, |s.tableau|);
    DealUpToKeepsCards(s, |s.tableau|);
    LayoutCardsSize(s);
    LayoutCardsSize(DealUpTo(s, |s.tableau|));
  }


  // ---------------------------------------------------------------------
  // showHint

  /** A candidate of the hint scan: the group at (from, cardIndex) onto pile to. */
  datatype Move = Move(from: int, cardIndex: int, to: int)

  /** The scan visits candidates by source pile, then card, then destination. */
  predicate Precedes(a: Move, b: Move)
  {
    || a.from < b.from
    || (a.from == b.from && a.cardIndex < b.cardIndex)
    || (a.from == b.from && a.cardIndex == b.cardIndex && a.to < b.to)
  }

  /** The score showHint gives a candidate, or None when the scan skips it:
      10 onto an empty pile; onto a card one rank higher 20, plus 40 when
      the suits match, plus 100 when it upgrades a face-up card above of
      the target's rank from a suit mismatch to a match (and skipped when
      such a lateral move is no upgrade); plus 60 when the card above is
      face down and plus 15 when the group is the whole pile. */
  function HintScore(t: seq<Pile>, m: Move): (r: Option<int>)
    ensures r.Some? ==> r.value >= 10
    ensures r.Some? ==>
      && 0 <= m.from < |t| && 0 <= m.to < |t| && m.from != m.to
      && 0 <= m.cardIndex < |t[m.from]| && t[m.from][m.cardIndex].faceUp
      && MoveAccepted(t, m.from, m.to, m.cardIndex)
  {
    if !(0 <= m.from < |t| && 0 <= m.to < |t| && m.from != m.to) then None
    else
      var pile := t[m.from];
      if !(0 <= m.cardIndex < |pile|) then None
      else
        var card := pile[m.cardIndex];
        if !card.faceUp || !ValidGroup(pile[m.cardIndex..]) then None
        else
          var hasAbove := m.cardIndex > 0;
          var aboveIndex := if hasAbove then m.cardIndex - 1 else 0;
          var above := pile[aboveIndex];
          var revealBonus := if hasAbove && !above.faceUp then 60 else 0;
          var clearBonus := if m.cardIndex == 0 then 15 else 0;
          var dest := t[m.to];
          if dest == [] then Some(10 + revealBonus + clearBonus)
          else
            var target := Top(dest);
            if target.rank != card.rank + 1 then None
            else
              var lateral := hasAbove && above.faceUp && above.rank == target.rank;
              if lateral && (above.suit == card.suit || target.suit != card.suit) then None
              else
                var upgrade := if lateral then 100 else 0;
                var suited := if target.suit == card.suit then 40 else 0;
                Some(upgrade + 20 + suited + revealBonus + clearBonus)
  }

  /** The candidate showHint settles on: it scores highest, and every
      earlier candidate scores strictly less. */
  ghost predicate IsBestHint(t: seq<Pile>, m: Move)
  {
    && HintScore(t, m).Some?
    && (forall m' :: HintScore(t, m').Some? ==> HintScore(t, m').value <= HintScore(t, m).value)
    && (forall m' :: HintScore(t, m').Some? && Precedes(m', m) ==> HintScore(t, m').value < HintScore(t, m).value)
  }

  ghost predicate NoHintCandidate(t: seq<Pile>)
  {
    forall m :: HintScore(t, m).None?
  }

  /** At most one candidate is the best. */
  lemma BestHintUnique(t: seq<Pile>, a: Move, b: Move)
    requires IsBestHint(t, a) && IsBestHint(t, b)
    ensures a == b
  {
  }

  // ---------------------------------------------------------------------
  // autoMoveCard

  /** The length of the movable group on top of a pile. */
  function RunLength(pile: Pile): (n: nat)
    ensures n <= |pile| && (pile != [] ==> 1 <= n)
    decreases |pile|
  {
    if |pile| <= 1 then |pile|
    else if Follows(pile[|pile| - 2], pile[|pile| - 1]) then RunLength(pile[..|pile| - 1]) + 1
    else 1
  }

  /** A card that follows the last card of a valid group extends it. */
  lemma ValidGroupAppend(g: seq<Card>, c: Card)
    requires ValidGroup(g) && (g != [] ==> Follows(g[|g| - 1], c))
    ensures ValidGroup(g + [c])
  {
    var h := g + [c];
    forall k | 0 <= k < |h| - 1
      ensures Follows(h[k], h[k + 1])
    {
      if k < |g| - 1 {
        assert h[k] == g[k] && h[k + 1] == g[k + 1];
      }
    }
  }

  /** The top RunLength cards of a pile form a valid group. */
  lemma {:induction false} RunLengthIsTopGroup(pile: Pile)
    ensures ValidGroup(pile[|pile| - RunLength(pile)..])
    decreases |pile|
  {
    if |pile| > 1 && Follows(pile[|pile| - 2], pile[|pile| - 1]) {
      var below := pile[..|pile| - 1];
      RunLengthIsTopGroup(below);
      var tail := below[|below| - RunLength(below)..];
      ValidGroupAppend(tail, Top(pile));
      assert pile[|pile| - RunLength(pile)..] == tail + [Top(pile)];
    }
  }

  /** The card beneath the top RunLength cards does not extend them, so no
      longer valid group lies on top. */
  lemma {:induction false} RunLengthIsLongest(pile: Pile)
    ensures 1 <= RunLength(pile) < |pile| ==>
      !Follows(pile[|pile| - RunLength(pile) - 1], pile[|pile| - RunLength(pile)])
    decreases |pile|
  {
    if |pile| > 1 && Follows(pile[|pile| - 2], pile[|pile| - 1]) {
      var below := pile[..|pile| - 1];
      RunLengthIsLongest(below);
      var m := RunLength(below);
      if m + 1 < |pile| {
        assert pile[|pile| - (m + 1) - 1] == below[|below| - m - 1];
        assert pile[|pile| - (m + 1)] == below[|below| - m];
      }
    }
  }

  /** The score autoMoveCard gives pile i for a group whose first card has
      rank `rank`: -1 for the source pile and for a pile it cannot go on,
      0 for an empty pile, 1000 plus the length of the target's top group
      for a card one rank higher. */
  function AutoScore(t: seq<Pile>, from: int, rank: int, i: nat): (r: int)
    requires i < |t|
    ensures r >= 0 ==> i != from && (t[i] == [] || Top(t[i]).rank == rank + 1)
    ensures r > 1000 <==> i != from && t[i] != [] && Top(t[i]).rank == rank + 1
  {
    if i == from then -1
    else if t[i] == [] then 0
    else if Top(t[i]).rank == rank + 1 then 1000 + RunLength(t[i])
    else -1
  }

  /** The pile autoMoveCard picks: eligible, highest score, and every
      lower-numbered pile scores strictly less. */
  ghost predicate IsBestAutoTarget(t: seq<Pile>, from: int, rank: int, b: int)
  {
    && 0 <= b < |t| && AutoScore(t, from, rank, b) >= 0
    && (forall i :: 0 <= i < |t| ==> AutoScore(t, from, rank, i) <= AutoScore(t, from, rank, b))
    && (forall i :: 0 <= i < b ==> AutoScore(t, from, rank, i) < AutoScore(t, from, rank, b))
  }

  ghost predicate HasAutoTarget(t: seq<Pile>, from: int, rank: int)
  {
    exists i :: 0 <= i < |t| && AutoScore(t, from, rank, i) >= 0
  }

  /** autoMoveCard goes ahead: the pile exists, cardIndex is inside it,
      the group from there up is valid, and some other pile is eligible. */
  ghost predicate AutoMoveApplies(t: seq<Pile>, from: int, cardIndex: nat)
  {
    && 0 <= from < |t| && cardIndex < |t[from]|
    && ValidGroup(t[from][cardIndex..])
    && HasAutoTarget(t, from, t[from][cardIndex].rank)
  }

  /** Two piles that both meet the choice rule are the same pile. */
  lemma BestAutoTargetUnique(t: seq<Pile>, from: int, rank: int, a: int, b: int)
    requires IsBestAutoTarget(t, from, rank, a) && IsBestAutoTarget(t, from, rank, b)
    ensures a == b
  {
  }

  /** RunLength(pile) >= k grows past k exactly when the card below the
      top k extends the group. */
  lemma RunLengthStep(pile: Pile, k: nat)
    requires 1 <= k < |pile| && k <= RunLength(pile)
    ensures RunLength(pile) > k <==> Follows(pile[|pile| - k - 1], pile[|pile| - k])
  {
    RunLengthIsTopGroup(pile);
    RunLengthIsLongest(pile);
    var r := RunLength(pile);
    if r > k {
      var group := pile[|pile| - r..];
      assert group[r - k - 1] == pile[|pile| - k - 1] && group[r - k] == pile[|pile| - k];
    }
  }

  /** The pile auto-move picks accepts the group under moveCards' rules. */
  lemma AutoTargetAccepted(t: seq<Pile>, from: nat, cardIndex: nat, b: int)
    requires from < |t| && cardIndex < |t[from]| && ValidGroup(t[from][cardIndex..])
    requires IsBestAutoTarget(t, from, t[from][cardIndex].rank, b)
    ensures MoveAccepted(t, from, b, cardIndex)
  {
  }
}
