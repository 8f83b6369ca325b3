/** The deck, the seeded generator and the shuffle (src/lib/utils.ts).
    JavaScript doubles appear only where every value is an integer below
    2^53 or such an integer divided by 2^32, so each is modelled exactly:
    integers as `int`, the generator's output as a `real`. The one product
    of a draw and an index, `next() * (i + 1)`, stays below 2^53 only while
    the deck has at most 2^21 cards; the game shuffles 104. */
module Utils {
  import opened Cards

  const TwoTo32: int := 0x1_0000_0000

  // ---------------------------------------------------------------------
  // Decimal numerals and rank names

  function Digit(d: nat): (c: char)
    requires d < 10
    ensures c as int == '0' as int + d
  {
    ('0' as int + d) as char
  }

  /** The decimal numeral of n, as Number.prototype.toString writes a
      non-negative integer. */
  function Decimal(n: nat): (s: string)
    ensures 1 <= |s|
    ensures n < 10 <==> |s| == 1
    ensures forall k :: 0 <= k < |s| ==> '0' <= s[k] <= '9'
    decreases n
  {
    if n < 10 then [Digit(n)] else Decimal(n / 10) + [Digit(n % 10)]
  }

  /** Distinct numbers have distinct numerals. */
  lemma {:induction false} DecimalInjective(a: nat, b: nat)
    requires Decimal(a) == Decimal(b)
    ensures a == b
  {
    if a >= 10 && b >= 10 {
      var s := Decimal(a);
      assert s == Decimal(a / 10) + [Digit(a % 10)];
      assert s == Decimal(b / 10) + [Digit(b % 10)];
      assert Decimal(a / 10) == s[..|s| - 1] == Decimal(b / 10);
      DecimalInjective(a / 10, b / 10);
      assert Digit(a % 10) == s[|s| - 1] == Digit(b % 10);
    }
  }

  /** The face shown for a rank: A, J, Q, K, or the numeral. */
  function GetRankString(rank: Rank): (s: string)
    ensures rank == 10 ==> s == "10"
    ensures rank != 10 ==> |s| == 1
  {
    match rank
    case 1 => "A"
    case 11 => "J"
    case 12 => "Q"
    case 13 => "K"
    case _ => Decimal(rank)
  }

  /** The names of the thirteen ranks, Ace first. */
  const RankNames: seq<string> := ["A", "2", "3", "4", "5", "6", "7", "8", "9", "10", "J", "Q", "K"]

  lemma RankStringMatchesTable(rank: Rank)
    ensures GetRankString(rank) == RankNames[rank - 1]
  {
    if 2 <= rank <= 9 {
      assert Decimal(rank) == [Digit(rank)];
    } else if rank == 10 {
      assert Decimal(10) == Decimal(1) + [Digit(0)];
    }
  }

  /** Distinct ranks are shown differently. */
  lemma RankStringInjective(a: Rank, b: Rank)
    requires GetRankString(a) == GetRankString(b)
    ensures a == b
  {
    RankStringMatchesTable(a);
    RankStringMatchesTable(b);
  }

  // ---------------------------------------------------------------------
  // The deck

  function SuitName(suit: Suit): string
  {
    match suit
    case Hearts => "hearts"
    case Diamonds => "diamonds"
    case Clubs => "clubs"
    case Spades => "spades"
  }

  /** The id `${suit}-${rank}-${suitIndex}` createDeck gives a card. */
  function CardId(suit: Suit, rank: Rank, suitIndex: nat): string
  {
    SuitName(suit) + "-" + Decimal(rank) + "-" + Decimal(suitIndex)
  }

  /** Two spades ids built from single-digit run indices agree only when
      rank and run index agree. */
  lemma CardIdInjective(r1: Rank, i1: nat, r2: Rank, i2: nat)
    requires i1 < 10 && i2 < 10
    requires CardId(Spades, r1, i1) == CardId(Spades, r2, i2)
    ensures r1 == r2 && i1 == i2
  {
    var id := CardId(Spades, r1, i1);
    var d1, d2 := Decimal(r1), Decimal(r2);
    assert id == "spades-" + d1 + "-" + [Digit(i1)];
    assert id == "spades-" + d2 + "-" + [Digit(i2)];
    assert |d1| == |d2|;
    assert d1 == id[7..7 + |d1|] == d2;
    DecimalInjective(r1, r2);
    assert Digit(i1) == id[|id| - 1] == Digit(i2);
  }

  /** The k-th card createDeck pushes: run k / 13, rank k % 13 + 1. */
  function DeckCard(k: nat): Card
  {
    Card(CardId(Spades, k % 13 + 1, k / 13), Spades, k % 13 + 1, false)
  }

  /** The fresh deck: eight Ace-to-King runs of spades, all face down, with
      pairwise distinct ids. */
  function NewDeck(): (deck: seq<Card>)
    ensures |deck| == 104
    ensures forall k :: 0 <= k < |deck| ==>
      deck[k].suit == Spades && deck[k].rank == k % 13 + 1 && !deck[k].faceUp
    ensures forall j, k :: 0 <= j < k < |deck| ==> deck[j].id != deck[k].id
  {
    var deck := seq(104, k requires 0 <= k => DeckCard(k));
    forall j, k | 0 <= j < k < |deck| ensures deck[j].id != deck[k].id {
      if deck[j].id == deck[k].id {
        CardIdInjective(j % 13 + 1, j / 13, k % 13 + 1, k / 13);
      }
    }
    deck
  }

  method CreateDeck() returns (deck: seq<Card>)
    ensures deck == NewDeck()
  {
    deck := [];
    var suitsToUse: seq<Suit> := [];
    for i := 0 to 8
      invariant suitsToUse == seq(i, _ => Spades)
    {
      suitsToUse := suitsToUse + [Spades];
    }
    for suitIndex := 0 to |suitsToUse|
      invariant |deck| == 13 * suitIndex
      invariant forall k :: 0 <= k < |deck| ==> deck[k] == DeckCard(k)
    {
      var suit := suitsToUse[suitIndex];
      for rank := 1 to 14
        invariant |deck| == 13 * suitIndex + rank - 1
        invariant forall k :: 0 <= k < |deck| ==> deck[k] == DeckCard(k)
      {
        ghost var k := |deck|;
        assert k / 13 == suitIndex && k % 13 + 1 == rank;
        deck := deck + [Card(CardId(suit, rank, suitIndex), suit, rank, false)];
      }
    }
  }

  // ---------------------------------------------------------------------
  // The seeded generator

  /** One step of the string hash: Math.imul keeps the low 32 bits of the
      product, which is what bv32 multiplication computes. */
  function Mix(h: bv32, c: CodeUnit): bv32
  {
    (h ^ (c as bv32)) * 2654435761
  }

  /** The hash after folding in every code unit of s, from 0xdeadbeef. */
  function HashState(s: JsString): bv32
    decreases |s|
  {
    if s == [] then 0xdeadbeef else Mix(HashState(s[..|s| - 1]), s[|s| - 1])
  }

  /** The final mixing (h ^ h >>> 16) >>> 0, read as an unsigned number. */
  function Finalize(h: bv32): (r: int)
    ensures 0 <= r < TwoTo32
  {
    (h ^ (h >> 16)) as int
  }

  /** The generator's initial state for a seed string. */
  function SeedHash(s: JsString): (r: int)
    ensures 0 <= r < TwoTo32
  {
    Finalize(HashState(s))
  }

  /** The linear congruential step. The product stays below 2^53, so the
      double arithmetic of the source is exact. */
  function NextState(state: int): (r: int)
    ensures 0 <= r < TwoTo32
  {
    (state * 1664525 + 1013904223) % TwoTo32
  }

  class SeededRandom {
    var seed: int

    ghost predicate Valid()
      reads this
    {
      0 <= seed < TwoTo32
    }

    constructor (s: JsString)
      ensures Valid() && seed == SeedHash(s)
    {
      var h: bv32 := 0xdeadbeef;
      for i := 0 to |s|
        invariant h == HashState(s[..i])
      {
        assert s[..i + 1][..i] == s[..i];
        h := Mix(h, s[i]);
      }
      assert s[..|s|] == s;
      seed := Finalize(h);
    }

    /** Advances the state and returns it as a fraction of 2^32. */
    method Next() returns (r: real)
      requires Valid()
      modifies this
      ensures Valid() && seed == NextState(old(seed))
      ensures r == seed as real / TwoTo32 as real
      ensures 0.0 <= r < 1.0
    {
      seed := (seed * 1664525 + 1013904223) % TwoTo32;
      r := seed as real / TwoTo32 as real;
    }
  }

  // ---------------------------------------------------------------------
  // The shuffle

  /** The swap partner of position i drawn from generator state `state`,
      computed in integers: (state * (i + 1)) div 2^32. */
  function SwapIndex(state: int, i: nat): (j: nat)
    requires 0 <= state < TwoTo32
    ensures j <= i
  {
    SwapIndexBound(state, i);
    (state * (i + 1)) / TwoTo32
  }

  lemma SwapIndexBound(state: int, i: nat)
    requires 0 <= state < TwoTo32
    ensures 0 <= (state * (i + 1)) / TwoTo32 <= i
  {
    assert 0 <= state * (i + 1) < TwoTo32 * (i + 1);
  }

  /** Math.floor(next() * (i + 1)) equals the integer swap index, where
      next() returned r = state / 2^32. */
  lemma FloorOfScaledState(r: real, state: int, i: nat)
    requires 0 <= state < TwoTo32 && r == state as real / TwoTo32 as real
    ensures (r * (i + 1) as real).Floor == SwapIndex(state, i)
  {
    var x := state * (i + 1);
    var q, rem := x / TwoTo32, x % TwoTo32;
    assert x == q * TwoTo32 + rem;
    assert r * (i + 1) as real == x as real / TwoTo32 as real;
    assert x as real / TwoTo32 as real == q as real + rem as real / TwoTo32 as real;
    assert 0.0 <= rem as real / TwoTo32 as real < 1.0;
  }

  function Swap(a: seq<Card>, i: nat, j: nat): (r: seq<Card>)
    requires i < |a| && j < |a|
    ensures |r| == |a|
  {
    a[i := a[j]][j := a[i]]
  }

  /** A swap rearranges the sequence and keeps every element. */
  lemma SwapPermutes(a: seq<Card>, i: nat, j: nat)
    requires i < |a| && j < |a|
    ensures multiset(Swap(a, i, j)) == multiset(a)
  {
  }

  /** The Fisher-Yates passes for positions i, i - 1, ..., 1, each drawing
      the next generator state. */
  function ShufflePass(a: seq<Card>, i: nat, state: int): (r: seq<Card>)
    requires i < |a| && 0 <= state < TwoTo32
    ensures |r| == |a| && r[i + 1..] == a[i + 1..]
    decreases i
  {
    if i == 0 then a
    else
      var next := NextState(state);
      ShufflePass(Swap(a, i, SwapIndex(next, i)), i - 1, next)
  }

  /** The order shuffleDeck(deck, seed) returns; a function of deck and seed
      alone, which is the determinism the daily challenge relies on. */
  function Shuffle(deck: seq<Card>, seed: JsString): (r: seq<Card>)
    ensures |r| == |deck|
    ensures |deck| <= 1 ==> r == deck
  {
    if |deck| == 0 then deck else ShufflePass(deck, |deck| - 1, SeedHash(seed))
  }

  lemma {:induction false} ShufflePassPermutes(a: seq<Card>, i: nat, state: int)
    requires i < |a| && 0 <= state < TwoTo32
    ensures |ShufflePass(a, i, state)| == |a|
    ensures multiset(ShufflePass(a, i, state)) == multiset(a)
    decreases i
  {
    if i > 0 {
      var next := NextState(state);
      SwapPermutes(a, i, SwapIndex(next, i));
      ShufflePassPermutes(Swap(a, i, SwapIndex(next, i)), i - 1, next);
    }
  }

  /** A shuffle is a permutation of the deck. */
  lemma ShufflePermutes(deck: seq<Card>, seed: JsString)
    ensures |Shuffle(deck, seed)| == |deck|
    ensures multiset(Shuffle(deck, seed)) == multiset(deck)
  {
    if |deck| > 0 {
      ShufflePassPermutes(deck, |deck| - 1, SeedHash(seed));
    }
  }

  /** One iteration of the shuffle loop advances ShufflePass by one position. */
  lemma ShuffleStep(before: seq<Card>, after: seq<Card>, i: nat, j: nat, state: int, next: int, target: seq<Card>)
    requires 0 < i < |before| && 0 <= state < TwoTo32
    requires ShufflePass(before, i, state) == target
    requires next == NextState(state) && j == SwapIndex(next, i)
    requires after == Swap(before, i, j)
    ensures ShufflePass(after, i - 1, next) == target
  {
  }

  /** Math.floor(rng.next() * (i + 1)): the swap partner of position i. */
  method DrawIndex(rng: SeededRandom, i: nat) returns (j: nat)
    requires rng.Valid()
    modifies rng
    ensures rng.Valid() && rng.seed == NextState(old(rng.seed))
    ensures j == SwapIndex(rng.seed, i)
  {
    var r := rng.Next();
    FloorOfScaledState(r, rng.seed, i);
    j := (r * (i + 1) as real).Floor;
  }

  /** [a[i], a[j]] = [a[j], a[i]] */
  method SwapInPlace(a: array<Card>, i: nat, j: nat)
    requires i < a.Length && j < a.Length
    modifies a
    ensures a[..] == Swap(old(a[..]), i, j)
  {
    var t := a[i];
    a[i] := a[j];
    a[j] := t;
  }

  /** [...deck]: a fresh array holding the deck. */
  method CopyOf(deck: seq<Card>) returns (a: array<Card>)
    ensures fresh(a) && a[..] == deck
  {
    a := new Card[|deck|](k requires 0 <= k < |deck| => deck[k]);
  }

  /** One iteration of shuffleDeck's loop: swap position i with a partner
      drawn from the generator. The pass that remains shrinks by one. */
  method ShuffleRound(rng: SeededRandom, a: array<Card>, i: nat, ghost target: seq<Card>)
    requires rng.Valid() && 0 < i < a.Length && ShufflePass(a[..], i, rng.seed) == target
    modifies rng, a
    ensures rng.Valid() && ShufflePass(a[..], i - 1, rng.seed) == target
  {
    ghost var before, state := a[..], rng.seed;
    var j := DrawIndex(rng, i);
    SwapInPlace(a, i, j);
    ShuffleStep(before, a[..], i, j, state, rng.seed, target);
  }

  /** shuffleDeck's loop: positions a.Length-1 down to 1, each swapped
      with a partner drawn from the generator. */
  method ShuffleInPlace(rng: SeededRandom, a: array<Card>)
    requires rng.Valid() && a.Length > 0
    modifies rng, a
    ensures rng.Valid() && a[..] == ShufflePass(old(a[..]), a.Length - 1, old(rng.seed))
  {
    ghost var target := ShufflePass(a[..], a.Length - 1, rng.seed);
    var i := a.Length - 1;
    while i > 0
      invariant 0 <= i < a.Length && rng.Valid() && ShufflePass(a[..], i, rng.seed) == target
    {
      ShuffleRound(rng, a, i, target);
      i := i - 1;
    }
  }

  /** shuffleDeck: Fisher-Yates on a copy of the deck, driven by a
      generator seeded with the seed string. */
  method ShuffleDeck(deck: seq<Card>, seed: JsString) returns (shuffled: seq<Card>)
    ensures shuffled == Shuffle(deck, seed)
    ensures |shuffled| == |deck| && multiset(shuffled) == multiset(deck)
  {
    var rng := new SeededRandom(seed);
    var a := CopyOf(deck);
    if a.Length > 0 {
      ShuffleInPlace(rng, a);
    }
    shuffled := a[..];
    ShufflePermutes(deck, seed);
  }

}
