/** The card data model shared by the deck, the rules and the store
    (src/types/game.ts). */
module Cards {

  /** The four suits of a standard deck; this variant only ever deals spades. */
  datatype Suit = Hearts | Diamonds | Clubs | Spades

  /** Ace = 1, Jack = 11, Queen = 12, King = 13. */
  type Rank = r: int | 1 <= r <= 13 witness 1

  /** A card: a unique id, its suit and rank, and whether it lies face up.
      Cards are values; turning one face up builds a new card. */
  datatype Card = Card(id: string, suit: Suit, rank: Rank, faceUp: bool)

  /** A JavaScript string is a sequence of UTF-16 code units. */
  type CodeUnit = bv16
  type JsString = seq<CodeUnit>

  /** A tableau pile, bottom card first; its last element is the exposed top. */
  type Pile = seq<Card>

  /** The state an undo restores: layout, foundation and score (GameHistory). */
  datatype Snapshot = Snapshot(tableau: seq<Pile>, stock: seq<Card>, foundation: seq<Suit>, score: int)

  /** Where a hint points: the pile and the index of the first card to move. */
  datatype HintSource = HintSource(pileIndex: int, cardIndex: int)

  datatype Option<T> = None | Some(value: T)

  /** Math.max on two integers. */
  function Max(a: int, b: int): (m: int)
    ensures m >= a && m >= b && (m == a || m == b)
  {
    if a >= b then a else b
  }

  /** Math.min on two integers. */
  function Min(a: int, b: int): (m: int)
    ensures m <= a && m <= b && (m == a || m == b)
  {
    if a <= b then a else b
  }
}
