/** Cards of a single 52-card deck: a (suit, rank) pair, as the game stores them. */
module Cards {

  datatype Suit = Hearts | Diamonds | Clubs | Spades

  /** The face value of a numbered card. */
  type PipValue = v: int | 2 <= v <= 10 witness 2

  /** A rank is one of the thirteen rank labels "2" .. "10", "J", "Q", "K", "A". */
  datatype Rank = Pip(value: PipValue) | Jack | Queen | King | Ace

  datatype Card = Card(suit: Suit, rank: Rank)

  /** The suits in the order the deck is built. */
  const Suits: seq<Suit> := [Hearts, Diamonds, Clubs, Spades]

  /** The ranks in the order the deck is built. */
  const Ranks: seq<Rank> :=
    [Pip(2), Pip(3), Pip(4), Pip(5), Pip(6), Pip(7), Pip(8), Pip(9), Pip(10), Jack, Queen, King, Ace]

  /** Where a suit sits in Suits. */
  function SuitIndex(s: Suit): (i: nat)
    ensures i < |Suits| && Suits[i] == s
  {
    match s
    case Hearts => 0
    case Diamonds => 1
    case Clubs => 2
    case Spades => 3
  }

  /** Where a rank sits in Ranks. */
  function RankIndex(r: Rank): (i: nat)
    ensures i < |Ranks| && Ranks[i] == r
  {
    match r
    case Pip(v) => PipIndex(v); v - 2
    case Jack => 9
    case Queen => 10
    case King => 11
    case Ace => 12
  }

  lemma SuitIndexOf(i: nat)
    requires i < |Suits|
    ensures SuitIndex(Suits[i]) == i
  {
  }

  lemma RankIndexOf(i: nat)
    requires i < |Ranks|
    ensures RankIndex(Ranks[i]) == i
  {
  }

  lemma PipIndex(v: PipValue)
    ensures Ranks[v - 2] == Pip(v)
  {
    if v == 2 {} else if v == 3 {} else if v == 4 {} else if v == 5 {}
    else if v == 6 {} else if v == 7 {} else if v == 8 {} else if v == 9 {}
  }
}
