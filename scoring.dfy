/**
 * Hand scoring: numbered cards at face value, J/Q/K at 10, each Ace at 11 until the total is over 21,
 * when Aces are softened to 1 one at a time. A natural blackjack is a two-card 21.
 */
module Scoring {
  import opened Cards

  /** What a card adds to the total before any Ace is softened. */
  function SoftValue(c: Card): int
  {
    match c.rank
    case Pip(v) => v
    case Jack | Queen | King => 10
    case Ace => 11
  }

  function AceWeight(c: Card): int
  {
    if c.rank == Ace then 1 else 0
  }

  /** The sum of `w` over the cards of a hand. */
  function Tally(hand: seq<Card>, w: Card -> int): int
  {
    if hand == [] then 0 else Tally(hand[..|hand| - 1], w) + w(hand[|hand| - 1])
  }

  /** The total with every Ace counted as 11. */
  function SoftTotal(hand: seq<Card>): int
  {
    Tally(hand, SoftValue)
  }

  function AceCount(hand: seq<Card>): int
  {
    Tally(hand, AceWeight)
  }

  /** The total with every Ace counted as 1. */
  function HardTotal(hand: seq<Card>): int
  {
    SoftTotal(hand) - 10 * AceCount(hand)
  }

  /**
   * How many of `aces` Aces must drop from 11 to 1 to bring `soft` to 21 or below:
   * the least such number, or all of them when even that is not enough.
   */
  function Downgrades(soft: int, aces: int): int
  {
    if soft <= 21 || aces <= 0 then 0
    else if (soft - 12) / 10 < aces then (soft - 12) / 10
    else aces
  }

  /** calculate_hand_value, in closed form. */
  function HandValue(hand: seq<Card>): int
  {
    if hand == [] then 0
    else SoftTotal(hand) - 10 * Downgrades(SoftTotal(hand), AceCount(hand))
  }

  /** check_for_blackjack: a two-card hand worth 21, which is an Ace together with a card worth 10. */
  function CheckForBlackjack(hand: seq<Card>): (b: bool)
    ensures b <==>
      |hand| == 2 &&
      ((hand[0].rank == Ace && SoftValue(hand[1]) == 10) || (hand[1].rank == Ace && SoftValue(hand[0]) == 10))
  {
    if |hand| == 2 then BlackjackIsAceAndTen(hand); HandValue(hand) == 21 else false
  }

  /**
   * calculate_hand_value: one pass adding up the cards with Aces at 11 and counting the Aces, then
   * subtracting 10 per Ace while the total is over 21 and an Ace is still at 11.
   */
  method CalculateHandValue(hand: seq<Card>) returns (total: int)
    ensures total == HandValue(hand)
  {
    if hand == [] {
      return 0;
    }
    total := 0;
    var aces := 0;
    for i := 0 to |hand|
      invariant total == SoftTotal(hand[..i])
      invariant aces == AceCount(hand[..i])
    {
      assert hand[..i + 1][..i] == hand[..i];
      match hand[i].rank
      case Pip(v) =>
        total := total + v;
      case Jack | Queen | King =>
        total := total + 10;
      case Ace =>
        aces := aces + 1;
        total := total + 11;
    }
    assert hand[..|hand|] == hand;
    ghost var soft, count := total, aces;
    AceCountBounds(hand);
    while total > 21 && aces > 0
      invariant 0 <= aces <= count
      invariant total == soft - 10 * (count - aces)
      invariant aces < count ==> total > 11
      decreases aces
    {
      total := total - 10;
      aces := aces - 1;
    }
  }

  lemma {:induction false} AceCountBounds(hand: seq<Card>)
    ensures 0 <= AceCount(hand) <= |hand|
  {
    if hand != [] {
      AceCountBounds(hand[..|hand| - 1]);
    }
  }

  /** Every card is worth at least 1 with its Ace (if it is one) at 1, so the hard total is at least the card count. */
  lemma {:induction false} HardTotalAtLeastCount(hand: seq<Card>)
    ensures HardTotal(hand) >= |hand|
  {
    if hand != [] {
      HardTotalAtLeastCount(hand[..|hand| - 1]);
    }
  }

  /**
   * Ace softening: the value is the all-Aces-at-11 total minus 10 for each of j Aces, where j is the
   * least number of Aces (at most the Ace count) that brings the total to 21 or below, or every Ace
   * when no such number exists.
   */
  lemma SofteningIsMinimal(hand: seq<Card>)
    ensures var soft, aces, j := SoftTotal(hand), AceCount(hand), Downgrades(SoftTotal(hand), AceCount(hand));
      0 <= j <= aces &&
      HandValue(hand) == soft - 10 * j &&
      (HandValue(hand) <= 21 || j == aces) &&
      forall j' | 0 <= j' < j :: soft - 10 * j' > 21
  {
    AceCountBounds(hand);
  }

  /** The value lies between the hard total and the soft total; it is at most 21 whenever the hard total is. */
  lemma HandValueBounds(hand: seq<Card>)
    ensures HardTotal(hand) <= HandValue(hand) <= SoftTotal(hand)
    ensures HardTotal(hand) <= 21 ==> HandValue(hand) <= 21
    ensures HandValue(hand) >= |hand|
  {
    AceCountBounds(hand);
    HardTotalAtLeastCount(hand);
  }

  /** Two cards are never over 21: the only soft total above 21 is two Aces, which score 12. */
  lemma TwoCardsNeverBust(hand: seq<Card>)
    requires |hand| == 2
    ensures HandValue(hand) <= 21
  {
    TallyOfTwo(hand, SoftValue);
    TallyOfTwo(hand, AceWeight);
  }

  lemma TallyOfTwo(hand: seq<Card>, w: Card -> int)
    requires |hand| == 2
    ensures Tally(hand, w) == w(hand[0]) + w(hand[1])
  {
    var first := hand[..1];
    assert first[..0] == [];
    assert Tally(first, w) == Tally(first[..0], w) + w(hand[0]);
    assert hand[..|hand| - 1] == first;
  }

  /** Two cards are worth 21 exactly when they are an Ace and a card worth 10. */
  lemma BlackjackIsAceAndTen(hand: seq<Card>)
    requires |hand| == 2
    ensures HandValue(hand) == 21 <==>
      (hand[0].rank == Ace && SoftValue(hand[1]) == 10) || (hand[1].rank == Ace && SoftValue(hand[0]) == 10)
  {
    TallyOfTwo(hand, SoftValue);
    TallyOfTwo(hand, AceWeight);
  }

  lemma {:induction false} TallyAppend(a: seq<Card>, b: seq<Card>, w: Card -> int)
    ensures Tally(a + b, w) == Tally(a, w) + Tally(b, w)
  {
    if b != [] {
      assert (a + b)[..|a + b| - 1] == a + b[..|b| - 1];
      TallyAppend(a, b[..|b| - 1], w);
    } else {
      assert a + b == a;
    }
  }

  /** A tally does not depend on the order of the cards. */
  lemma {:induction false} TallyPermutation(a: seq<Card>, b: seq<Card>, w: Card -> int)
    requires multiset(a) == multiset(b)
    ensures Tally(a, w) == Tally(b, w)
    decreases |a|
  {
    if a != [] {
      var a' := a[..|a| - 1];
      var x := a[|a| - 1];
      assert a == a' + [x];
      assert x in multiset(b);
      var k :| 0 <= k < |b| && b[k] == x;
      var b' := b[..k] + b[k + 1..];
      assert b == b[..k] + [x] + b[k + 1..];
      assert multiset(b) == multiset(b[..k]) + multiset([x]) + multiset(b[k + 1..]);
      assert multiset(b') == multiset(b[..k]) + multiset(b[k + 1..]);
      assert multiset(a) == multiset(a') + multiset([x]);
      assert multiset(a') == multiset(a) - multiset([x]);
      assert multiset(b') == multiset(b) - multiset([x]);
      TallyPermutation(a', b', w);
      TallyAppend(b[..k] + [x], b[k + 1..], w);
      TallyAppend(b[..k], [x], w);
      TallyAppend(b[..k], b[k + 1..], w);
      assert [x][..0] == [];
    } else {
      assert |b| == |multiset(b)| == 0;
    }
  }

  /** Reordering a hand does not change its value. */
  lemma HandValueIgnoresOrder(a: seq<Card>, b: seq<Card>)
    requires multiset(a) == multiset(b)
    ensures HandValue(a) == HandValue(b)
  {
    TallyPermutation(a, b, SoftValue);
    TallyPermutation(a, b, AceWeight);
    assert |a| == |multiset(a)| == |multiset(b)| == |b|;
  }

  /** Worked values: K+Q is 20, A+K is a blackjack, A+A+9 is 21 and A+A+A+9 is 12. */
  lemma ScoringExamples()
    ensures HandValue([]) == 0
    ensures HandValue([Card(Spades, King), Card(Hearts, Queen)]) == 20
    ensures HandValue([Card(Spades, Ace), Card(Hearts, King)]) == 21
    ensures CheckForBlackjack([Card(Spades, Ace), Card(Hearts, King)])
    ensures HandValue([Card(Spades, Ace), Card(Hearts, Ace), Card(Diamonds, Pip(9))]) == 21
    ensures HandValue([Card(Spades, Ace), Card(Hearts, Ace), Card(Diamonds, Ace), Card(Clubs, Pip(9))]) == 12
  {
    var kq := [Card(Spades, King), Card(Hearts, Queen)];
    TallyOfTwo(kq, SoftValue);
    TallyOfTwo(kq, AceWeight);
    var ak := [Card(Spades, Ace), Card(Hearts, King)];
    TallyOfTwo(ak, SoftValue);
    TallyOfTwo(ak, AceWeight);
    var aa := [Card(Spades, Ace), Card(Hearts, Ace)];
    TallyOfTwo(aa, SoftValue);
    TallyOfTwo(aa, AceWeight);
    var aa9 := aa + [Card(Diamonds, Pip(9))];
    assert aa9[..2] == aa;
    assert SoftTotal(aa9) == 31 && AceCount(aa9) == 2;
    assert HandValue(aa9) == 21;
    assert aa9 == [Card(Spades, Ace), Card(Hearts, Ace), Card(Diamonds, Pip(9))];
    var aaa := aa + [Card(Diamonds, Ace)];
    assert aaa[..2] == aa;
    assert SoftTotal(aaa) == 33 && AceCount(aaa) == 3;
    var aaa9 := aaa + [Card(Clubs, Pip(9))];
    assert aaa9[..3] == aaa;
    assert SoftTotal(aaa9) == 42 && AceCount(aaa9) == 3;
    assert HandValue(aaa9) == 12;
    assert aaa9 == [Card(Spades, Ace), Card(Hearts, Ace), Card(Diamonds, Ace), Card(Clubs, Pip(9))];
  }
}
