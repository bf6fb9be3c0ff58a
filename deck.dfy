/**
 * The deck: building the 52 cards, shuffling them and drawing from the end of the list.
 * A deck and a hand are sequences of cards; the last element of the deck is the next to be drawn.
 */
module Deck {
  import opened Cards

  /** True when no card occurs twice in `s`. */
  predicate Distinct(s: seq<Card>)
  {
    forall i, j | 0 <= i < j < |s| :: s[i] != s[j]
  }

  /** Exactly one copy of each of the 52 suit x rank cards. */
  ghost predicate IsFullDeck(deck: seq<Card>)
  {
    |deck| == 52 && Distinct(deck) && forall c: Card :: c in deck
  }

  /** The card the nested suit/rank loops put at position `i`. */
  function CardAt(i: nat): Card
    requires i < 52
  {
    Card(Suits[i / 13], Ranks[i % 13])
  }

  /** Where a card sits in the unshuffled deck. */
  function Position(c: Card): (i: nat)
    ensures i < 52 && CardAt(i) == c
  {
    13 * SuitIndex(c.suit) + RankIndex(c.rank)
  }

  /** The deck as the suit/rank loops leave it, before the shuffle. */
  function OrderedDeck(): (d: seq<Card>)
    ensures |d| == 52
  {
    seq(52, i requires 0 <= i < 52 => CardAt(i))
  }

  /** `order` is a rearrangement of the positions 0 .. n-1: in range and without repeats. */
  predicate IsPermutation(order: seq<nat>, n: nat)
  {
    |order| == n &&
    (forall i | 0 <= i < n :: order[i] < n) &&
    (forall i, j | 0 <= i < j < n :: order[i] != order[j])
  }

  /** The deck rearranged so that position i holds the card that was at order[i]. */
  function Shuffled(deck: seq<Card>, order: seq<nat>): (d: seq<Card>)
    requires IsPermutation(order, |deck|)
    ensures |d| == |deck|
  {
    seq(|deck|, i requires 0 <= i < |deck| => deck[order[i]])
  }

  /** The sequence in the opposite order: its first element is the last element of `s`. */
  function Reversed(s: seq<Card>): (r: seq<Card>)
    ensures |r| == |s|
  {
    if s == [] then [] else [s[|s| - 1]] + Reversed(s[..|s| - 1])
  }

  /** How many cards a draw of `n` yields from a deck of `k`: n, capped by what is left, never negative. */
  function DrawCount(n: int, k: nat): (m: nat)
    ensures m <= k
    ensures n <= 0 ==> m == 0
    ensures 0 < n <= k ==> m == n
    ensures k < n ==> m == k
  {
    if n <= 0 then 0 else if n < k then n else k
  }

  /**
   * Drawing `n` cards: the remaining deck and the drawn cards, the last card of the deck first.
   * On an empty deck both are empty; a draw never fails.
   */
  function Draw(deck: seq<Card>, n: int): (r: (seq<Card>, seq<Card>))
    ensures var m := DrawCount(n, |deck|);
      |r.1| == m && r.0 == deck[..|deck| - m] &&
      (forall i | 0 <= i < m :: r.1[i] == deck[|deck| - 1 - i]) &&
      multiset(r.1) + multiset(r.0) == multiset(deck)
  {
    var m := DrawCount(n, |deck|);
    var drawn := Reversed(deck[|deck| - m..]);
    ReversedAt(deck[|deck| - m..]);
    ReversedMultiset(deck[|deck| - m..]);
    assert deck == deck[..|deck| - m] + deck[|deck| - m..];
    (deck[..|deck| - m], drawn)
  }

  /**
   * Cards moved from the end of `deck` to the end of `hand`, one at a time, leaving `deck'` and `hand'`:
   * what every sequence of draws into one hand does.
   */
  predicate Took(deck: seq<Card>, hand: seq<Card>, deck': seq<Card>, hand': seq<Card>)
  {
    |deck'| <= |deck| && deck' == deck[..|deck'|] && hand' == hand + Reversed(deck[|deck'|..])
  }

  lemma {:induction false} ReversedAt(s: seq<Card>)
    ensures forall i | 0 <= i < |s| :: Reversed(s)[i] == s[|s| - 1 - i]
  {
    if s != [] {
      ReversedAt(s[..|s| - 1]);
    }
  }

  lemma {:induction false} ReversedMultiset(s: seq<Card>)
    ensures multiset(Reversed(s)) == multiset(s)
  {
    if s != [] {
      ReversedMultiset(s[..|s| - 1]);
      assert s == s[..|s| - 1] + [s[|s| - 1]];
    }
  }

  /** Drawing from a deck is taking cards from its end into a hand. */
  lemma DrawTakes(deck: seq<Card>, hand: seq<Card>, n: int)
    ensures Took(deck, hand, Draw(deck, n).0, hand + Draw(deck, n).1)
  {
  }

  /** Taking cards moves them between deck and hand: nothing is lost, nothing is added, the hand only grows. */
  lemma TookConserves(deck: seq<Card>, hand: seq<Card>, deck': seq<Card>, hand': seq<Card>)
    requires Took(deck, hand, deck', hand')
    ensures multiset(hand') + multiset(deck') == multiset(hand) + multiset(deck)
    ensures |hand'| + |deck'| == |hand| + |deck|
    ensures hand <= hand'
  {
    ReversedMultiset(deck[|deck'|..]);
    assert deck == deck' + deck[|deck'|..];
  }

  lemma TookReflexive(deck: seq<Card>, hand: seq<Card>)
    ensures Took(deck, hand, deck, hand)
  {
  }

  /** Two rounds of taking from the same deck are one round of taking. */
  lemma {:induction false} TookTransitive(d0: seq<Card>, h0: seq<Card>, d1: seq<Card>, h1: seq<Card>, d2: seq<Card>, h2: seq<Card>)
    requires Took(d0, h0, d1, h1) && Took(d1, h1, d2, h2)
    ensures Took(d0, h0, d2, h2)
  {
    assert d0[|d2|..] == d0[|d2|..|d1|] + d0[|d1|..];
    assert d1[|d2|..] == d0[|d2|..|d1|];
    ReversedAppend(d0[|d2|..|d1|], d0[|d1|..]);
  }

  lemma {:induction false} ReversedAppend(a: seq<Card>, b: seq<Card>)
    ensures Reversed(a + b) == Reversed(b) + Reversed(a)
  {
    ReversedAt(a);
    ReversedAt(b);
    ReversedAt(a + b);
  }

  /**
   * draw_card: pops up to `numCards` cards off the end of the deck, appending each to a new hand.
   * Returns min(numCards, |deck|) cards (none for a non-positive count or an empty deck).
   */
  method DrawCard(deck: seq<Card>, numCards: int) returns (rest: seq<Card>, hand: seq<Card>)
    ensures |hand| == DrawCount(numCards, |deck|)
    ensures rest == deck[..|deck| - |hand|]
    ensures forall i | 0 <= i < |hand| :: hand[i] == deck[|deck| - 1 - i]
    ensures (rest, hand) == Draw(deck, numCards)
  {
    rest, hand := deck, [];
    var i := 0;
    while i < numCards
      invariant i == 0 || 0 <= i <= numCards
      invariant |hand| == DrawCount(i, |deck|)
      invariant rest == deck[..|deck| - |hand|]
      invariant forall j | 0 <= j < |hand| :: hand[j] == deck[|deck| - 1 - j]
      decreases numCards - i
    {
      if rest != [] {
        var card := rest[|rest| - 1];
        rest := rest[..|rest| - 1];
        hand := hand + [card];
      }
      i := i + 1;
    }
    var drawn := Draw(deck, numCards).1;
    assert |hand| == |drawn|;
    assert forall j | 0 <= j < |hand| :: hand[j] == drawn[j];
    assert hand == drawn;
  }

  /** deal_initial_cards: two cards for the player, then two for the dealer. */
  method DealInitialCards(deck: seq<Card>) returns (rest: seq<Card>, player: seq<Card>, dealer: seq<Card>)
    ensures (rest, player, dealer) == InitialDeal(deck)
    ensures |deck| >= 4 ==>
      var k := |deck|;
      player == [deck[k - 1], deck[k - 2]] && dealer == [deck[k - 3], deck[k - 4]] && rest == deck[..k - 4]
    ensures multiset(player) + multiset(dealer) + multiset(rest) == multiset(deck)
  {
    rest, player := DrawCard(deck, 2);
    rest, dealer := DrawCard(rest, 2);
  }

  /** The remaining deck, the player's two cards and the dealer's two cards after the initial deal. */
  function InitialDeal(deck: seq<Card>): (seq<Card>, seq<Card>, seq<Card>)
  {
    var (d1, player) := Draw(deck, 2);
    var (d2, dealer) := Draw(d1, 2);
    (d2, player, dealer)
  }

  /**
   * create_deck: the suit loop around the rank loop appends every (suit, rank) pair, then the list is
   * shuffled. The shuffle is the permutation `order` (the randomness is an input here).
   */
  method CreateDeck(order: seq<nat>) returns (deck: seq<Card>)
    requires IsPermutation(order, 52)
    ensures IsFullDeck(deck)
    ensures deck == Shuffled(OrderedDeck(), order)
  {
    deck := [];
    for s := 0 to |Suits|
      invariant deck == OrderedDeck()[..13 * s]
    {
      for r := 0 to |Ranks|
        invariant deck == OrderedDeck()[..13 * s + r]
      {
        DivMod13(s, r);
        deck := deck + [Card(Suits[s], Ranks[r])];
      }
    }
    assert deck == OrderedDeck();
    deck := Shuffled(deck, order);
    OrderedDeckIsFull();
    ShuffledIsFull(OrderedDeck(), order);
  }

  lemma DivMod13(s: nat, r: nat)
    requires r < 13
    ensures (13 * s + r) / 13 == s && (13 * s + r) % 13 == r
  {
  }

  /** The unshuffled deck holds every card exactly once. */
  lemma OrderedDeckIsFull()
    ensures IsFullDeck(OrderedDeck())
  {
    var d := OrderedDeck();
    forall i | 0 <= i < 52
      ensures Position(d[i]) == i
    {
      SuitIndexOf(i / 13);
      RankIndexOf(i % 13);
    }
    forall c: Card
      ensures c in d
    {
      assert d[Position(c)] == c;
    }
  }

  /** Shuffling a full deck by a permutation gives a full deck. */
  lemma ShuffledIsFull(deck: seq<Card>, order: seq<nat>)
    requires IsFullDeck(deck) && IsPermutation(order, 52)
    ensures IsFullDeck(Shuffled(deck, order))
  {
    var d := Shuffled(deck, order);
    PermutationCovers(order, 52);
    forall c: Card
      ensures c in d
    {
      assert c in deck;
      var k :| 0 <= k < 52 && deck[k] == c;
      assert k in order;
      var i :| 0 <= i < 52 && order[i] == k;
      assert d[i] == c;
    }
  }

  /** Any two full decks are permutations of each other. */
  lemma FullDecksArePermutations(a: seq<Card>, b: seq<Card>)
    requires IsFullDeck(a) && IsFullDeck(b)
    ensures multiset(a) == multiset(b)
  {
    DistinctMultiset(a);
    DistinctMultiset(b);
  }

  lemma {:induction false} DistinctMultiset(s: seq<Card>)
    requires Distinct(s)
    ensures forall c :: multiset(s)[c] == if c in s then 1 else 0
  {
    if s != [] {
      var t := s[..|s| - 1];
      assert s == t + [s[|s| - 1]];
      DistinctMultiset(t);
    }
  }

  /** Pigeonhole: n distinct positions below n hit every position below n. */
  lemma PermutationCovers(order: seq<nat>, n: nat)
    requires IsPermutation(order, n)
    ensures forall k | 0 <= k < n :: k in order
  {
    var hit := set i | 0 <= i < n :: order[i];
    var all := Below(n);
    DistinctImageSize(order, n);
    forall k | 0 <= k < n
      ensures k in order
    {
      if k !in hit {
        assert hit <= all - {k};
        SubsetSize(hit, all - {k});
        assert false;
      }
    }
  }

  lemma {:induction false} DistinctImageSize(order: seq<nat>, n: nat)
    requires n <= |order|
    requires forall i, j | 0 <= i < j < n :: order[i] != order[j]
    ensures |set i | 0 <= i < n :: order[i]| == n
  {
    if n > 0 {
      DistinctImageSize(order, n - 1);
      var prefix := set i | 0 <= i < n - 1 :: order[i];
      assert (set i | 0 <= i < n :: order[i]) == prefix + {order[n - 1]};
      assert order[n - 1] !in prefix;
    }
  }

  /** The positions 0 .. n-1. */
  function Below(n: nat): (r: set<nat>)
    ensures forall k: nat :: k in r <==> k < n
    ensures |r| == n
  {
    if n == 0 then {} else Below(n - 1) + {n - 1}
  }

  lemma {:induction false} SubsetSize(a: set<nat>, b: set<nat>)
    requires a <= b
    ensures |a| <= |b|
  {
    if a != {} {
      var x :| x in a;
      SubsetSize(a - {x}, b - {x});
    }
  }
}
