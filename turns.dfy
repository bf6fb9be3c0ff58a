/**
 * The two turn loops. The player's loop reads one typed choice per pass ('h' hits, 's' stands, anything
 * else is asked again) until a stand or a bust; the typed lines are given as a finite script. The
 * dealer's loop hits while the hand is worth 16 or less.
 */
module Turns {
  import opened Cards
  import opened Deck
  import opened Scoring

  function LowerChar(c: char): char
  {
    if 'A' <= c <= 'Z' then (c as int - 'A' as int + 'a' as int) as char else c
  }

  /** The typed line in lower case (ASCII letters only): each of A-Z becomes its a-z letter and nothing else changes. */
  function Lower(s: string): (r: string)
    ensures |r| == |s|
    ensures forall i | 0 <= i < |s| :: !('A' <= r[i] <= 'Z')
    ensures forall i | 0 <= i < |s| && !('A' <= s[i] <= 'Z') :: r[i] == s[i]
    ensures forall i | 0 <= i < |s| && 'A' <= s[i] <= 'Z' :: r[i] as int - s[i] as int == 'a' as int - 'A' as int
  {
    seq(|s|, i requires 0 <= i < |s| => LowerChar(s[i]))
  }

  /** A line chooses "hit" exactly when it is h or H, and "stand" exactly when it is s or S. */
  lemma ChoiceSpelling(s: string)
    ensures Lower(s) == "h" <==> s == "h" || s == "H"
    ensures Lower(s) == "s" <==> s == "s" || s == "S"
  {
  }

  /** How the player's turn ended: over 21, standing, or with the script used up while still asking. */
  datatype PlayerStatus = Busted | Stood | OutOfChoices

  datatype PlayerEnd = PlayerEnd(deck: seq<Card>, hand: seq<Card>, status: PlayerStatus)

  /** The player's turn, one typed line per step. */
  function PlayerPlay(deck: seq<Card>, hand: seq<Card>, choices: seq<string>): PlayerEnd
    decreases |choices|
  {
    if HandValue(hand) > 21 then PlayerEnd(deck, hand, Busted)
    else if choices == [] then PlayerEnd(deck, hand, OutOfChoices)
    else
      var choice := Lower(choices[0]);
      if choice == "h" then
        var (deck', newCard) := Draw(deck, 1);
        PlayerPlay(deck', hand + newCard, choices[1..])
      else if choice == "s" then PlayerEnd(deck, hand, Stood)
      else PlayerPlay(deck, hand, choices[1..])
  }

  /**
   * player_turn: at the top of each pass the hand is scored and a total over 21 ends the turn as a
   * bust; otherwise the next line is read: 'h' draws one card onto the hand, 's' stands, anything else
   * changes nothing and asks again.
   */
  method PlayerTurn(deck: seq<Card>, hand: seq<Card>, choices: seq<string>)
    returns (deck': seq<Card>, hand': seq<Card>, status: PlayerStatus)
    ensures PlayerEnd(deck', hand', status) == PlayerPlay(deck, hand, choices)
    ensures Took(deck, hand, deck', hand')
    ensures status == Busted <==> HandValue(hand') > 21
    ensures status == Stood ==> HandValue(hand') <= 21
  {
    PlayerPlayTakes(deck, hand, choices);
    PlayerPlayBust(deck, hand, choices);
    deck', hand' := deck, hand;
    var next := 0;
    while true
      invariant 0 <= next <= |choices|
      invariant PlayerPlay(deck', hand', choices[next..]) == PlayerPlay(deck, hand, choices)
      decreases |choices| - next
    {
      var total := CalculateHandValue(hand');
      if total > 21 {
        return deck', hand', Busted;
      }
      if next == |choices| {
        return deck', hand', OutOfChoices;
      }
      var choice := Lower(choices[next]);
      next := next + 1;
      if choice == "h" {
        var newCard;
        deck', newCard := DrawCard(deck', 1);
        hand' := hand' + newCard;
      } else if choice == "s" {
        return deck', hand', Stood;
      }
    }
  }

  /** The player's turn only ever moves cards from the end of the deck onto the end of the hand. */
  lemma {:induction false} PlayerPlayTakes(deck: seq<Card>, hand: seq<Card>, choices: seq<string>)
    ensures var r := PlayerPlay(deck, hand, choices); Took(deck, hand, r.deck, r.hand)
    decreases |choices|
  {
    if HandValue(hand) <= 21 && choices != [] {
      var choice := Lower(choices[0]);
      if choice == "h" {
        var (deck', newCard) := Draw(deck, 1);
        DrawTakes(deck, hand, 1);
        PlayerPlayTakes(deck', hand + newCard, choices[1..]);
        var r := PlayerPlay(deck', hand + newCard, choices[1..]);
        TookTransitive(deck, hand, deck', hand + newCard, r.deck, r.hand);
      } else if choice != "s" {
        PlayerPlayTakes(deck, hand, choices[1..]);
      }
    }
  }

  /** The turn reports a bust exactly when the final hand is over 21; a stand is never over 21. */
  lemma {:induction false} PlayerPlayBust(deck: seq<Card>, hand: seq<Card>, choices: seq<string>)
    ensures var r := PlayerPlay(deck, hand, choices);
      (r.status == Busted <==> HandValue(r.hand) > 21) &&
      (r.status == Stood ==> HandValue(r.hand) <= 21)
    decreases |choices|
  {
    if HandValue(hand) <= 21 && choices != [] {
      var choice := Lower(choices[0]);
      if choice == "h" {
        var (deck', newCard) := Draw(deck, 1);
        PlayerPlayBust(deck', hand + newCard, choices[1..]);
      } else if choice != "s" {
        PlayerPlayBust(deck, hand, choices[1..]);
      }
    }
  }

  /** The lines that are a choice: those reading h or s once lower-cased. */
  function ValidChoices(choices: seq<string>): (r: seq<string>)
    ensures |r| <= |choices|
  {
    if choices == [] then []
    else if Lower(choices[0]) == "h" || Lower(choices[0]) == "s" then [choices[0]] + ValidChoices(choices[1..])
    else ValidChoices(choices[1..])
  }

  /** An invalid line is ignored: dropping every invalid line from the script changes nothing. */
  lemma {:induction false} InvalidChoicesIgnored(deck: seq<Card>, hand: seq<Card>, choices: seq<string>)
    ensures PlayerPlay(deck, hand, ValidChoices(choices)) == PlayerPlay(deck, hand, choices)
    decreases |choices|
  {
    if HandValue(hand) <= 21 && choices != [] {
      var choice := Lower(choices[0]);
      if choice == "h" {
        var (deck', newCard) := Draw(deck, 1);
        InvalidChoicesIgnored(deck', hand + newCard, choices[1..]);
        assert ([choices[0]] + ValidChoices(choices[1..]))[1..] == ValidChoices(choices[1..]);
      } else if choice != "s" {
        InvalidChoicesIgnored(deck, hand, choices[1..]);
      }
    } else if HandValue(hand) <= 21 {
      assert ValidChoices(choices) == [];
    }
  }

  /** How many lines of the script read 'h'. */
  function HitCount(choices: seq<string>): nat
  {
    if choices == [] then 0 else (if Lower(choices[0]) == "h" then 1 else 0) + HitCount(choices[1..])
  }

  /** Each 'h' adds at most one card (none once the deck is empty) and nothing else adds any. */
  lemma {:induction false} CardsAtMostHits(deck: seq<Card>, hand: seq<Card>, choices: seq<string>)
    ensures var r := PlayerPlay(deck, hand, choices); |hand| <= |r.hand| <= |hand| + HitCount(choices)
    decreases |choices|
  {
    if HandValue(hand) <= 21 && choices != [] {
      var choice := Lower(choices[0]);
      if choice == "h" {
        var (deck', newCard) := Draw(deck, 1);
        CardsAtMostHits(deck', hand + newCard, choices[1..]);
      } else if choice != "s" {
        CardsAtMostHits(deck, hand, choices[1..]);
      }
    }
  }

  /**
   * The dealer's loop ends: drawing one card at a time while the hand is worth 16 or less reaches a
   * hand worth more than 16 before the deck runs out. When it does not, dealer_turn never returns.
   */
  predicate DealerStops(deck: seq<Card>, hand: seq<Card>)
    decreases |deck|
  {
    HandValue(hand) > 16 || (deck != [] && DealerStops(Draw(deck, 1).0, hand + Draw(deck, 1).1))
  }

  datatype DealerEnd = DealerEnd(deck: seq<Card>, hand: seq<Card>, bust: bool)

  /** The dealer's turn: hit while worth 16 or less, then stand (or bust when over 21). */
  function DealerPlay(deck: seq<Card>, hand: seq<Card>): DealerEnd
    requires DealerStops(deck, hand)
    decreases |deck|
  {
    var total := HandValue(hand);
    if total <= 16 then
      var (deck', newCard) := Draw(deck, 1);
      DealerPlay(deck', hand + newCard)
    else
      DealerEnd(deck, hand, total > 21)
  }

  /** dealer_turn: a fixed policy with no input, drawing one card per pass while the total is 16 or less. */
  method DealerTurn(deck: seq<Card>, hand: seq<Card>) returns (deck': seq<Card>, hand': seq<Card>, bust: bool)
    requires DealerStops(deck, hand)
    ensures DealerEnd(deck', hand', bust) == DealerPlay(deck, hand)
    ensures Took(deck, hand, deck', hand')
    ensures HandValue(hand') >= 17 && (bust <==> HandValue(hand') > 21)
  {
    DealerPlayResult(deck, hand);
    deck', hand' := deck, hand;
    while true
      invariant DealerStops(deck', hand')
      invariant DealerPlay(deck', hand') == DealerPlay(deck, hand)
      decreases |deck'|
    {
      var total := CalculateHandValue(hand');
      if total <= 16 {
        var newCard;
        deck', newCard := DrawCard(deck', 1);
        hand' := hand' + newCard;
      } else {
        return deck', hand', total > 21;
      }
    }
  }

  /**
   * What the dealer's turn guarantees: it ends worth 17 or more, the bust flag says whether it is over 21,
   * the cards came off the end of the deck onto the end of the hand, every card was drawn while the hand
   * was worth 16 or less, and a hand worth 16 or less always draws at least once.
   */
  lemma {:induction false} DealerPlayResult(deck: seq<Card>, hand: seq<Card>)
    requires DealerStops(deck, hand)
    ensures var r := DealerPlay(deck, hand);
      HandValue(r.hand) >= 17 &&
      r.bust == (HandValue(r.hand) > 21) &&
      Took(deck, hand, r.deck, r.hand) &&
      (forall k | |hand| <= k < |r.hand| :: HandValue(r.hand[..k]) <= 16) &&
      (HandValue(hand) <= 16 ==> |r.hand| > |hand|)
    decreases |deck|
  {
    if HandValue(hand) <= 16 {
      var (deck', newCard) := Draw(deck, 1);
      DealerPlayResult(deck', hand + newCard);
      DrawTakes(deck, hand, 1);
      var r := DealerPlay(deck', hand + newCard);
      TookTransitive(deck, hand, deck', hand + newCard, r.deck, r.hand);
      TookConserves(deck', hand + newCard, r.deck, r.hand);
      assert r.hand[..|hand|] == hand;
    }
  }

  /** Standing on 17 to 21 and busting over 21 happen without drawing. */
  lemma DealerStandsWithoutDrawing(deck: seq<Card>, hand: seq<Card>)
    requires HandValue(hand) > 16
    ensures DealerStops(deck, hand)
    ensures DealerPlay(deck, hand) == DealerEnd(deck, hand, HandValue(hand) > 21)
  {
  }

  /** Every card is worth at least 1, so 17 cards between hand and deck are enough for the dealer to stop. */
  lemma {:induction false} DealerStopsWithCards(deck: seq<Card>, hand: seq<Card>)
    requires |hand| + |deck| >= 17
    ensures DealerStops(deck, hand)
    decreases |deck|
  {
    HandValueBounds(hand);
    if HandValue(hand) <= 16 {
      DealerStopsWithCards(Draw(deck, 1).0, hand + Draw(deck, 1).1);
    }
  }
}
