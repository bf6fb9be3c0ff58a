/**
 * One round: a fresh shuffled deck, the initial deal, the blackjack pre-checks, the player's turn, the
 * dealer's turn (skipped when the player busts) and the winner.
 */
module Referee {
  import opened Cards
  import opened Deck
  import opened Scoring
  import opened Turns

  /** The result a round announces: one value per message. */
  datatype Outcome =
    | PushBlackjack    // both sides hold a blackjack: a tie
    | PlayerBlackjack
    | DealerBlackjack
    | PlayerBust       // the dealer wins because the player busted
    | DealerBust       // the player wins because the dealer busted
    | PlayerHigher
    | DealerHigher
    | Tie

  datatype Side = PlayerSide | DealerSide | Nobody

  /** Who an outcome declares the winner. */
  function Winner(o: Outcome): Side
  {
    match o
    case PlayerBlackjack | DealerBust | PlayerHigher => PlayerSide
    case DealerBlackjack | PlayerBust | DealerHigher => DealerSide
    case PushBlackjack | Tie => Nobody
  }

  /**
   * determine_winner: a player bust loses whatever the totals; otherwise a dealer bust loses;
   * otherwise the higher total wins and equal totals tie.
   */
  function DetermineWinner(playerHand: seq<Card>, dealerHand: seq<Card>, playerBust: bool, dealerBust: bool): (o: Outcome)
    ensures o != PushBlackjack && o != PlayerBlackjack && o != DealerBlackjack
    ensures o == PlayerBust <==> playerBust
    ensures o == DealerBust <==> !playerBust && dealerBust
    ensures playerBust ==> Winner(o) == DealerSide
    ensures !playerBust && dealerBust ==> Winner(o) == PlayerSide
    ensures !playerBust && !dealerBust ==>
      (Winner(o) == PlayerSide <==> HandValue(playerHand) > HandValue(dealerHand)) &&
      (Winner(o) == DealerSide <==> HandValue(dealerHand) > HandValue(playerHand))
  {
    var playerTotal := HandValue(playerHand);
    var dealerTotal := HandValue(dealerHand);
    if playerBust then PlayerBust
    else if dealerBust then DealerBust
    else if playerTotal > dealerTotal then PlayerHigher
    else if dealerTotal > playerTotal then DealerHigher
    else Tie
  }

  /**
   * The state a round ends in: its outcome, both hands, both bust flags and what is left of the deck;
   * or, when the script of typed lines runs out during the player's turn, the round still waiting.
   */
  datatype RoundResult =
    | Decided(outcome: Outcome, player: seq<Card>, dealer: seq<Card>, playerBust: bool, dealerBust: bool, deck: seq<Card>)
    | AwaitingChoice(player: seq<Card>, dealer: seq<Card>, deck: seq<Card>)

  /** After a player turn that did not bust, dealing from 52 cards leaves the dealer enough to stop. */
  lemma DealerStopsInRound(rest: seq<Card>, player: seq<Card>, dealer: seq<Card>, choices: seq<string>)
    requires |rest| == 48 && |player| == 2 && |dealer| == 2
    requires PlayerPlay(rest, player, choices).status != Busted
    ensures DealerStops(PlayerPlay(rest, player, choices).deck, dealer)
  {
    var p := PlayerPlay(rest, player, choices);
    PlayerPlayTakes(rest, player, choices);
    TookConserves(rest, player, p.deck, p.hand);
    PlayerPlayBust(rest, player, choices);
    HandValueBounds(p.hand);
    DealerStopsWithCards(p.deck, dealer);
  }

  /** One round played on `deck` (the shuffled 52 cards) with the player typing `choices`. */
  function Round(deck: seq<Card>, choices: seq<string>): RoundResult
    requires |deck| == 52
  {
    var (rest, player, dealer) := InitialDeal(deck);
    if CheckForBlackjack(player) && CheckForBlackjack(dealer) then
      Decided(PushBlackjack, player, dealer, false, false, rest)
    else if CheckForBlackjack(player) then
      Decided(PlayerBlackjack, player, dealer, false, false, rest)
    else if CheckForBlackjack(dealer) then
      Decided(DealerBlackjack, player, dealer, false, false, rest)
    else
      PlayTurns(rest, player, dealer, choices)
  }

  /** The rest of a round once neither dealt hand is a blackjack: the player's turn, then the dealer's unless the player busted. */
  function PlayTurns(rest: seq<Card>, player: seq<Card>, dealer: seq<Card>, choices: seq<string>): RoundResult
    requires |rest| == 48 && |player| == 2 && |dealer| == 2
  {
    var p := PlayerPlay(rest, player, choices);
    if p.status == OutOfChoices then
      AwaitingChoice(p.hand, dealer, p.deck)
    else
      var playerBust := p.status == Busted;
      var d :=
        if !playerBust then
          DealerStopsInRound(rest, player, dealer, choices);
          DealerPlay(p.deck, dealer)
        else
          DealerEnd(p.deck, dealer, false);
      Decided(DetermineWinner(p.hand, d.hand, playerBust, d.bust), p.hand, d.hand, playerBust, d.bust, d.deck)
  }

  /**
   * The body of the game loop for one round: create and shuffle the deck (by `order`), deal, run the
   * blackjack pre-checks, the player's turn and, unless the player busted, the dealer's turn, then
   * determine the winner.
   */
  method PlayRound(order: seq<nat>, choices: seq<string>) returns (r: RoundResult)
    requires IsPermutation(order, 52)
    ensures r == Round(Shuffled(OrderedDeck(), order), choices)
  {
    var dealingDeck := CreateDeck(order);
    var deck, playerHand, dealerHand := DealInitialCards(dealingDeck);
    var playerBlackjack := CheckForBlackjack(playerHand);
    var dealerBlackjack := CheckForBlackjack(dealerHand);
    if playerBlackjack && dealerBlackjack {
      return Decided(PushBlackjack, playerHand, dealerHand, false, false, deck);
    } else if playerBlackjack {
      return Decided(PlayerBlackjack, playerHand, dealerHand, false, false, deck);
    } else if dealerBlackjack {
      return Decided(DealerBlackjack, playerHand, dealerHand, false, false, deck);
    }
    ghost var rest, dealt := deck, playerHand;
    var status;
    deck, playerHand, status := PlayerTurn(deck, playerHand, choices);
    if status == OutOfChoices {
      return AwaitingChoice(playerHand, dealerHand, deck);
    }
    var playerBust := status == Busted;
    var dealerBust;
    if !playerBust {
      DealerStopsInRound(rest, dealt, dealerHand, choices);
      deck, dealerHand, dealerBust := DealerTurn(deck, dealerHand);
    } else {
      dealerBust := false;
    }
    var outcome := DetermineWinner(playerHand, dealerHand, playerBust, dealerBust);
    r := Decided(outcome, playerHand, dealerHand, playerBust, dealerBust, deck);
  }

  /**
   * The blackjack pre-checks come before any turn: a round ends in a blackjack outcome exactly when one
   * of the dealt two-card hands is a blackjack, push when both are, and then the hands are as dealt.
   */
  lemma BlackjackDecidesFirst(deck: seq<Card>, choices: seq<string>)
    requires |deck| == 52
    ensures var (rest, player, dealer) := InitialDeal(deck);
      var r := Round(deck, choices);
      (r.Decided? && r.outcome == PushBlackjack <==> CheckForBlackjack(player) && CheckForBlackjack(dealer)) &&
      (r.Decided? && r.outcome == PlayerBlackjack <==> CheckForBlackjack(player) && !CheckForBlackjack(dealer)) &&
      (r.Decided? && r.outcome == DealerBlackjack <==> !CheckForBlackjack(player) && CheckForBlackjack(dealer)) &&
      (CheckForBlackjack(player) || CheckForBlackjack(dealer) ==> r.player == player && r.dealer == dealer && r.deck == rest)
  {
  }

  /** A player bust ends the round for the dealer: the dealer's turn is not played and its bust flag is false. */
  lemma PlayerBustSkipsDealer(deck: seq<Card>, choices: seq<string>)
    requires |deck| == 52
    ensures var (rest, player, dealer) := InitialDeal(deck);
      var r := Round(deck, choices);
      r.Decided? && r.playerBust ==>
        r.outcome == PlayerBust && r.dealer == dealer && !r.dealerBust && r.deck == PlayerPlay(rest, player, choices).deck
  {
  }

  /**
   * Bust flags mean what they say: the player's flag is set exactly when the player's hand is over 21; a
   * dealer that played its turn ends on 17 or more with its flag set exactly when it is over 21; a dealer
   * that did not play never has its flag set.
   */
  lemma BustFlagsInRound(deck: seq<Card>, choices: seq<string>)
    requires |deck| == 52
    ensures var r := Round(deck, choices);
      r.Decided? ==>
        (r.playerBust <==> HandValue(r.player) > 21) &&
        (r.dealerBust ==> HandValue(r.dealer) > 21) &&
        (r.outcome in {DealerBust, PlayerHigher, DealerHigher, Tie} ==>
          HandValue(r.dealer) >= 17 && (r.dealerBust <==> HandValue(r.dealer) > 21))
  {
    var (rest, player, dealer) := InitialDeal(deck);
    TwoCardsNeverBust(player);
    TwoCardsNeverBust(dealer);
    var p := PlayerPlay(rest, player, choices);
    PlayerPlayBust(rest, player, choices);
    if !CheckForBlackjack(player) && !CheckForBlackjack(dealer) && p.status == Stood {
      DealerStopsInRound(rest, player, dealer, choices);
      DealerPlayResult(p.deck, dealer);
    }
  }

  /**
   * Nobody wins with a hand over 21, and a win without a blackjack or the other side busting is a win on
   * a strictly higher total.
   */
  lemma WinnerNeverBusts(deck: seq<Card>, choices: seq<string>)
    requires |deck| == 52
    ensures var r := Round(deck, choices);
      r.Decided? ==>
        (Winner(r.outcome) == PlayerSide ==>
           HandValue(r.player) <= 21 &&
           (r.outcome == PlayerBlackjack || r.dealerBust || HandValue(r.player) > HandValue(r.dealer))) &&
        (Winner(r.outcome) == DealerSide ==>
           HandValue(r.dealer) <= 21 &&
           (r.outcome == DealerBlackjack || r.playerBust || HandValue(r.dealer) > HandValue(r.player)))
  {
    BustFlagsInRound(deck, choices);
    var (rest, player, dealer) := InitialDeal(deck);
    TwoCardsNeverBust(player);
    TwoCardsNeverBust(dealer);
  }

  /** The turns only move cards: hands and deck together keep their cards, and each hand keeps its dealt cards first. */
  lemma PlayTurnsConservesCards(rest: seq<Card>, player: seq<Card>, dealer: seq<Card>, choices: seq<string>)
    requires |rest| == 48 && |player| == 2 && |dealer| == 2
    ensures var r := PlayTurns(rest, player, dealer, choices);
      multiset(r.player) + multiset(r.dealer) + multiset(r.deck) == multiset(player) + multiset(dealer) + multiset(rest) &&
      player <= r.player && dealer <= r.dealer
  {
    var p := PlayerPlay(rest, player, choices);
    PlayerPlayTakes(rest, player, choices);
    var r := PlayTurns(rest, player, dealer, choices);
    if p.status == Stood {
      DealerStopsInRound(rest, player, dealer, choices);
      DealerPlayResult(p.deck, dealer);
      var d := DealerPlay(p.deck, dealer);
      assert r.player == p.hand && r.dealer == d.hand && r.deck == d.deck;
    } else {
      TookReflexive(p.deck, dealer);
      assert r.player == p.hand && r.dealer == dealer && r.deck == p.deck;
    }
    TakenInTurn(rest, player, dealer, p.deck, p.hand, r.deck, r.dealer);
  }

  /** The player takes from the deck, then the dealer takes from what is left. */
  lemma TakenInTurn(rest: seq<Card>, player: seq<Card>, dealer: seq<Card>,
                    afterPlayer: seq<Card>, player': seq<Card>, afterDealer: seq<Card>, dealer': seq<Card>)
    requires Took(rest, player, afterPlayer, player') && Took(afterPlayer, dealer, afterDealer, dealer')
    ensures multiset(player') + multiset(dealer') + multiset(afterDealer) == multiset(player) + multiset(dealer) + multiset(rest)
    ensures player <= player' && dealer <= dealer'
  {
    TookConserves(rest, player, afterPlayer, player');
    TookConserves(afterPlayer, dealer, afterDealer, dealer');
    calc {
      multiset(player') + multiset(dealer') + multiset(afterDealer);
      multiset(player') + (multiset(dealer') + multiset(afterDealer));
      multiset(player') + (multiset(dealer) + multiset(afterPlayer));
      (multiset(player') + multiset(afterPlayer)) + multiset(dealer);
      (multiset(player) + multiset(rest)) + multiset(dealer);
      multiset(player) + multiset(dealer) + multiset(rest);
    }
  }

  /**
   * A round only moves cards: the hands and what is left of the deck together are the 52 cards, and each
   * hand starts with the two cards it was dealt.
   */
  lemma RoundConservesCards(deck: seq<Card>, choices: seq<string>)
    requires |deck| == 52
    ensures var (rest, player, dealer) := InitialDeal(deck);
      var r := Round(deck, choices);
      multiset(r.player) + multiset(r.dealer) + multiset(r.deck) == multiset(deck) &&
      player <= r.player && dealer <= r.dealer
  {
    var (rest, player, dealer) := InitialDeal(deck);
    assert multiset(player) + multiset(dealer) + multiset(rest) == multiset(deck);
    if !CheckForBlackjack(player) && !CheckForBlackjack(dealer) {
      PlayTurnsConservesCards(rest, player, dealer, choices);
    }
  }
}
