# Blackjack round engine in Dafny

This project models the round engine of a terminal Blackjack game (`blackjack_game.py`). The game is one
player against a dealer with a fixed policy. It covers:

- building and shuffling the 52-card deck, and drawing cards off its end (`Deck`, `deck.dfy`);
- scoring a hand, with Aces counted as 11 and then softened to 1 while the hand is over 21, and the
  two-card blackjack test (`Scoring`, `scoring.dfy`);
- the player's hit/stand loop and the dealer's hit-on-16 loop (`Turns`, `turns.dfy`);
- winner determination and one round: the initial deal, the blackjack pre-checks, the two turns and the
  result (`Referee`, `referee.dfy`).

Cards are a `(suit, rank)` datatype (`Cards`, `cards.dfy`). A deck and a hand are sequences of cards.
The last element of a deck is the next card drawn.

Each loop of the game is a method with a `while`/`for` loop. Each method is proved equal to a function
that specifies it:

| method | function |
|---|---|
| `DrawCard` | `Draw` |
| `DealInitialCards` | `InitialDeal` |
| `CalculateHandValue` | `HandValue` (closed form: soft total minus 10 per minimal Ace downgrade) |
| `PlayerTurn` | `PlayerPlay` |
| `DealerTurn` | `DealerPlay` |
| `PlayRound` | `Round` |

`CheckForBlackjack` (blackjack_game.py:171-173) has no loop and is a function. The lemmas state the
game's promises about those functions.

- `Took(deck, hand, deck', hand')` says that cards were moved one at a time from the end of the deck
  onto the end of the hand. Every draw and every turn satisfies it. A round has two hands: each hand's
  turn satisfies it, and `TakenInTurn` combines the two turns. From it follow card conservation and
  "a hand only grows".
- The player's typed lines are a finite script `choices`. If the script runs out while the game is
  still asking, the turn ends as `OutOfChoices` and the round as `AwaitingChoice`. The program itself
  would wait for input at that point.
- `random.shuffle` is modelled as a permutation `order` of the 52 positions, given as input.
- The dealer's loop only terminates when the deck lasts until the hand is worth 17 or more.
  `DealerStops` states exactly that condition, and `DealerTurn` requires it. `DealerStopsInRound`
  proves the condition always holds in a round dealt from 52 cards.

The prompt (blackjack_game.py:114) asks "'hit' or 'stand' (h/s)?", and the rules text
(blackjack_game.py:202) says to type `h` or `s`. The code reads the line through `.lower()` (modelled by
`Turns.Lower`) and compares it with the single letters (blackjack_game.py:116-126):

- The code accepts only the single letters `h` and `s` in either case. A typed `hit` or `stand` is
  invalid and asks again.
- The typed line is not trimmed, so ` h` is invalid too.

## Model

| member | source | states |
|---|---|---|
| `Deck.Draw` | blackjack_game.py:51-65 | drawing n cards yields min(n, k) of a k-card deck (none for n <= 0 or an empty deck), the last card first; the rest is the deck's prefix; drawn plus rest is the original multiset |
| `Deck.DrawCard` | blackjack_game.py:51-65 | the pop/append loop returns min(n, k) cards, card i being deck[k-1-i], and leaves exactly deck[..k-m]; equals `Draw` |
| `Deck.DrawTakes` | blackjack_game.py:60-65 | a draw appended to a hand moves cards from the end of the deck onto the end of the hand |
| `Deck.TookConserves` | blackjack_game.py:60-65 | moving cards between deck and hand loses and adds none (multiset and count preserved) and the old hand is a prefix of the new one |
| `Deck.DealInitialCards` | blackjack_game.py:68-71 | from a deck of at least 4 the player gets the last two cards (last first), the dealer the two before them, and the deck loses exactly those four; no card is lost or added |
| `Deck.CreateDeck` | blackjack_game.py:38-48 | the nested suit/rank loops followed by the shuffle produce a full deck: 52 cards, no duplicates, every suit x rank card present |
| `Deck.OrderedDeckIsFull` | blackjack_game.py:39-46 | the deck built by the nested loops, before the shuffle, holds every card exactly once |
| `Deck.ShuffledIsFull` | blackjack_game.py:47 | rearranging a full deck by any permutation of its positions leaves a full deck |
| `Deck.FullDecksArePermutations` | blackjack_game.py:38-48 | any two full decks have the same multiset, so the shuffle only permutes the cards |
| `Deck.PermutationCovers` | blackjack_game.py:47 | 52 distinct positions below 52 hit every position, so no card is lost by the shuffle |
| `Scoring.CalculateHandValue` | blackjack_game.py:77-98 | the summing loop and the Ace-downgrading loop compute `HandValue`: 0 for an empty hand, otherwise the all-Aces-at-11 total minus 10 per minimal downgrade |
| `Scoring.SofteningIsMinimal` | blackjack_game.py:94-96 | the value is soft total minus 10*j, where j is at most the Ace count, the value is at most 21 or every Ace is downgraded, and no smaller j reaches 21 or below |
| `Scoring.HandValueBounds` | blackjack_game.py:77-98 | the value lies between the all-Aces-at-1 total and the all-Aces-at-11 total; it is at most 21 whenever the all-Aces-at-1 total is; it is at least the number of cards |
| `Scoring.HandValueIgnoresOrder` | blackjack_game.py:82-96 | two hands holding the same cards in any order have the same value |
| `Scoring.TwoCardsNeverBust` | blackjack_game.py:94-98 | a two-card hand is never worth more than 21 (two Aces score 12) |
| `Scoring.CheckForBlackjack` | blackjack_game.py:171-173 | a hand is a blackjack exactly when it has two cards, one an Ace and the other worth 10 (the docstring's "Ace + 10-value card") |
| `Scoring.BlackjackIsAceAndTen` | blackjack_game.py:171-173 | two cards are worth 21 exactly when one is an Ace and the other is worth 10, which links the code's "worth 21 with two cards" to that reading |
| `Scoring.ScoringExamples` | blackjack_game.py:77-98 | empty = 0, K+Q = 20, A+K = 21 and a blackjack, A+A+9 = 21, A+A+A+9 = 12 |
| `Turns.Lower` | blackjack_game.py:114 | the lower-cased line has the same length, each of A-Z becomes its a-z letter, every other character is unchanged, and no upper-case letter remains |
| `Turns.ChoiceSpelling` | blackjack_game.py:114-121 | a line means hit exactly when it is h or H, and stand exactly when it is s or S |
| `Turns.PlayerTurn` | blackjack_game.py:105-126 | the loop equals `PlayerPlay`; cards only come off the end of the deck onto the hand; bust is reported exactly when the final hand is over 21; a stand is at most 21 |
| `Turns.PlayerPlayTakes` | blackjack_game.py:116-118 | every hit appends the card(s) that drawing one card returns, so the whole turn moves cards from the deck's end onto the hand's end |
| `Turns.PlayerPlayBust` | blackjack_game.py:107-124 | the turn ends Busted exactly when the final total is over 21, and a stand is never over 21 |
| `Turns.InvalidChoicesIgnored` | blackjack_game.py:125-126 | removing every line that is neither h nor s from the script gives the same turn: an invalid line changes neither hand nor deck |
| `Turns.CardsAtMostHits` | blackjack_game.py:116-118 | the hand gains at most one card per 'h' line and never loses one |
| `Turns.DealerTurn` | blackjack_game.py:129-146 | the loop equals `DealerPlay`; it ends worth 17 or more, its bust flag is exactly "over 21", and it only moves cards from the deck's end onto the hand |
| `Turns.DealerPlayResult` | blackjack_game.py:129-146 | ends worth 17 or more; bust == over 21; the dealt hand is a prefix of the result; every card was drawn while the hand was worth 16 or less; a hand worth 16 or less draws at least once |
| `Turns.DealerStandsWithoutDrawing` | blackjack_game.py:141-146 | a hand worth 17 or more ends the turn at once, unchanged, with the bust flag set exactly when it is over 21 |
| `Turns.DealerStopsWithCards` | blackjack_game.py:135-138 | with at least 17 cards between hand and deck, the dealer's loop terminates |
| `Referee.DetermineWinner` | blackjack_game.py:149-168 | the outcome is `PlayerBust` exactly when the player busted, whatever the totals; it is `DealerBust` exactly when only the dealer busted; otherwise the player wins exactly on a higher total, the dealer exactly on a higher total, else a tie; never a blackjack outcome |
| `Referee.DealerStopsInRound` | blackjack_game.py:236-241 | after a player turn that did not bust, dealt from 52 cards, the dealer's turn terminates |
| `Referee.PlayRound` | blackjack_game.py:211-245 | creating the deck, dealing, the pre-checks, the turns and the winner equal `Round` on the shuffled deck |
| `Referee.BlackjackDecidesFirst` | blackjack_game.py:219-234 | the round ends in push / player / dealer blackjack exactly when both / only the player / only the dealer hold a dealt blackjack, and then no turn is taken |
| `Referee.PlayerBustSkipsDealer` | blackjack_game.py:236-245 | when the player busts the outcome is a player bust, the dealer keeps the dealt hand and its bust flag is false |
| `Referee.BustFlagsInRound` | blackjack_game.py:236-245 | the player's bust flag is exactly "over 21"; the dealer's flag implies over 21; a dealer that played ends on 17 or more with its flag exactly "over 21" |
| `Referee.WinnerNeverBusts` | blackjack_game.py:220-245 | a winner is never over 21, and wins by blackjack, by the other side busting, or by a strictly higher total |
| `Referee.PlayTurnsConservesCards` | blackjack_game.py:236-243 | the turns keep hands plus deck the same multiset, and each hand starts with its dealt cards |
| `Referee.RoundConservesCards` | blackjack_game.py:211-245 | after a round, both hands and the remaining deck are exactly the 52 cards, and each hand starts with the two cards it was dealt |

## Left out

- Screen clearing, pauses and colorama initialisation and colours (blackjack_game.py:8, 14-20): terminal side effects with no game logic.
- `format_hand` and every `print` (blackjack_game.py:22-31 and throughout): display text only.
- `ask_play_again`, the welcome banner and the session loop around a round (blackjack_game.py:176-210, 247-258): interactive plumbing. Only the body of one round is modelled.
- The randomness of `random.shuffle` (blackjack_game.py:47): the shuffle is any permutation of the 52 positions, supplied as input.
- `input()` in the player's turn (blackjack_game.py:114): replaced by a finite script of typed lines. A script that runs out ends the turn as `OutOfChoices`, where the program would block.
- `Turns.Lower`: `.lower()` is modelled on the ASCII letters A-Z only. Full Unicode case mapping is not modelled.
- The in-place mutation of the caller's lists (`deck.pop()`, `hand.extend`): modelled as values returned to the caller. Every caller rebinds the returned lists, so no aliasing is observable.
- Ranks are a datatype holding only the thirteen real ranks. So the branch of `calculate_hand_value` that adds nothing for an unrecognised rank string (blackjack_game.py:84-92) cannot arise.
- The default `num_cards=1` of `draw_card`: every call passes the count explicitly.
- `Turns.DealerTurn`: requires `DealerStops`. On a deck that runs out while the dealer is worth 16 or less, the source loops forever; that behaviour is excluded, not modelled.
