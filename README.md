# Texas Hold'em engine: a verified Dafny model

This project models the core of a Go Texas Hold'em engine, module by module:

- **Cards.** Ranks and suits are plain integer enumerations with names (`Ranks`, `Suits`). A card is a (rank, suit) value (`Cards`).
- **Hand evaluator (`Hands`).** It classifies five distinct cards into one of ten hand values. It uses three things:
  - the product of the per-rank card counts;
  - a flush flag;
  - a straight flag, which includes the ace-low wheel.
- **Deck (`Decks`).** Cards are dealt from its front.
- **Dealer (`Dealers`).**
  - It shuffles with Fisher-Yates. The random draws are a parameter.
  - It deals the hole cards, burns a card, and lays the flop, the turn and the river.
- **Pot ledger (`Pots`).**
  - It records each player's contributions.
  - It settles them into a main pot and side pots by peeling off layers of a list sorted by amount.
- **Player (`Players`).**
  - A class with a stack of chips, two hole cards, a status and the state of its two channels (none, open or closed).
  - It has the chip rules of each action and the Idle / Ready / Waiting lifecycle.
- **Round statuses (`RoundStatus`).** Their order, and the next and previous stage.
- **Seat arithmetic (`Seats`).** A round's seats are a sequence with empty seats in it. This module has:
  - the player counts;
  - the lookup by id;
  - the blind, first-to-act and under-the-gun positions, found by walking the seats around from the button.
- **Round (`Rounds`).** A class holding the seats, the dealer, the button and the community cards.
  - It adds and removes players before the round starts.
  - It posts the blinds and deals the hole cards.
  - It lays the board up to the showdown.
  - It also has the test that decides whether a betting round goes on.
- **Table (`Tables`).** The waiting list: joining and leaving.

### How the model is built

Functions model pure code. Classes with `modifies` clauses model objects that the Go code updates in place: the deck, the dealer, the player, the pot ledger, the round and the table. Methods with loop invariants model loops.

Each method is proved against a specification function, and the important properties are proved about those functions:

- The evaluator `Hands.Value` is proved equal to `Hands.Evaluate`. `Evaluate` in turn agrees with the poker definition of the categories (`Hands.EvaluateIsPokerCategory`).
- The settlement `Pots.Ledger.Settle` is proved equal to the layering function `Pots.Layers`. Its pots are the ledger's canonical pots whatever order the map is visited in. They hold every chip that was contributed.
- A fresh deck holds the 52 distinct cards.
- A shuffle only permutes the deck.
- No card is dealt twice.
- With three or more players, the blind seats are the first and second occupied seats after the button. Heads-up, the button posts the small blind and the next occupied seat posts the big blind.
- Each Ready player gets the pair of hole cards that belongs to them.

Where a Go function panics (an index out of range, a nil pointer, a send on a closed channel) or never finishes (draining closed channels), the model puts the condition that avoids it in a `requires` clause. Where it returns an error, the model returns an `Option` of an error datatype.

## Model

| member | source | states |
|---|---|---|
| Ranks.Name | pkg/rank/rank.go:22-53 | A rank's name is "Invalid" exactly when the rank is outside Two..Ace; a valid rank's name reads back to the rank |
| Ranks.NameInjective | pkg/rank/rank.go:22-53 | Two valid ranks with the same name are the same rank |
| Ranks.Trichotomy | pkg/rank/rank.go:55-65 | Exactly one of Greater, Less and Equal holds for any two ranks, and Greater is Less with the arguments swapped |
| Ranks.Extremes | pkg/rank/rank.go:5-20 | Two is the least valid rank, Ace the greatest, and Ace is four above Ten (the wheel's top card) |
| Suits.Name | pkg/suit/suit.go:13-26 | A suit's name is "Invalid" exactly when the suit is not one of the four |
| Suits.NameInjective | pkg/suit/suit.go:13-26 | Two valid suits with the same name are the same suit |
| Cards.New | pkg/card/card.go:15-28 | The rank and suit given to the constructor read back unchanged, and determine the card |
| Cards.EqualIffFieldsEqual | pkg/card/card.go:10-13 | Cards are equal exactly when rank and suit are |
| Cards.String | pkg/card/card.go:30-32 | A card prints as its rank name, " of ", then its suit name |
| Cards.StringInjective | pkg/card/card.go:30-32 | Two valid cards that print the same are the same card |
| Hands.String | pkg/hand/value.go:24-49 | Only the Unknown hand value prints as "Unknown" |
| Hands.EvaluateIsPokerCategory | pkg/hand/value.go:99-164 | For five distinct cards with valid suits, the product-of-counts rule gives exactly the poker category defined by rank multiplicities (four of a kind, full house, trips, two pairs, pair, flush, straight, straight flush, royal flush, high card), never Unknown and never an error |
| Hands.NoFiveOfAKind | pkg/hand/value.go:90-97 | Five distinct cards with valid suits never share one rank. So the rank-count map always has at least two keys, and the early Unknown exit for fewer than two keys is never taken |
| Hands.SuitPigeonhole | pkg/hand/value.go:119-131 | Among five cards with valid suits two share a suit |
| Hands.KindInShape | pkg/hand/value.go:90-117 | Some rank occurs exactly n times exactly when n is among the per-rank counts |
| Hands.TwoPairsInShape | pkg/hand/value.go:90-117 | Two ranks occur twice each exactly when the per-rank counts contain 2 twice |
| Hands.Partition | pkg/hand/value.go:99-117 | The per-rank counts of at most five cards form one of the seven partitions of their total, fixing their number, product and how many equal 2..5; so each product identifies its shape |
| Hands.SumRankCounts | pkg/hand/value.go:90-93 | The per-rank counts add up to the number of cards |
| Hands.ExistSameCards | pkg/hand/value.go:69-78 | Reports a repeated card exactly when one card occurs twice |
| Hands.RankCountMap | pkg/hand/value.go:90-93 | The map's keys are exactly the ranks present, each mapped to its card count |
| Hands.RankCountMapIsShape | pkg/hand/value.go:90-102 | The map has one key per distinct rank and its values multiply out to the product of the per-rank counts |
| Hands.ProductOfValues | pkg/hand/value.go:99-102 | The product of the map's values, in whatever order the keys are visited |
| Hands.FlushFlag | pkg/hand/value.go:119-131 | The flush bit is set exactly when all cards share a suit |
| Hands.RankBounds | pkg/hand/value.go:133-141 | The minimum and maximum rank of the cards |
| Hands.Value | pkg/hand/value.go:80-167 | Computes exactly the specified evaluation: invalid size unless five cards, a duplicate error for a repeated card, unknown for an impossible shape, otherwise the category |
| Decks.Range | pkg/deck/deck.go:15-16 | The values an inclusive counting loop visits, in order |
| Decks.RankRow | pkg/deck/deck.go:16-18 | The inner loop yields the four suits of one rank in order |
| Decks.AsWrittenDeckIsEmpty | pkg/deck/deck.go:15 | The rank loop as written runs from Ace up to King and never runs, so a new deck is empty; the intended deck has 52 cards |
| Decks.DeckOfAt | pkg/deck/deck.go:13-21 | Card i of the nested loops has the (i/4)-th rank and the (i%4)-th suit |
| Decks.FullDeckIsComplete | pkg/deck/deck.go:13-21 | The intended fresh deck has 52 valid, pairwise distinct cards, contains every valid card, starts with the Ace of Clubs and ends with the King of Diamonds |
| Decks.Deck.constructor | pkg/deck/deck.go:13-21 | A new deck holds the full ordered deck |
| Decks.Deck.Len | pkg/deck/deck.go:23-25 | The number of cards left |
| Decks.Deck.Pop | pkg/deck/deck.go:27-39 | An empty deck yields nothing and stays empty; otherwise the top card is returned and removed, so the old deck is that card followed by the new one |
| Decks.Deck.Swap | pkg/deck/deck.go:41-46 | Out-of-range indices change nothing; in range the two cards trade places and no other moves; the cards are always the same multiset |
| Dealers.SwapAt | pkg/deck/deck.go:41-46 | Exchanging two positions moves those two cards and no other |
| Dealers.ShuffleFromPermutes | pkg/dealer/dealer.go:51-53 | Each Fisher-Yates step keeps the deck's length and cards |
| Dealers.ShuffledPermutes | pkg/dealer/dealer.go:51-53 | A shuffle is a permutation of the deck |
| Dealers.ShuffleFromIdentity | pkg/dealer/dealer.go:51-53 | Draws that pick each position itself leave the deck unchanged |
| Dealers.ShuffleMovesTopToBottom | pkg/dealer/dealer.go:51-53 | A draw of 0 at the last position swaps the top and bottom cards: the shuffle really reorders |
| Dealers.AsWrittenHoleCardsPanics | pkg/dealer/dealer.go:55-67 | The as-written dealing loop indexes out of range (panics) exactly when the player count is neither 0 nor 2 |
| Dealers.AsWrittenHoleCardsConsecutive | pkg/dealer/dealer.go:63 | With two players the as-written loop hands the first player the first two cards, which differs from one card per player per round |
| Dealers.RoundRobinHoleCards | pkg/dealer/dealer.go:55-67 | One pair per player |
| Dealers.RoundRobinDistinct | pkg/dealer/dealer.go:55-67 | From distinct deck cards, no card goes to two players and no player gets the same card twice |
| Dealers.Dealer.constructor | pkg/dealer/dealer.go:15-24 | Uses the given deck, or a fresh full deck when none is given |
| Dealers.Dealer.Reset | pkg/dealer/dealer.go:43-45 | The dealer holds a fresh full deck |
| Dealers.Dealer.Shuffle | pkg/dealer/dealer.go:51-53 | The deck becomes the Fisher-Yates shuffle of the old deck under the draws: the same cards, reordered |
| Dealers.Dealer.Deal | pkg/dealer/dealer.go:105-107 | Deals the top card, or nothing from an empty deck |
| Dealers.Dealer.DealOne | pkg/dealer/dealer.go:47-49 | Deals the top card of a non-empty deck and removes it |
| Dealers.Dealer.DealHoleCards | pkg/dealer/dealer.go:55-67 | Player j gets the j-th and (n+j)-th cards off the top, and exactly those 2n cards leave the deck |
| Dealers.Dealer.DealFlopCards | pkg/dealer/dealer.go:69-79 | The flop is the top three cards, which leave the deck |
| Dealers.Dealer.DealTurnCard | pkg/dealer/dealer.go:81-87 | The turn is the top card, which leaves the deck |
| Dealers.Dealer.DealRiverCard | pkg/dealer/dealer.go:89-95 | The river is the top card, which leaves the deck |
| Dealers.Dealer.BurnCard | pkg/dealer/dealer.go:97-103 | The burnt card is the top card, which leaves the deck |
| Pots.NextLevel | pkg/pot/pots.go:59-67 | The lowest contribution above a level: held by a contributor, no greater than any contribution above the level, and above the level |
| Pots.SortByAmount | pkg/pot/pots.go:59-61 | The sorted list holds the same entries |
| Pots.SortSorted | pkg/pot/pots.go:59-61 | The sorted list is in ascending order of amount |
| Pots.InsertKeeps | pkg/pot/pots.go:59-61 | Inserting adds the entry's id and amount and keeps ids distinct and entries recorded |
| Pots.AddChipsSum | pkg/pot/pots.go:29-31 | Adding chips to one contributor adds them to the total |
| Pots.LayersTotal | pkg/pot/pots.go:62-75 | The layers peeled from distinct contributions hold every chip above the starting level |
| Pots.LevelOfSorted | pkg/pot/pots.go:62-73 | In a sorted list covering the contributions above a level, the first entry is the next level and the list's ids are exactly those who put in at least that much |
| Pots.LayersCanonical | pkg/pot/pots.go:59-75 | Layers peeled from any sorted listing of the ledger are the ledger's canonical pots, so ties between equal amounts do not matter |
| Pots.CanonicalPotsAbove | pkg/pot/pots.go:62-75 | Every pot has contributors, all of whom put in more than the base, and holds chips |
| Pots.CanonicalNested | pkg/pot/pots.go:62-75 | The main pot is shared by everyone above the base, each side pot's contributors are a strict subset of the previous pot's, and nobody at or below the base shares any pot |
| Pots.SettleOrderIndependent | pkg/pot/pots.go:50-77 | Two sorted listings of the same non-negative ledger settle into identical pots |
| Pots.SettleExample | pkg/pot/pots.go:50-77 | Contributions 100, 200, 300 settle into 300 chips for all three, 200 for the top two, 100 for the top one |
| Pots.ListContributions | pkg/pot/pots.go:51-54 | The list has every contributor once, with their amount, and adds up to the ledger's total |
| Pots.TakeLayer | pkg/pot/pots.go:68-73 | Takes the layer amount from entry i and every later entry, leaves earlier entries alone, and collects exactly the ids from i on |
| Pots.PeelAdvance | pkg/pot/pots.go:62-75 | One turn of the settlement loop keeps the invariant that the pots so far plus the layers still to peel are the whole settlement |
| Pots.PeelLayers | pkg/pot/pots.go:62-76 | The settlement loop over a sorted list yields exactly its layers |
| Pots.Ledger.constructor | pkg/pot/pots.go:19-23 | A new ledger has no contributions |
| Pots.Ledger.ChipsBy | pkg/pot/pots.go:33-35 | A contributor's recorded chips, and 0 for someone who never contributed |
| Pots.Ledger.AddChips | pkg/pot/pots.go:29-31 | Adds the amount to that contributor only, records the contributor, and raises the total by the amount |
| Pots.Ledger.Sum | pkg/pot/pots.go:37-43 | The total of all contributions, whatever order the map is visited in |
| Pots.Ledger.Settle | pkg/pot/pots.go:50-77 | The pots are the layers of a sorted listing of the contributions; they hold exactly the total contributed; for non-negative contributions they are the ledger's canonical pots; an empty ledger gives no pots |
| Seats.CountOf | pkg/round/utils.go:90-98 | A count never exceeds the number of seats |
| Seats.FilterFacts | pkg/round/utils.go:100-108 | Filtering keeps exactly the seats that pass, as many as counted |
| Seats.FilterConcat | pkg/round/utils.go:100-108 | Filtering keeps seat order |
| Seats.Step | pkg/round/utils.go:23-45 | The seat k steps after the button is a valid seat |
| Seats.Dist | pkg/round/utils.go:23-45 | The forward distance between two seats is zero exactly when they are the same seat |
| Seats.StepIsMod | pkg/round/utils.go:23-45 | The source's `(b + k) % n` is the seat k steps after b |
| Seats.DistStep | pkg/round/utils.go:23-45 | Walking k steps from b leaves k steps between them |
| Seats.NextTakenUnique | pkg/round/utils.go:23-45 | There is only one first occupied seat after a given seat |
| Seats.Rotated | pkg/round/utils.go:32-45 | The seats in the order a walk from the button visits them |
| Seats.TakenAmongRotated | pkg/round/utils.go:32-45 | Occupied seats met in the first k steps are those among the first k rotated seats |
| Seats.FullTurn | pkg/round/utils.go:32-45 | A full turn from the button meets every occupied seat |
| Seats.RealPlayerCount | pkg/round/utils.go:90-98 | The number of occupied seats |
| Seats.RealPlayers | pkg/round/utils.go:100-108 | The occupied seats, in seat order |
| Seats.AsWrittenEffectivePlayerCount | pkg/round/utils.go:110-118 | The as-written count: occupied seats whose player is not all in |
| Seats.AsWrittenCountsFolded | pkg/round/utils.go:113 | The as-written test reduces to "not all in", so a folded player is counted and the count disagrees with the effective players listed |
| Seats.EffectivePlayerCount | pkg/round/utils.go:110-118 | The number of seated players who have not folded, equal to the length of the effective-player list |
| Seats.EffectivePlayers | pkg/round/utils.go:120-128 | The seated players who have not folded, in seat order |
| Seats.FindPlayerByID | pkg/round/utils.go:5-12 | The first occupied seat whose player has the id, or none exactly when no seat has it |
| Seats.StepSucc | pkg/round/utils.go:38-44 | The source's `(x + 1) % n` from the seat k steps on is the seat k + 1 steps on |
| Seats.SecondTaken | pkg/round/utils.go:32-37 | With at least two occupied seats the first occupied seat after an occupied button is within one turn |
| Seats.ThirdTaken | pkg/round/utils.go:38-44 | With at least three occupied seats another one follows before the walk returns to the button |
| Seats.PositionError | pkg/round/utils.go:17-22 | No error exactly when the occupied seats number 2 to 10 and the button is an occupied seat |
| Seats.BlindSeatsUnique | pkg/round/utils.go:14-46 | The blind seats are determined by the seats and the button |
| Seats.PositionBlind | pkg/round/utils.go:14-46 | Wrong player count is reported first, then a bad button; heads-up the button has the small blind and the next occupied seat the big; otherwise the small blind is the first occupied seat after the button and the big blind the next one, never the button |
| Seats.HeadsUpBig | pkg/round/utils.go:23-30 | The heads-up walk stops at the first occupied seat after the button |
| Seats.BlindsFromButton | pkg/round/utils.go:32-45 | The three-or-more walk stops at the first two occupied seats after the button |
| Seats.PositionFirstToAct | pkg/round/utils.go:72-88 | After the same checks, the offset from the button of the first occupied seat after it |
| Seats.PositionUTG | pkg/round/utils.go:49-70 | After the same checks, the offset of the third occupied seat after the button; heads-up, the button's own index |
| RoundStatus.String | pkg/round/status.go:17-36 | Start..End have names; every other value, Ready included, prints as "Invalid" |
| RoundStatus.StringInjective | pkg/round/status.go:17-36 | The names of Start..End are pairwise different |
| RoundStatus.OrderFacts | pkg/round/status.go:38-44 | After and Before are strict mirror images, and any two statuses are equal or ordered one way |
| RoundStatus.OrderChain | pkg/round/status.go:5-15 | The stages are declared in playing order |
| RoundStatus.Next | pkg/round/status.go:46-63 | Start..Showdown step up by one stage; everything else has no next stage |
| RoundStatus.Previous | pkg/round/status.go:65-80 | PreFlop..River step back one stage, End goes back to River, everything else has none |
| RoundStatus.PreviousUndoesNext | pkg/round/status.go:46-80 | Previous undoes Next from Start to Turn, but not from River (Showdown has no previous) or Showdown |
| RoundStatus.NextUndoesPrevious | pkg/round/status.go:46-80 | Next undoes Previous from Flop to River, but End comes back to Showdown |
| RoundStatus.NextWalk | pkg/round/status.go:46-63 | Six steps of Next lead from Start through every stage to End |
| Actions.String | pkg/player/action.go:17-38 | A defined action's name reads back to the action; only undefined values print "Invalid" |
| Actions.StringInjective | pkg/player/action.go:17-38 | Different defined actions have different names |
| Actions.ToStatus | pkg/player/action.go:40-51 | Fold and only Fold gives Folded, all in and only all in gives AllIn, every other defined action gives WaitingToAct, and exactly the undefined ones give Ready |
| Players.Debit | pkg/player/player.go:257-280 | Bet and Raise need require <= chips <= stack, Call needs require <= stack and pays require, AllIn needs a positive stack and pays all of it, Check and Fold pay nothing, other types are refused |
| Players.DebitConserves | pkg/player/player.go:257-280 | An accepted action takes from the stack exactly the chips it hands over and never drives a non-negative stack negative |
| Players.ReadyStep | pkg/player/player.go:171-179 | Getting ready succeeds exactly from Idle and leads to Ready; otherwise the status stays |
| Players.CancelStep | pkg/player/player.go:190-198 | Cancelling succeeds exactly from Ready and leads to Idle; otherwise the status stays |
| Players.ReadyCancelRoundTrip | pkg/player/player.go:171-198 | Cancelling undoes getting ready and vice versa, and getting ready twice fails |
| Players.After | pkg/player/player.go:171-198 | A status step (getting ready, reset, cancel, answering a wait) never leads to Waiting from any other status |
| Players.NeverWaiting | pkg/player/player.go:293-340 | No sequence of status steps makes a non-Waiting player Waiting, so a player who starts Idle is never waiting to act |
| Players.Player.constructor | pkg/player/player.go:50-72 | Empty id and name are replaced by generated ones, zero chips by the default stack, a non-positive timeout by the default; the player starts Idle with no cards and no channels |
| Players.Player.Ready | pkg/player/player.go:171-179 | Status and error follow ReadyStep; on success the channels are new and open; chips and cards stay |
| Players.Player.Reset | pkg/player/player.go:182-188 | The player is Ready with new open channels and no hole cards; chips stay |
| Players.Player.CancelReady | pkg/player/player.go:190-198 | Status and error follow CancelStep; on success the channels are dropped; chips and cards stay |
| Players.Player.Gone | pkg/player/player.go:201-211 | The first call releases the player and closes their channels, if any; a later call changes nothing, even after a reset made new channels |
| Players.Player.SetHoleCards | pkg/player/player.go:225-231 | The cards are stored whatever the status; the error is reported exactly when the player is not Ready |
| Players.Player.TakeAction | pkg/player/player.go:245-288 | A refused action changes nothing; an accepted one leaves the stack and handed-over action as Debit says. It needs channels that are not closed (the send panics there), and it ends with a timeout error unless it is delivered on open channels (a send without channels never goes through) |
| Players.Player.Check | pkg/player/player.go:139-141 | Checking moves no chips; it needs channels that are not closed, and succeeds exactly when delivered on open ones |
| Players.Player.Fold | pkg/player/player.go:143-145 | Folding moves no chips; it needs channels that are not closed, and succeeds exactly when delivered on open ones |
| Players.Player.Bet | pkg/player/player.go:147-149 | A bet outside require..stack is refused; otherwise the stack drops by the bet, on channels that are not closed |
| Players.Player.Raise | pkg/player/player.go:151-153 | A raise outside require..stack is refused; otherwise the stack drops by the raise, on channels that are not closed |
| Players.Player.Call | pkg/player/player.go:155-157 | A call above the stack is refused; otherwise the stack drops by require, on channels that are not closed |
| Players.Player.AllIn | pkg/player/player.go:159-161 | An empty stack is refused; otherwise the stack goes to 0, on channels that are not closed |
| Players.Player.ShowHoleCards | pkg/player/player.go:163-165 | Always refused as an invalid action type, changing nothing |
| Players.Player.HideHoleCards | pkg/player/player.go:167-169 | Always refused as an invalid action type, changing nothing |
| Players.Player.WaitForAction | pkg/player/player.go:293-342 | A player not waiting gets an error and keeps their status; a waiting player needs open channels (closed ones make the drain loop spin, missing ones block the offer); otherwise the received action, or the first available one on timeout, is returned and sets the status by its type |
| Rounds.View | pkg/round/round.go:62-95 | One seat view per seat, empty exactly for a nil seat |
| Rounds.ReadyIndexInRange | pkg/round/round.go:330-341 | The k-th Ready player from the button is numbered below the number of occupied seats, so a dealt pair exists for them |
| Rounds.AsWrittenHoleIndexOverflows | pkg/round/round.go:337 | With Ready players in seats 0 and 2 around an empty seat, the seat-offset index the source uses passes the two dealt pairs |
| Rounds.ScanFacts | pkg/round/round.go:129-136 | The lookup finds an id exactly when a seat before every empty seat holds it, and runs off the end exactly when no seat is empty or holds it |
| Rounds.ExistsPlayer | pkg/round/round.go:129-136 | True exactly when a seated player has the id |
| Rounds.Posted | pkg/round/round.go:209-214 | A blind outside require..stack is refused with the stack unchanged; otherwise the stack drops by the blind |
| Rounds.UndeliveredBlindFails | pkg/player/player.go:282-287 | A blind bet that is not received always fails: for want of chips, or by timing out after the stack has been debited |
| Rounds.Leader | pkg/round/round.go:233-247 | Returns the leader (`IsLeader`). The highest bet is at least every recorded bet of a waiting player. When it is positive, the seat is the first one holding it; otherwise the seat is 0 |
| Rounds.LeaderUnique | pkg/round/round.go:233-247 | The highest bet and its seat are determined by the seats and bets: two leaders are the same |
| Rounds.Keep | pkg/round/round.go:232-266 | Its ghost highest bet and seat are the leader (`IsLeader`). Betting goes on exactly when, within the other seats after the leader's, some waiting player has not acted or is short of the highest bet; no seats, no betting |
| Rounds.NoBetsKeepsGoing | pkg/round/round.go:232-266 | Before anyone bets, the leader is seat 0 with highest bet 0, and with two waiting players some later seat keeps the betting going |
| Rounds.MatchedBetsStop | pkg/round/round.go:249-265 | Once every waiting player has bet the same non-negative amount, no seat after the leader keeps the betting going |
| Rounds.Round.constructor | pkg/round/round.go:62-95 | Negative button or minimum bet take the defaults; the round starts Ready with the given seats and dealer, or a fresh dealer with a full deck |
| Rounds.Round.AddPlayer | pkg/round/round.go:138-153 | Refused once started or for a seated id; otherwise the player is appended |
| Rounds.Round.RemovePlayer | pkg/round/round.go:155-166 | Refused once started or for an unseated id; the seats never change |
| Rounds.Round.BetBlind | pkg/round/round.go:203-223 | A bad position is reported, the blind seats are -1 and no chips change. Otherwise the blind seats are the ones the lookup gives (`BlindSeats`). The small blind posts half the minimum bet and then the big blind the minimum bet, stopping at the first refusal; a bet is handed over only when delivered on open channels (`BlindsPosted`). A blind bet that would be sent must not go to closed channels (`BlindsSendable`). Nobody else's chips change, and no status, hole cards, release flag or channels change (`Kept`) |
| Rounds.Round.Start | pkg/round/round.go:299-437 | An empty button seat or a wrong count of active players gives its error. Then the status, board, log, deck and every player's chips, status and cards are unchanged, and there are no blind seats. Otherwise the round goes on as `Open`. The blind seats are the lookup's (`BlindSeats`), and their debits follow `BlindsPosted`. A small blind never delivered always fails in Start. The blind bets that would be sent must not go to closed channels (`BlindsSendable`). No status, release flag or channels change, only the blind seats' chips change, and hole cards change only for Ready players and only on success (`Kept`) |
| Rounds.Round.Open | pkg/round/round.go:309-341 | After the checks: enters Start and logs it, shuffles with the draws, and posts the blinds. A blind error leaves the round in Start with the shuffled deck and untouched board. On success the hand is dealt (`Dealt`). The blinds and the players' frame are as in Start |
| Rounds.Round.Begin | pkg/round/round.go:309-320 | Enters Start and logs it with the current board size, and leaves the deck as the Fisher-Yates shuffle of the old deck under the draws; seats and board stay |
| Rounds.Round.PostAndPlay | pkg/round/round.go:325-341 | Posts the blinds. A refusal changes nothing else in the round. Otherwise it plays the hand from the deck as it is (`Dealt`) |
| Rounds.Round.PlayHand | pkg/round/round.go:329-434 | From PreFlop to Showdown: the hole cards go to the Ready players in turn, the flop, turn and river follow burns, and the stages are logged in order. Only Ready players' hole cards change (`Kept`) |
| Rounds.Round.DealBoard | pkg/round/round.go:371-434 | Three burns and five board cards come off the deck in order, ending at Showdown |
| Rounds.Round.DealFlop | pkg/round/round.go:371-384 | Burns one card and lays the next three |
| Rounds.Round.DealOneMore | pkg/round/round.go:386-431 | Burns one card and lays the next |
| Rounds.Round.DealToReady | pkg/round/round.go:331-341 | Every Ready player, counted from the seat after the button, holds the pair numbered by their place among Ready players; no status, stack or release changes |
| Rounds.Round.GiveOut | pkg/round/round.go:332-337 | Gives the next Ready player the next pair, keeping the earlier ones |
| Rounds.Round.End | pkg/round/round.go:439-442 | The round is in End |
| Rounds.OthersDiffer | pkg/round/round.go:331-341 | Distinct seated players: giving cards to one seat does not touch the others |
| Tables.IdsMembers | pkg/table/table.go:109-117 | An id is in the id set exactly when a waiting player carries it |
| Tables.WithoutMembers | pkg/table/table.go:138-140 | Removal keeps exactly the players with another id |
| Tables.WithoutConcat | pkg/table/table.go:138-140 | Removal keeps the order of the others |
| Tables.WithoutIds | pkg/table/table.go:138-141 | The ids left are the old ones minus the removed id |
| Tables.IdsAppend | pkg/table/table.go:116-117 | Appending adds the player's id |
| Tables.JoinLeaveRestores | pkg/table/table.go:99-143 | Joining with a new id and then leaving restores the waiting list and its ids |
| Tables.Table.constructor | pkg/table/table.go:41-62 | Zero minimum bet and negative capacity take defaults; round limits are capped at 22 and 2; nobody waits |
| Tables.Table.Join | pkg/table/table.go:99-119 | A seated id or a full list is refused without change; otherwise the player is appended and the id recorded, keeping list and id set in step |
| Tables.Table.Leave | pkg/table/table.go:121-143 | An absent id is refused; otherwise every entry with the id is removed in order and the id forgotten, keeping list and id set in step |

## Left out

- Events, broadcasting, recording and watching (`pkg/watch`, the event files, `prepare` at pkg/round/round.go:168-185, the player's watcher). They are channels and goroutines. The model drops them and their errors.
- Time and randomness become parameters:
  - the action timeout's outcome is the `delivered` flag, or the `received` option for WaitForAction;
  - the shuffle's random indices are `draws`;
  - a generated player id and name are constructor arguments.
- Players.Player.WaitForAction: draining the channels and offering the actions is not modelled. Only the outcome is, and the channel state it needs.
- The per-street betting loops of Start (pkg/round/round.go:343-369, 376-383, 392-404, 412-430) are left out, including the pre-flop default error at 363-364. Rounds.Round.Start models the dealing that surrounds them. The loops differ by street:
  - the pre-flop loop asks each Ready player through WaitForAction (347-350);
  - the flop loop only broadcasts the flop to the players who have not folded;
  - the turn loop asks every player who has not folded (391-400);
  - the river loop asks every player who has neither folded nor gone all in (412-426).
- The success path of Rounds.Round.Start, Rounds.Round.Open and Rounds.Round.PostAndPlay, which ends in Showdown (`Dealt`), is the intended behaviour, not what the source does. WaitForAction refuses every player who is not Waiting (pkg/player/player.go:297-298), and no player method ever sets Waiting (Players.NeverWaiting). So as written the first player asked is refused, and Start stops at the error at round.go:363-364 or dereferences the missing action (see Findings). The calls at round.go:350, 396 and 422 also take only one of WaitForAction's two results, which does not type-check. For the same reason, the source's `keep` (Rounds.Keep) skips every seat and always answers that betting stops.

- The outer loop of the betting round (pkg/round/round.go:281-294) is left out. It changes nothing that `keep` reads, so it never ends once `keep` holds. Rounds.Keep models the continuation test.
- The table's Start (pkg/table/table.go:145-190), the round branches of Join and Leave (100-105, 122-130) and WithPlayers are left out. The first two need a running round. The WithPlayers option (pkg/table/table.go:90-97) runs before line 54 makes a new waiting list. Its players are therefore dropped, while their ids stay in the id map. Tables.Table models the waiting list.
- Player.BestFiveCard (pkg/player/player.go:133-137) has no body to model.
- The Round.effectivePlayers method (pkg/round/round.go:444-452) is left out. The seat functions cover it.
- The dealer's WithShuffle option (pkg/dealer/dealer.go:28-35) is left out. It shuffles the deck once when the dealer is built, and does nothing for a dealer without a deck. That shuffle is Dealers.Dealer.Shuffle, which the model has, with the random draws as a parameter.
- The player's WithStatus option (pkg/player/player.go:94-99), marked as test-only, is left out. It sets any status at construction, and it is the only way the source makes a player Waiting. Players.Player.constructor always starts Idle.
- takeAction reads `require` from commented-out code. The model takes it as a parameter.
- Players.Player.TakeAction does not model the context. A cancelled context counts as not delivered.
- Seats.FindPlayerByID and Rounds.Scan compare plain string ids. The source converts the id with `String()` in places; no conversion is modelled.
- Rounds.Round.BetBlind and Rounds.Round.Start require that no player object sits in two seats (`DistinctPlayers`). With one player in two seats, one debit would hit both seats. The model does not follow that aliasing.
- Rounds.Round.Start requires the deck to hold at least 2n + 8 cards when it deals. The source would panic on a short deck.
- Rounds.Round.Start and Rounds.Round.BetBlind take the blind bets' `smallDelivered` and `bigDelivered` flags as parameters. They model a receiver of the blind actions that the source lacks during Start (see Findings). As written, no blind is ever delivered.
- Rounds.Round.Start counts the players who have not folded with the corrected effective count (see Findings).
- Rounds.Round.Start deals with the corrected round-robin deal and the corrected hole-card index (see Findings).
- Rounds.Round.DealBoard lays the river with the turn-card deal, as the source does. Both take one card.
- Decks.Deck.constructor, Dealers.Dealer.constructor (without a given deck) and Dealers.Dealer.Reset build the intended 52-card deck, not the empty as-written one (see Findings).
- Rounds.Round.AddPlayer and Rounds.Round.RemovePlayer require that the id lookup does not meet an empty seat before a match (`Scan != HitsNil`). The source dereferences the nil seat there and panics.
- Rounds.Round.RemovePlayer does not remove anything, as written. The seats are never changed.
- Pots.Ledger.Settle: each pot's contributors are a set. At pkg/pot/pots.go:74 the source passes the contributors map itself to newPot, which takes a slice of ids (pkg/pot/pot.go:15-20), so that line does not type-check as written. The model keeps the map's keys as a set, whose order is not meaningful.
- Pots.Ledger.Settle: Go's sort is unstable. The model sorts by one fixed insertion order. Pots.SettleOrderIndependent shows that any sorted order gives the same pots.
- 64-bit integer overflow of chip amounts and products is not modelled. Integers are unbounded.
- Enumeration-only files (pkg/player/status.go, pkg/round/betting_round.go) give only names. Their values are the constants and datatypes used here.
- Disagreement with the tests: pkg/player/action_test.go:5-28 expects Check to give Checked, Bet to give Betted, and so on. It calls a method that does not exist. The model follows ToStatus in pkg/player/action.go:40-51, where every defined action other than Fold and AllIn gives WaitingToAct.

## Findings

| source | as written | input that shows it | evidently intended | confidence | as-written member | corrected member |
|---|---|---|---|---|---|---|
| pkg/deck/deck.go:15 | the rank loop runs from Ace (13) while the rank is at most King (12) | any new deck | 52 cards, Ace and Two to King, four suits each | not executed | Decks.AsWrittenDeckIsEmpty | Decks.FullDeckIsComplete |
| pkg/dealer/dealer.go:63 | the card of pass i for player j is written to cell [i][j] of a table of n pairs, which transposes the table | 3 players: cell [0][2] is out of range; 2 players: player 0 gets cards 0 and 1 | player j gets cards j and n+j | not executed | Dealers.AsWrittenHoleCardsPanics | Dealers.Dealer.DealHoleCards |
| pkg/round/utils.go:113 | a seat counts when its status is WaitingToAct, TakingAction, or anything but AllIn | one Waiting and one Folded player: count 2, while effectivePlayers lists 1 | count the seated players who have not folded | not executed | Seats.AsWrittenCountsFolded | Seats.EffectivePlayerCount |
| pkg/round/round.go:337 | a Ready player's hole cards are `holeCards[i]`, with i the seat's offset from the button | Ready players at seats 0 and 2, empty seat 1, button 0: seat 0's offset is 2, past the 2 pairs dealt | the k-th Ready player gets pair k | not executed | Rounds.AsWrittenHoleIndexOverflows | Rounds.Round.DealToReady |
| pkg/round/round.go:325 | the blinds are bet with Player.Bet, which sends the action on an unbuffered channel (pkg/player/player.go:283). The only receiver is WaitForAction (pkg/player/player.go:313, 333), and nothing calls it while Start runs | any start that passes the button and player-count checks: the small blind's send waits until the context ends, and then Start returns the blind error | the blinds are posted and the hand is dealt | not executed | Rounds.UndeliveredBlindFails | Rounds.Round.Start |
| pkg/round/round.go:347 | the betting loops ask players through WaitForAction, which refuses anyone who is not Waiting (pkg/player/player.go:297-298), and only the test-only WithStatus option ever sets Waiting | any start that gets past the blinds: the first Ready player asked before the flop is refused, and the round errs at round.go:363-364 or dereferences the missing action | the players asked are waiting to act, and the hand is played to the showdown | not executed | Players.NeverWaiting | Rounds.Round.Start |
