# Blackjack rule engine

This project models, in Dafny, the rule engine of a console blackjack game for one to
seven players against an automated dealer, from `BlackJack.py`. It covers:

- cards and their point values;
- a single 52-card shoe that rebuilds and reshuffles itself when it runs out;
- hand valuation with the simplified soft-ace rule, where 10 is added once however many aces the hand holds;
- the two roles at the table: a player, with a hand, a bankroll and a bet, and the dealer, with a hand and a face-down hole card;
- the round played by the `Game` object:
  - bets;
  - the first deal;
  - the players' turns in seat order;
  - revealing the hole card;
  - the dealer drawing to 17;
  - settlement;
  - clearing the hands;
  - the end-of-round sweep of bankrupt players.

The model is mixed, as the program is:

- **Pure functions and lemmas** cover card costs, hand totals, bet parsing, payoffs,
  the rules of a turn and the bankrupt sweep.
- **Classes whose methods update their fields** cover the deck (`Deck.cards`), the hands
  (`Hand.cards`), the players (`money`, `bet`) and the table (`players`, `remaining`).
  Loops carry invariants.

The deck keeps a ghost log of every card it hands out. The contracts use it to say
which card went to which hand.

Modules:

- `Cards`: the card, its cost, and the fresh 52-card deck.
- `Hands`: hand valuation and the `Hand` class.
- `Shoe`: the `Deck` class.
- `Roles`: bet parsing, payoffs, the `Player` and `Dealer` classes, and the dealer's drawing rule.
- `Rounds`: the pure rules of a player's turn, of dealing and of the bankrupt sweep.
- `Table`: the `Game` class and its round.
- `Options`: the optional value used for "no number".

The program's quirks are modelled as written:

- **The soft-ace bonus is added once.** `Hands.TwoAcesAreTwelve` and `Hands.ThreeAcesAndEight` show it.
- **A zero bet is accepted.** See `Roles.ZeroBetAccepted`.
- **The end-of-round sweep can miss a bankrupt player.** It removes players from the list it is iterating over, so the player right after a removed one is never looked at. A bankrupt player in that position stays seated. `Rounds.SweepSkipsNeighbour` shows it, and `Rounds.SweepExactWithoutNeighbours` shows the sweep is exact when no two bankrupt players sit side by side.

After a refused answer to the bet prompt (`BlackJack.py:100`), the message at
`BlackJack.py:102` asks for "a positive integer", yet the check at `BlackJack.py:101-110`
accepts "0". The model follows the check: `Roles.ZeroBetAccepted`.

## Model

| member | source | states |
|---|---|---|
| Cards.FullDeck | BlackJack.py:41-42 | A new deck holds 52 cards, all face up. |
| Cards.Cost | BlackJack.py:15-22 | Ranks 2 to 9 cost their face value. 10, J, Q and K cost 10, and only the ace costs 1, so every cost is between 1 and 10. |
| Cards.Flip | BlackJack.py:24-25 | Turning a card over keeps its rank and suit and negates its face-up flag. |
| Cards.FullDeckLayout | BlackJack.py:41-42 | A new deck has 52 face-up cards, suits in the outer loop and ranks in the inner one, so card (r, s) sits at position 13*s + r. |
| Cards.FullDeckDistinct | BlackJack.py:41-42 | No two positions of a new deck hold the same card. |
| Cards.FullDeckCovers | BlackJack.py:41-42 | Every face-up (rank, suit) pair appears in a new deck exactly once. |
| Cards.FullDeckFaceUp | BlackJack.py:5-8 | Every card of a new deck is face up, because a card is created face up by default. |
| Hands.Sum | BlackJack.py:83 | The sum of the costs is between the number of cards and ten times that number. It is at least twice the number of cards when there is no ace. |
| Hands.HasAce | BlackJack.py:71-73 | A hand holds an ace exactly when some card of it has the ace rank; see Hands.AcesCount for the count. |
| Hands.Score | BlackJack.py:83-86 | The total lies between the sum and the sum plus 10. It differs from the sum only when the hand holds an ace, and then it is 21 or less. |
| Hands.TotalCost | BlackJack.py:79-86 | There is no total (the '?' answer) exactly when some card is face down. Otherwise the total is the hand's score. |
| Hands.HasAceAppend | BlackJack.py:71-73 | A hand with one more card holds an ace exactly when the old hand did or the new card is an ace. |
| Hands.SumAppend | BlackJack.py:83 | One more card adds its cost to the sum. |
| Hands.TotalCostRule | BlackJack.py:79-86 | The total of a face-up hand is the sum plus 10 exactly when the sum is below 12 and the hand holds an ace, and the bare sum otherwise. The extra 10 never takes the total above 21. |
| Hands.Aces | BlackJack.py:71-73 | The number of aces is at most the number of cards. |
| Hands.AcesCount | BlackJack.py:71-73 | Each ace adds at least 1 to the sum, and a hand holds an ace exactly when it counts at least one. |
| Hands.ScoreIsBestTotal | BlackJack.py:83-86 | The total meets the usual ace rule: it counts some number of aces as 11, stays at 21 or less unless none is counted as 11, and no other choice of aces at 21 or less is worth more. |
| Hands.BestTotalUnique | BlackJack.py:83-86 | The usual ace rule fixes the total: two totals that both meet it are equal. |
| Hands.AceNineIsTwenty | BlackJack.py:79-86 | Ace and nine total 20. |
| Hands.TwoAcesAreTwelve | BlackJack.py:84-85 | Two aces total 12: the 10 is added only once. |
| Hands.ThreeAcesAndEight | BlackJack.py:84-85 | Three aces and an eight total 21, not 31. |
| Hands.SumPrefix | BlackJack.py:83 | Every card beyond a prefix adds at least one point to the sum. |
| Hands.IsWentOver | BlackJack.py:75-77 | A face-up hand went over exactly when the sum of its costs is above 21. |
| Hands.Less | BlackJack.py:65-69 | When one face-up hand is less than another, the hands differ and the first sum is less than the second plus 10. |
| Hands.Greater | BlackJack.py:65-69 | `a > b` holds exactly when `b < a`. |
| Hands.WentOverIffAbove21 | BlackJack.py:75-77 | A face-up hand went over exactly when its total is above 21, and then its sum is above 21 too. |
| Hands.LessGreaterDual | BlackJack.py:65-69 | `a < b` holds exactly when the first total is below the second, `a > b` holds exactly when `b < a`, both never hold at once, and neither holds exactly when the totals are equal. |
| Hands.Hand.constructor | BlackJack.py:55-57 | A new hand holds no cards. |
| Hands.Hand.GetCard | BlackJack.py:59-60 | The card is appended at the end of the hand. |
| Hands.Hand.Clear | BlackJack.py:62-63 | The hand holds no cards afterwards. |
| Hands.Hand.FlipLast | BlackJack.py:134-135 | Only the last card changes, and it is turned over. |
| Shoe.SubDeckFacts | BlackJack.py:48-51 | A shoe holding part of one deck holds at most 52 cards, all face up. |
| Shoe.SubDeckDistinct | BlackJack.py:48-51 | Such a shoe never holds the same card twice. |
| Shoe.SubDeckTail | BlackJack.py:51 | Taking the front card off keeps the shoe part of one deck. |
| Shoe.Deck.constructor | BlackJack.py:30-32 | A new shoe holds a permutation of the full deck and has handed out nothing. |
| Shoe.Deck.Deal | BlackJack.py:34-36 | Afterwards the shoe holds the 52 cards of a fresh deck, in some order. |
| Shoe.Deck.Create | BlackJack.py:41-42 | The shoe holds exactly the fresh deck, in creation order. |
| Shoe.Deck.Shuffle | BlackJack.py:44-46 | The shoe holds the same cards as before, as a multiset. |
| Shoe.Deck.GiveCard | BlackJack.py:48-51 | It never fails, and the hand becomes its old cards followed by exactly one new face-up card. From a non-empty shoe the card is the old front card and the shoe loses it. From an empty shoe a fresh deck is built first, so 51 cards remain and together with the drawn card they make the full deck. The card is appended to the shoe's record, and as long as the shoe did not run out the record's new part is what left the front of the shoe. |
| Shoe.HandedOutTrans | BlackJack.py:48-51 | Two stretches of handing out cards, one after the other, are one stretch: the record only grows, and while the first shoe lasts, it lost exactly the recorded cards from its front. |
| Roles.ParseBet | BlackJack.py:101-110 | An accepted answer is a non-empty string of digits whose value lies between 0 and the bankroll. |
| Roles.DigitsValue | BlackJack.py:105 | A string of k digits reads as a number below 10 to the power k. |
| Roles.DigitsValueDecimal | BlackJack.py:105 | Reading back the decimal numeral of n gives n. |
| Roles.ParseBetDecimal | BlackJack.py:101-110 | Typing the numeral of n is accepted exactly when n does not exceed the bankroll, and the bet is then n. |
| Roles.ZeroBetAccepted | BlackJack.py:101-110 | The answer "0" is accepted as a bet of 0 whenever the bankroll is not negative. |
| Roles.NonDigitRefused | BlackJack.py:101-103 | An empty answer, or one containing a non-digit, is refused. |
| Roles.BetTakenUnique | BlackJack.py:98-111 | The prompt stops at the first accepted answer, so the number of answers read and the bet taken are determined. The bet lies between 0 and the bankroll. |
| Roles.Payoff | BlackJack.py:223-234 | A player who stayed in gains the bet, loses it or keeps the bankroll, and gains it whenever the dealer went over. |
| Roles.PayoffRules | BlackJack.py:223-234 | If the dealer went over, the player gains the bet. Otherwise a higher total gains the bet, a lower one loses it, and a tie changes nothing. A bankroll that covered the bet stays non-negative. |
| Roles.Player.constructor | BlackJack.py:93-96 | A new player has an empty hand, a bankroll of 50 and a bet of 0. |
| Roles.Player.PlaceTheBet | BlackJack.py:98-111 | It reads answers until the first accepted one and takes that bet. Every earlier answer was refused. |
| Roles.Player.WonTheRound | BlackJack.py:113-115 | The bet is added to the bankroll. |
| Roles.Player.LooseTheRound | BlackJack.py:117-119 | The bet is taken from the bankroll. |
| Roles.Dealer.constructor | BlackJack.py:142 | The dealer starts with an empty hand. |
| Roles.Dealer.IsShortfall | BlackJack.py:130-132 | When the dealer is short, the face-up hand's sum is below 17 and the hand has not gone over. |
| Roles.Dealer.FlipTheLastCard | BlackJack.py:134-135 | Only the dealer's last card changes, and it is turned over. |
| Roles.DrewBelowStandExtend | BlackJack.py:190-191 | Drawing on a total below 17 keeps every draw of the dealer's turn below 17. |
| Roles.DrawBelowStand | BlackJack.py:190-191 | One card drawn on a total below 17 leaves the total at 26 or less. |
| Roles.DealerDrawsFacts | BlackJack.py:189-191 | A dealer already at 17 or more draws nothing. A dealer who drew ends at 26 or less. The order of the shoe fixes how many cards the turn draws. |
| Roles.TwoCardsNeverOver | BlackJack.py:175-176 | No two-card hand is over 21, so nobody busts on the first deal. |
| Rounds.OngoingExtend | BlackJack.py:180-183 | Reading an answer other than "n" below 21 continues the turn. "y" draws one card and any other answer draws none. |
| Rounds.OngoingFirst | BlackJack.py:180-183 | The first answer, when it is not "n" and the total is below 21, starts the turn: "y" draws one card and any other answer draws none. |
| Rounds.OngoingThenRun | BlackJack.py:180-187 | A turn that went on for some answers and then ran to its end is one complete turn. |
| Rounds.FinishTurn | BlackJack.py:180-181 | When the loop test fails, the turn is complete. The "n" that stopped it was read too, while 21 or more and running out of answers read nothing more. |
| Rounds.TurnRunCounts | BlackJack.py:179-187 | A turn reads at most the answers there are and draws exactly one card per "y" it read. It reads nothing from a hand already at 21 or more. |
| Rounds.TurnRunNoEarlyNo | BlackJack.py:180-181 | An "n" can only be the last answer a turn reads. |
| Rounds.TurnRunStops | BlackJack.py:180-181 | A turn ends only at a total of 21 or more, on an "n", or when no answer is left. |
| Rounds.TurnRunDeterministic | BlackJack.py:179-187 | The same hand, answers and cards give the same number of answers read. |
| Rounds.TurnDrawsBelow21 | BlackJack.py:180-183 | Every card of a turn is drawn while the total is below 21. |
| Rounds.DealtPrefix | BlackJack.py:170-173 | Cards handed out later do not change what an earlier deal gave a seat. |
| Rounds.DealtStep | BlackJack.py:171-173 | One more pass gives seat i the i-th card of that pass. |
| Rounds.DealtPassStep | BlackJack.py:171-173 | A pass that gives one card to each hand in order extends every hand by its seat's card. |
| Rounds.DealtTwice | BlackJack.py:170-173 | Two passes give seat i the i-th card and the (n+i)-th card dealt. |
| Rounds.DealtTwoFromEmpty | BlackJack.py:175-176 | Two passes over n empty hands leave hand i with the i-th card and the (n+i)-th card dealt, both face up. |
| Rounds.RemoveFirst | BlackJack.py:187 | `list.remove` of an element of the list drops exactly one occurrence of it and nothing else. The element must be present; the program raises `ValueError` otherwise. |
| Rounds.RemoveFirstDistinct | BlackJack.py:187 | In a list without repetitions, removal keeps every other element and leaves no repetitions. |
| Rounds.RemoveFirstAt | BlackJack.py:198 | Removing the element whose first occurrence is at position k cuts exactly position k out. |
| Rounds.RemoveAtSeam | BlackJack.py:195-198 | Removing the element the loop is looking at shifts the next one into the slot already visited. |
| Rounds.WalkAt | BlackJack.py:195 | The player the `for` loop looks at, at index i of the shrinking list, is the first seat the walk has not yet passed. |
| Rounds.WalkKeep | BlackJack.py:195-196 | A player with money stays in the list, and the loop moves on to the next index and the next seat. |
| Rounds.WalkDrop | BlackJack.py:195-198 | Removing a bankrupt player shifts the next seat into the slot just looked at, so the index, moving on, passes that seat by and keeps it. |
| Rounds.WalkDone | BlackJack.py:195 | When the index is past the end of the list, the list is the sweep of the seats. |
| Rounds.Sweep | BlackJack.py:193-198 | The sweep keeps only players who were seated, and never more of them. |
| Rounds.SweepStepKeep | BlackJack.py:195-196 | A player with money stays, and the walk moves on to the next one. |
| Rounds.SweepStepDrop | BlackJack.py:195-198 | A bankrupt player leaves, and the next player is kept without being looked at. |
| Rounds.KeepSolvent | BlackJack.py:193-198 | The reference result, keeping exactly the players with money, has no more players than the table. |
| Rounds.SweepSubsequence | BlackJack.py:193-198 | The sweep keeps the survivors in their original seat order. |
| Rounds.SweepKeepsSolvent | BlackJack.py:195-196 | Every player whose bankroll is not 0 stays seated, so only bankrupt players are removed. |
| Rounds.SweepDistinct | BlackJack.py:193-198 | A table with nobody seated twice still has nobody seated twice. |
| Rounds.SweepExactWithoutNeighbours | BlackJack.py:193-198 | With no two bankrupt players side by side, the sweep removes exactly the bankrupt players. |
| Rounds.SweepSkipsNeighbour | BlackJack.py:195-198 | Of two bankrupt players side by side only the first leaves, although both should. |
| Table.Bankrupt | BlackJack.py:196 | The flag for each seat is set exactly when that player's bankroll is 0. |
| Table.SeatsDoneStep | BlackJack.py:211-212 | A turn taken from where the previous seat stopped extends the turns completed in seat order by one seat. |
| Table.Gained | BlackJack.py:59-60 | What a hand gained: when the hand still starts with its old cards, it is those cards followed by the gain. |
| Table.DrawnBySeatsFrame | BlackJack.py:211-212 | What the seats before k drew depends only on those seats' hands. |
| Table.DrawnBySeatsStep | BlackJack.py:211-212 | Seat k's turn appends what its hand gained to what the seats before it drew. |
| Table.DrawnBySeatsNext | BlackJack.py:211-212 | When seat k's hand grows by exactly the cards handed out during its turn, the shoe's record goes from the draws of the seats before k to the draws of the seats up to k. |
| Table.SeatSettledFrom | BlackJack.py:211-234 | A turn that ended as the seat loop records it, followed by the payoff for a player still in, settles the seat. |
| Table.SeatSettledMoves | BlackJack.py:223-234 | A settled seat lost the bet if it went over, even when the dealer went over too (lines 185-186). A seat that stayed in was paid the bet when the dealer went over. The bankroll moved by exactly the bet or not at all, and stays non-negative when it covered the bet. |
| Table.SeatsDoneFaceUp | BlackJack.py:179-187 | After every seat's turn, every player's hand lies face up. |
| Table.SettledStakes | BlackJack.py:223-234 | Settling keeps one pair of stakes per seat. |
| Table.SeatsSettledFrom | BlackJack.py:211-234 | The turns in seat order, then the payoff for the players still in, settle every seat. Some seat is still standing exactly when some seat is still in. |
| Table.SeatsReadAlike | BlackJack.py:179-187 | Two records that settle the same hands on the same answers agree on where each seat's turn starts: the first seat starts at the first answer, and a turn that drew the same cards read the same number of answers. |
| Table.SeatsSettledUnique | BlackJack.py:211-212 | The answers and the hands fix how the round was read: two settlement records of the same hands on the same answers have the same turn boundaries and the same stakes. |
| Table.Revealed | BlackJack.py:215 | Revealing keeps every card but the last, whose rank and suit stay the same and whose face flag is negated. |
| Table.DealerPlayedFrom | BlackJack.py:215-222 | Revealing the hole card, then drawing by the dealer's rule when someone is standing and drawing nothing otherwise, is the dealer's part of the round. |
| Table.SeatsThenDealer | BlackJack.py:211-222 | The record after the seats' turns, followed by the cards dealt onto the revealed hole card, is the record before the turns, then the seats' draws, then what the dealer's hand gained. |
| Table.FirstDealOf | BlackJack.py:175-177 | The players' hands and the dealer's two cards, read off the record as the first deal left them, are the first deal: seat i got the i-th and the (n+1+i)-th card, the dealer the n-th and, turned face down, the last. |
| Table.RoundDealtFrom | BlackJack.py:170-191 | The first deal, then the seats' draws seat after seat, then the dealer's draws, make up the shoe's record of the round. |
| Table.RoundPlayedFrom | BlackJack.py:202-234 | A round opened by the bets and the first deal, whose seats were then settled and whose dealer played, drawing from the shoe in that order, was played as a whole round says, the shoe's record included. |
| Table.RoundPlayedMoves | BlackJack.py:202-234 | After a round every bet lies between 0 and the bankroll it came from. Every bankroll moved by exactly its bet, up or down, or not at all, so none is negative. |
| Table.WalkSeats | BlackJack.py:195-198 | The index walk over the shrinking list gives exactly the sweep of the seated players by their bankrupt flags. |
| Table.Game.TableHands | BlackJack.py:236 | The players' hands in seat order followed by the dealer's hand form a list without repeats, and each is a seated hand or the dealer's. |
| Table.Game.constructor | BlackJack.py:139-142 | A new table has no players, a new dealer and a new shoe holding the full deck, and every hand is empty. |
| Table.Game.AddPlayer | BlackJack.py:166-168 | A new player with a bankroll of 50, no bet and an empty hand takes the last seat. |
| Table.Game.PlaceBets | BlackJack.py:202-206 | Every seated player is in the round. Each player took the first accepted answer as the bet, in seat order. No bankroll changed. |
| Table.Game.DealOnePass | BlackJack.py:172-173 | One face-up card to each hand, in order: hand i gets the i-th card handed out. |
| Table.Game.HandOverCards | BlackJack.py:170-173 | After `perHand` passes each hand holds its old cards followed by its seat's card from each pass. |
| Table.Game.DealTwoEach | BlackJack.py:170-173 | Two passes over n empty hands: hand i holds the i-th card and the (n+i)-th card handed out, both face up. |
| Table.Game.DealFirstTwo | BlackJack.py:176 | The players in seat order, then the dealer, each get two face-up cards, one from each pass. |
| Table.Game.FirstDistribution | BlackJack.py:175-177 | Every player holds two face-up cards. The dealer holds two cards, the first face up and the second, the hole card, face down. |
| Table.Game.Hit | BlackJack.py:182-187 | A card is added to the hand. Going over 21 costs the bet and removes the player from the remaining players only. |
| Table.Game.TakeAnswer | BlackJack.py:182-187 | A "y" draws one card and any other answer draws none. The shoe's record and the hand grow by the same card, face up, and the answer continues the turn. Going over 21 costs the bet and removes the player from the remaining players; otherwise the bankroll and the remaining players stay as they were. |
| Table.Game.AskWhileBelow21 | BlackJack.py:180-187 | The loop stops at 21 or more, at "n" or when no answer is left. Every answer it read continued the turn. The hand grew by exactly the cards the shoe's record gained, all face up. The bet was deducted, and the player left the remaining players, exactly when the hand went over 21. |
| Table.Game.PlayerTurn | BlackJack.py:179-187 | The hand grows by exactly the cards the shoe handed out, following the turn's rules over the answers read. The bet is deducted exactly when the player went over. Only then does the player leave the remaining players, which keep everyone else and no repeats. A bankroll that covered the bet stays non-negative. |
| Table.Game.PlayerTurnAt | BlackJack.py:211-212 | The turn of seat k reads from where the previous turn stopped, and its hand grows by exactly the cards the shoe handed out during the turn. Every other seat keeps its hand and bankroll. Only seat k can leave the remaining players, exactly when it went over. |
| Table.Game.SeatTurn | BlackJack.py:211-212 | Seat k's hand grows by exactly the cards the shoe handed out, following the turn's rules. In the snapshots of hands, stakes and who is still in, only seat k's entry changes: its hand, its bankroll (the bet stays) and whether it is still in, which it is exactly when it did not go over. |
| Table.Game.TurnsInSeatOrder | BlackJack.py:211-212 | The seats take their turns in order, each reading the answers the previous one left. A seat stays in exactly when it did not go over. The shoe's record grows by the cards the seats drew, seat after seat. |
| Table.Game.SeatTurnLogged | BlackJack.py:211-212 | One pass of the seat loop: the turns completed in seat order, with the shoe's record grown by what those seats drew, extend from the seats before k to the seats up to k. |
| Table.Game.PlayerTurns | BlackJack.py:211-212 | Each player's turn reads its own stretch of the answers, in seat order, and the shoe's record grows by the cards drawn, seat after seat. Those who went over paid their bet and left the remaining players. The others kept their bankroll. |
| Table.Game.RemainingIffStillIn | BlackJack.py:216 | Somebody remains in the round exactly when some seat is still in. |
| Table.Game.DealerDraw | BlackJack.py:190-191 | On a total below 17 the dealer's hand gains exactly the face-up card the shoe's record gained, and the sum grows. |
| Table.Game.DealerTurn | BlackJack.py:189-191 | The dealer draws the next cards of the shoe while below 17 and stops at 17 or more. |
| Table.Game.SettleOne | BlackJack.py:223-234 | The player's bankroll moves by the payoff against the dealer's final hand. |
| Table.Game.Settle | BlackJack.py:223-234 | Each remaining player is settled exactly once by the payoff rule, and nobody else's bankroll or bet changes. |
| Table.Game.Resolve | BlackJack.py:215-234 | The hole card is revealed first. With nobody remaining the dealer draws nothing. Otherwise the dealer draws to 17 and every remaining player is settled. |
| Table.Game.ResolveSeats | BlackJack.py:215-234 | The players' hands stay as they are. The dealer reveals the hole card and draws to 17 only if somebody remains, and the shoe's record grows, after the seats' draws, by exactly what the dealer's hand gained. Each remaining player is paid the payoff against the dealer's final hand. |
| Table.Game.ClearHands | BlackJack.py:236-237 | Every hand at the table, including the dealer's, is empty. |
| Table.Game.CheckBalancePlayer | BlackJack.py:193-198 | The seated players become the sweep of the old list by bankroll 0, including the skipped-neighbour quirk. |
| Table.Game.Play | BlackJack.py:211-234 | The first seat reads from the first answer typed (`starts[0] == 0`), and seat k's turn reads `answers[starts[k]..starts[k+1]]` and grows the hand by exactly the cards its rules draw. A player who went over lost the bet (lines 185-186). Every other player is paid by the payoff rule against the dealer's final hand: the bet when the dealer went over (223-226), otherwise by comparing totals (228-234). The dealer revealed the hole card, then drew to 17 only if some player was standing. The shoe's record grows by the seats' draws, seat after seat, then by the dealer's. |
| Table.Game.Showdown | BlackJack.py:215-234 | After the seats' turns: the players' hands stay, the dealer plays out the hole card as in Table.Game.Play, the shoe's record grows by exactly what the dealer's hand gained, and every seat is settled against the dealer's final hand. |
| Table.Game.BeginRound | BlackJack.py:202-208 | Bets are taken in seat order and bankrolls are untouched. With n players the shoe hands out 2(n+1) cards. Seat i holds the i-th and the (n+1+i)-th card, face up. The dealer holds the n-th card face up and, as the hole card, the last one face down. |
| Table.Game.EndRound | BlackJack.py:236-239 | Every hand is cleared, then bankrupt players are swept from the table. No old seat's bankroll or bet changes. |
| Table.Game.OpenRound | BlackJack.py:202-208 | The bets and the first deal, with the hands dealt, the stakes and the dealer's two cards returned: every bet is what the prompt accepted from an untouched bankroll, and the first deal is read off the shoe's record. |
| Table.Game.BetAndPlay | BlackJack.py:202-234 | The round until the settlement, returning each seat's first two cards, its stakes after the bet and the dealer's first deal. Each player bet what the prompt accepted from an untouched bankroll and was dealt two face-up cards. The dealer's hole card lay face down. Every seat is settled by the per-seat rule of Table.Game.Play against its final hand and the dealer's, the first seat reading from the first answer typed and each next seat from where the previous turn stopped, and the dealer played as there. The shoe's record of the round is the first deal, seat i getting the i-th and the (n+1+i)-th card and the dealer the n-th and the last, then the seats' draws in seat order, then the dealer's draws. |
| Table.Game.PlayRound | BlackJack.py:201-239 | One round, from bets to the sweep. Every hand ends empty and the seated players are the sweep of the old ones. The final hands of the seats and the dealer, before clearing, are returned. On them every old seat, swept out or not, is settled as in Table.Game.BetAndPlay, the turns reading the answers from the first one on, and the shoe's record of the round is as there; Table.RoundPlayedMoves bounds the result. |

## Left out

- Console output and rendering are not modelled: `print`, `__str__`, the table layout, `greet` and the win/lose/tie messages. `tied_the_round` only prints, so it has no member.
- Console input becomes parameters:
  - Each player's answers to the bet prompt are a sequence of strings.
  - The answers to the card prompt are one sequence of `Yes`/`No`/`Other`, already lower-cased, read by the players in seat order.
- Table.Game.PlayerTurn: when the answer sequence runs out, the player stands. The program would wait for more input.
- Roles.Player.PlaceTheBet: requires that some answer is accepted. The program keeps asking forever otherwise, and an endless prompt has no finite model.
- Roles.ParseBet: only ASCII digits count as digits. The program's `str.isdigit` also accepts other Unicode digits.
- Shoe.Deck.Shuffle: the order is some permutation of the cards. `random.shuffle` draws on a random source that is not modelled.
- Hands.IsWentOver, Hands.Less and Hands.Greater require face-up hands. The program would raise a `TypeError` comparing '?' with a number; it never does so because the hole card is revealed first.
- Roles.Dealer.IsShortfall requires a face-up hand. The program's `'?' < 17` would raise a `TypeError`; the dealer only asks once the hole card is revealed.
- Hands.Hand.FlipLast and Roles.Dealer.FlipTheLastCard require a non-empty hand. The program's `cards[-1]` raises `IndexError` on an empty one; the dealer always holds two cards when it is called.
- Rounds.RemoveFirst requires the element to be in the list. Python's `list.remove` raises `ValueError` otherwise; the program removes only players it found in the list.
- `Card.flip` changes a card object in place. The model replaces the last card of the hand by its flipped copy. Each card object is in exactly one list at a time, so nothing else can observe the difference.
- `register_players` and `create_player` are not modelled: the player-count prompt (1 to 7) and the name prompts. Table.Game.AddPlayer seats players one at a time and does not enforce the limit of seven.
- The outer `while self.players` loop is not modelled. Repeated calls of Table.Game.PlayRound stand for it, and its termination is not proved. `main` and `start` are not modelled either.
- The balance printout after each round (`get_balance`) is not modelled.
- Shoe.HandedOut: once the shoe runs out and is rebuilt, the record still lists every card handed out, in order, but no longer says where in the shoe each came from, since the rebuilt order is a random shuffle.
