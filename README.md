# Sechsundsechzig rules engine, modelled in Dafny

This project models the core of a rules engine for Sechsundsechzig ("sixty-six"), a trick-taking card game for three or four seats. It also models the tic-tac-toe example game that runs on the same turn-based host. Each Rust source file of the core has one Dafny module:

| Dafny file | module | source file | form |
|---|---|---|---|
| variant.dfy | `Variants` | sechsundsechzig/src/variant.rs, plus `next_player` from contract.rs | functions and lemmas |
| text.dfy | `Text` | the standard-library `to_lowercase` and `split` used by cards.rs | functions and lemmas |
| cards.dfy | `Cards` | sechsundsechzig/src/cards.rs | functions and lemmas |
| contract.dfy | `Contracts` | sechsundsechzig/src/contract.rs | functions and lemmas |
| bidding.dfy | `Bidding` | sechsundsechzig/src/bidding.rs | functions and lemmas |
| table.dfy | `Tables` | sechsundsechzig/src/table.rs | class `Table` with methods |
| stash.dfy | `Stashing` | sechsundsechzig/src/stash.rs | classes `Stash` and `Stashes` |
| score.dfy | `Scores` | sechsundsechzig/src/score.rs | class `Score` |
| team.dfy | `Teams` | sechsundsechzig/src/team.rs | functions and lemmas |
| ordering.dfy | `Ordering` | sechsundsechzig/src/ordering.rs | functions and lemmas |
| hands.dfy | `Hands` | sechsundsechzig/src/hands.rs | datatypes and a dealing method |
| tic_tac_toe.dfy | `TicTacToe` | tbsux/examples/tic_tac_toe.rs | class `Board` over an array |
| errors.dfy | `Errors` | the error variants used across the core | datatypes |

## How the model is built

- Seats (`Player`, a `u32` in the source) are `nat`. Stakes (`i32`) are `int`. Card points, declaration bonuses and stash totals (`i32`, never negative) are `nat`. Score totals (`i32`) are `int`.
- The crate's error enum is one `Error` datatype. It keeps the source's spelling `InvaildBid`, `InvaildParty`, `InvaildPlayer` and `InvaildTeam`.
- `SusResult<T>` becomes `Result<T>`. Rust's `Option` becomes `Option`.
- error.rs:4-6 declares only `InvaildTeam`. The other six `Error` variants are gathered from where they are used: bidding.rs, table.rs, stash.rs, cards.rs and hands.rs.
- `Party` (the dealers, the non-dealers, or a single seat) is used as the key of the stash map but is not defined in the files modelled here. The model supplies it in `Contracts`.
- `bidding` is a total function `Bidding.Bidding`. It matches on the game type and the bid. The source's two Pass arms (last bidder or not) become one case with an if-then-else, and so do its two Raise arms. Its other arms and the catch-all have one case each.
- A whole negotiation is `Bidding.RunBidding`. It folds the bids the way the source's bidding tests do.
- `Table`, `Stash` and `Score` mutate their fields, so each is a class with `modifies` clauses. `Stashes` is a class that holds a fixed map from party to `Stash` object. It is never replaced; a stash is updated through the reference `StashMut` returns.
- The tic-tac-toe `Board` writes into a fixed nine-field array, so it is a class over an `array<Field>`.
- `Hands::deal` takes its deck from a shuffle. The model's `Hands.Deal` takes the already-shuffled deck as a parameter.
- `Table::current_player` calls `variant.next_player(p)`. That method is not part of variant.rs. It is modelled as `contract.next_player`'s `(p + 1) % number_of_players`, defined once as `Variants.NextPlayer`.
- `dealers_teammate_plays` is not part of contract.rs. It is modelled as false exactly for Misery and Shower, the two game types in which the dealer's teammate sits out.
- `Score::winner` walks a `HashMap`, whose order is not defined. `Scores.Score.Winner` therefore visits the teams in an unspecified order. Like `max_by_key`, it lets a later team with an equal total replace an earlier one. Its contract states only what holds for every order.

Two places deserve a note:

- **Dealing.** `cards_per_player` at variant.rs:18-20 and its test at variant.rs:34-37 (8 with three seats, 6 with four) show that each seat should receive that many cards. `Hands::deal` instead gives the first seat everything after the first `cards_per_player` cards and every other seat nothing. The model keeps this behaviour as written and adds a corrected deal. See Findings.
- **Winner ties.** `Score::winner` keeps the teams at 66 or more and takes `max_by_key`, which returns the last of several equal maxima in the `HashMap`'s iteration order. That order is not defined, so `Scores.Score.Winner` promises "a team with no team ahead of it" rather than a particular one.

## Model

| member | source | states |
|---|---|---|
| Variants.NumberOfPlayers | sechsundsechzig/src/variant.rs:9-16 | a table has at least one seat; 3 and 4 seats, by CardsShareDeckExactly |
| Variants.CardsPerPlayer | sechsundsechzig/src/variant.rs:18-20 | each seat gets at least one card, and the seats' shares fit in the 24-card deck |
| Variants.CardsShareDeckExactly | sechsundsechzig/src/variant.rs:9-20 | the 24 cards split with nothing left over: 8 per seat with three seats, 6 with four |
| Variants.NextPlayer | sechsundsechzig/src/contract.rs:43-45 | the next seat is always a seat of the table, and it is `player + 1` unless that wraps round |
| Variants.AdvanceIsModular | sechsundsechzig/src/contract.rs:43-45 | k turns from seat p reach seat (p + k) mod n |
| Variants.FullRotationReturns | sechsundsechzig/src/contract.rs:43-45 | n turns return to the starting seat, and fewer than n never do |
| Variants.ModSuccessor | sechsundsechzig/src/contract.rs:44 | reducing modulo 3 or 4 before adding one gives the same seat as reducing after |
| Text.Lower | sechsundsechzig/src/cards.rs:50 | the result has the same length and no upper-case ASCII letter; every other character is kept, and each upper-case letter becomes the same letter in lower case |
| Text.LowerIs | sechsundsechzig/src/cards.rs:50 | a string with each letter lower-cased is the lower-cased form |
| Text.LowerIdempotent | sechsundsechzig/src/cards.rs:95 | lower-casing twice is lower-casing once |
| Text.Split | sechsundsechzig/src/cards.rs:150 | splitting always yields at least one piece |
| Text.SplitCount | sechsundsechzig/src/cards.rs:150-151 | the number of pieces is one more than the number of separators |
| Text.SplitPiecesHaveNoSeparator | sechsundsechzig/src/cards.rs:150 | no piece contains the separator |
| Text.JoinSplit | sechsundsechzig/src/cards.rs:150 | gluing the pieces back with the separator restores the text |
| Text.SplitPair | sechsundsechzig/src/cards.rs:150-153 | two separator-free tokens joined by one separator split back into exactly those two |
| Text.SplitNoSeparator | sechsundsechzig/src/cards.rs:150 | text without a separator is a single piece |
| Cards.RankIndex | sechsundsechzig/src/cards.rs:6-25 | each rank has a position in `RANKS`, and the rank sits at that position |
| Cards.SuitIndex | sechsundsechzig/src/cards.rs:62-72 | each suit has a position in `SUITS`, and the suit sits at that position |
| Cards.RankOrderIsDeclarationOrder | sechsundsechzig/src/cards.rs:6-24 | the derived order is Nine < Jack < Queen < King < Ten < Ace, and it is total and strict |
| Cards.PointsFollowRankOrder | sechsundsechzig/src/cards.rs:127-137 | a higher-ranked card is worth strictly more points |
| Cards.Points | sechsundsechzig/src/cards.rs:127-137 | a card is worth at most 11 points, and 0 exactly when it is a Nine |
| Cards.CardPointsAppend | sechsundsechzig/src/stash.rs:23 | the points of two piles of cards add up |
| Cards.RankRow | sechsundsechzig/src/cards.rs:113-117 | one rank's row has four cards; a card is in it if and only if it has that rank; no card appears twice |
| Cards.Deck | sechsundsechzig/src/cards.rs:112-119 | the deck has 24 cards and each rank's run starts with its Spade; DeckIsComplete adds that every card appears once |
| Cards.DeckOfIndex | sechsundsechzig/src/cards.rs:111-119 | the rank-major deck has 4 cards per rank, and position 4i + j holds rank i in suit j |
| Cards.DeckPositionsAreIndices | sechsundsechzig/src/cards.rs:111-119 | each of the 24 positions is the position of the card found there |
| Cards.DeckIsComplete | sechsundsechzig/src/cards.rs:111-119 | the deck has 24 cards, holds every (rank, suit) pair, and no card twice |
| Cards.DeckOfPoints | sechsundsechzig/src/cards.rs:127-137 | a deck of whole ranks is worth four times the rank values |
| Cards.RankRowPoints | sechsundsechzig/src/cards.rs:127-137 | a rank's four cards are worth four times that rank's points |
| Cards.DeckIsWorth120 | sechsundsechzig/src/cards.rs:186-189 | the whole deck is worth 120 points |
| Cards.ParseRank | sechsundsechzig/src/cards.rs:45-60 | a parsed rank is one whose spellings include the lower-cased token; every failure is `RankParseError` |
| Cards.ParseSuit | sechsundsechzig/src/cards.rs:90-103 | a parsed suit is one whose spellings include the lower-cased token; every failure is `SuitParseError` |
| Cards.ParseCard | sechsundsechzig/src/cards.rs:146-159 | a parsed card comes from exactly two space-separated tokens, the first a spelling of its rank; a failure is `InvaildPlayer`, `RankParseError` or `SuitParseError` |
| Cards.ParseRankAcceptsExactlyAliases | sechsundsechzig/src/cards.rs:45-60 | a token parses to rank r if and only if its lower-cased form is a spelling of r ("1" and "10" for Ten); every other token is a `RankParseError` |
| Cards.ParseSuitAcceptsExactlyAliases | sechsundsechzig/src/cards.rs:90-103 | a token parses to suit s if and only if its lower-cased form is s's symbol, name, plural or initial; every other token is a `SuitParseError` |
| Cards.ParsingIgnoresCase | sechsundsechzig/src/cards.rs:45-103 | a token and its lower-cased form parse alike |
| Cards.DisplayedTextParsesBack | sechsundsechzig/src/cards.rs:27-103 | the displayed text of every rank and suit parses back to it |
| Cards.ParseCardNeedsOneSpace | sechsundsechzig/src/cards.rs:146-159 | text is rejected with `InvaildPlayer` if and only if it does not have exactly one space |
| Cards.ParseCardOfTokens | sechsundsechzig/src/cards.rs:146-159 | two space-free tokens give the card they name; otherwise the rank error comes first, then the suit error |
| Cards.AceOfSpadesParses | sechsundsechzig/src/cards.rs:191-196 | "a s", "A spade" and "aCe sPaDeS" all parse to the Ace of Spades |
| Cards.AceOfSpadesShort | sechsundsechzig/src/cards.rs:193 | "a s" parses to the Ace of Spades |
| Cards.AceOfSpadesSingular | sechsundsechzig/src/cards.rs:194 | "A spade" parses to the Ace of Spades |
| Cards.AceOfSpadesMixedCase | sechsundsechzig/src/cards.rs:195 | "aCe sPaDeS" parses to the Ace of Spades |
| Cards.CardTextParsesBack | sechsundsechzig/src/cards.rs:140-159 | a card's rank text and suit symbol, separated by a space, parse back to that card |
| Contracts.Triumph | sechsundsechzig/src/contract.rs:17-24 | a game type has a trump suit if and only if it is AskingAbout or LookingFor |
| Contracts.TriumphExactly | sechsundsechzig/src/contract.rs:17-24 | a game type has trump s if and only if it is AskingAbout(s) or LookingFor(s); the other three have none |
| Contracts.Initial | sechsundsechzig/src/contract.rs:35-41 | a round starts NonTriumph, without trump, at stake 1, with the given dealer |
| Contracts.DealersTeammate | sechsundsechzig/src/contract.rs:47-53 | a teammate exists exactly with four seats; it is a seat of the table and not the dealer |
| Contracts.DealersTeammatePlays | sechsundsechzig/src/table.rs:35-37 | in NonTriumph and in the games with a trump suit the teammate plays |
| Contracts.TeammateIsPartner | sechsundsechzig/src/contract.rs:47-53 | three seats have no teammate; with four, the teammate is another seat two places on, and its own teammate is the dealer |
| Bidding.Bidding | sechsundsechzig/src/bidding.rs:22-80 | every rejection is `InvaildBid`, and the bidding continues with the same seat or the next one; RejectedExactlyWhenIllegal says exactly when a bid is rejected |
| Bidding.Legal | sechsundsechzig/src/bidding.rs:34-79 | in stage two only the dealer may bid, and only at stake 1; a LookingFor, Misery or Shower contract admits no bid |
| Bidding.RejectedExactlyWhenIllegal | sechsundsechzig/src/bidding.rs:34-79 | a bid is rejected if and only if it is not legal in the current stage, and a rejection is always `InvaildBid` |
| Bidding.LastBidderFinishes | sechsundsechzig/src/bidding.rs:39-44 | the seat before the initial dealer finishes the bidding: Pass keeps the contract; Raise makes that seat dealer and doubles the stake |
| Bidding.OtherBidderContinues | sechsundsechzig/src/bidding.rs:46-52 | any other stage-one Pass or Raise hands the turn to the next seat; Raise also makes the bidder dealer at twice the stake |
| Bidding.AskingAboutStartsStageTwo | sechsundsechzig/src/bidding.rs:54-56 | asking about a suit in stage one makes the bidder dealer at stake 1, and the same seat bids next |
| Bidding.DealerAnswersInStageTwo | sechsundsechzig/src/bidding.rs:61-73 | in stage two the dealer may confirm the suit, switch to LookingFor that suit, or switch to Shower; each keeps dealer and stake and passes the turn on |
| Bidding.SettledContractsRejectEveryBid | sechsundsechzig/src/bidding.rs:62-78 | LookingFor, Misery and Shower contracts, and AskingAbout at a stake other than 1, reject every bid |
| Bidding.BidKeepsStakeAndSeat | sechsundsechzig/src/bidding.rs:32-78 | an accepted bid leaves the stake as it was, doubles it, or resets it to 1; the seat handed the turn is a seat of the table |
| Bidding.Pow2IsPowerOfTwo | sechsundsechzig/src/bidding.rs:42-52 | each stake 2^k reached by repeated raising is a power of two |
| Bidding.StakeStaysPowerOfTwo | sechsundsechzig/src/bidding.rs:42-56 | an accepted bid keeps the stake a power of two |
| Bidding.Repeat | sechsundsechzig/src/bidding.rs:141-171 | a bid repeated k times is k copies of that bid |
| Bidding.RunBidding | sechsundsechzig/src/bidding.rs:93-140 | a finished or failed negotiation stays as it is; no bids leave it unchanged; a negotiation that fails along the way fails with `InvaildBid` |
| Bidding.LastBidderIsBeforeDealer | sechsundsechzig/src/bidding.rs:32-39 | the seat j places after the initial dealer is the last bidder if and only if j = n - 1 |
| Bidding.PassesFinish | sechsundsechzig/src/bidding.rs:39-48 | passing round the rest of the table finishes with the contract unchanged |
| Bidding.RaisesFinish | sechsundsechzig/src/bidding.rs:42-52 | raising round the rest of the table doubles the stake once per seat, and the last seat becomes dealer |
| Bidding.AllPassKeepsInitialContract | sechsundsechzig/src/bidding.rs:141-171 | for either table size, all seats passing finishes with NonTriumph, the initial dealer, and stake 1 |
| Bidding.AllRaiseDoublesPerSeat | sechsundsechzig/src/bidding.rs:42-52 | all n seats raising finishes with stake 2^n, a power of two, and the seat before the initial dealer as dealer |
| Bidding.FourRaises | sechsundsechzig/src/bidding.rs:42-52 | four seats, dealer 0: four raises finish with seat 3 dealing at stake 16 |
| Bidding.PassRaisePass | sechsundsechzig/src/bidding.rs:39-52 | three seats, dealer 0: pass, raise, pass finishes with seat 1 dealing at stake 2 |
| Tables.TrickSize | sechsundsechzig/src/table.rs:60-66 | a trick holds at least three cards and at most one per seat |
| Tables.TrickSizeCountsPlayingSeats | sechsundsechzig/src/table.rs:60-66 | a trick's size is the number of seats that take part, never more than the seats at the table |
| Tables.Turn | sechsundsechzig/src/table.rs:35-41 | the seat that plays never sits out; it is the seat in line, or the one after it only when the seat in line sits out |
| Tables.TrickSeat | sechsundsechzig/src/table.rs:25-44 | the seat making each play of a trick never sits out, and is a seat of the table |
| Tables.TrickSeatWithoutSkip | sechsundsechzig/src/table.rs:29-41 | when nobody sits out, the i-th play is made i seats after the leader |
| Tables.TrickSeatStep | sechsundsechzig/src/table.rs:29-41 | with the teammate sitting out, each play moves one seat on, or two to step over the teammate |
| Tables.SkippingTrickSeatsDiffer | sechsundsechzig/src/table.rs:29-41 | with the teammate sitting out, the three plays come from three different seats |
| Tables.TrickSeatsTakePart | sechsundsechzig/src/table.rs:29-41 | every play of a trick led from a valid seat is made by a seat that takes part |
| Tables.FullTrickSeatsDiffer | sechsundsechzig/src/table.rs:29-41 | when every seat plays, no seat plays twice in a trick |
| Tables.FullTrickCoversSeats | sechsundsechzig/src/table.rs:29-41 | when every seat plays, every seat of the table makes one of the trick's plays |
| Tables.SkippingTrickCoversSeats | sechsundsechzig/src/table.rs:29-41 | with the teammate sitting out, the three plays come from the three seats that take part |
| Tables.EverySeatPlaysOnce | sechsundsechzig/src/table.rs:25-66 | the plays of a full trick are made by exactly the seats that take part: only by them, by every one of them, and by none twice |
| Tables.Table.Empty | sechsundsechzig/src/table.rs:16-23 | a new table has no plays and keeps the variant, contract and first seat it was given |
| Tables.Table.Size | sechsundsechzig/src/table.rs:60-66 | the size of the table's trick is the number of seats that take part |
| Tables.Table.InLine | sechsundsechzig/src/table.rs:29-34 | the initial seat before any play, and after a play a seat of the table |
| Tables.Table.CurrentPlayer | sechsundsechzig/src/table.rs:25-44 | None if and only if the trick is full; otherwise a seat that does not sit out, namely the next seat in the trick's order |
| Tables.Table.PlayCard | sechsundsechzig/src/table.rs:46-53 | the card is appended for the current seat, or `FullTable` is returned with the table unchanged; the plays stay in trick order |
| Tables.ThreeSeatTrick | sechsundsechzig/src/table.rs:101-123 | three seats, NonTriumph: seats 0, 1 and 2 play, then the trick is full |
| Tables.FourSeatTrick | sechsundsechzig/src/table.rs:125-150 | four seats, NonTriumph: seats 0 to 3 play, then the trick is full |
| Tables.MiseryTrickSkipsTeammate | sechsundsechzig/src/table.rs:152-174 | four seats, Misery, dealer 0: seats 0, 1 and 3 play, and the trick is full after three cards |
| Stashing.CountSuit | sechsundsechzig/src/stash.rs:24-34 | a suit's declaration count is at most the number of declarations |
| Stashing.DeclarationsValueByCount | sechsundsechzig/src/stash.rs:24-34 | declarations are worth 40 each in the trump suit and 20 each otherwise, and 20 each with no trump |
| Stashing.DeclarationsValueAppend | sechsundsechzig/src/stash.rs:24-34 | one more declaration adds exactly its own value |
| Stashing.Stash.Empty | sechsundsechzig/src/stash.rs:15-20 | a new stash is empty and worth 0 under any trump |
| Stashing.Stash.Declare | sechsundsechzig/src/stash.rs:38-40 | the declaration is appended and the stash gains 40 in trump, 20 otherwise |
| Stashing.Stash.AddCards | sechsundsechzig/src/stash.rs:42-46 | the cards are appended in order and the stash gains exactly their points |
| Stashing.StashValue | sechsundsechzig/src/stash.rs:22-36 | a stash is worth its card points plus between 20 and 40 per declaration |
| Stashing.Stash.Points | sechsundsechzig/src/stash.rs:22-36 | a stash is worth at least its card points, and exactly those without declarations |
| Stashing.StashPoints | sechsundsechzig/src/stash.rs:22-36 | a stash is worth its card points plus 40 per trump declaration and 20 per other declaration |
| Stashing.Stashes.Empty | sechsundsechzig/src/stash.rs:53-55 | one fresh, empty stash for each party listed, and no stash shared between parties; the map is never replaced afterwards |
| Stashing.Stashes.GetStash | sechsundsechzig/src/stash.rs:57-63 | a listed party's stash; `InvaildParty` if and only if the party is not listed |
| Stashing.Stashes.StashMut | sechsundsechzig/src/stash.rs:65-71 | a listed party's stash for updating; `InvaildPlayer` if and only if the party is not listed |
| Teams.AllTeams | sechsundsechzig/src/team.rs:11-18 | three teams with three seats and two with four, numbered from 0 |
| Teams.Players | sechsundsechzig/src/team.rs:20-28 | a team has one seat with three seats and two with four, and every listed seat is a seat of the table whose team is this team |
| Teams.TeamOf | sechsundsechzig/src/team.rs:20-28 | every seat's team is a valid team of that variant |
| Teams.TeamsPartitionSeats | sechsundsechzig/src/team.rs:11-28 | the listed teams are exactly the valid teams; every seat of the table is in exactly one team, and no team holds another seat |
| Teams.TeamSeats | sechsundsechzig/src/team.rs:49-62 | team seats as displayed: 0, 1 and 2 alone; then 0 and 2, and 1 and 3 |
| Scores.ZeroScores | sechsundsechzig/src/score.rs:13-18 | one total per team of the variant, all 0, and as many totals as teams |
| Scores.DistinctTeamCount | sechsundsechzig/src/score.rs:50-70 | the teams of a variant are all different |
| Scores.Score.Empty | sechsundsechzig/src/score.rs:13-18 | a new score board holds 0 for every team of the variant |
| Scores.Score.AddPoints | sechsundsechzig/src/score.rs:20-22 | the points are added to that team's total, and no other total changes |
| Scores.Score.Winner | sechsundsechzig/src/score.rs:24-30 | None if and only if no team has reached 66; otherwise a team with at least 66 and no team ahead of it |
| Scores.FirstToReachThreshold | sechsundsechzig/src/score.rs:72-97 | a fresh board has no winner; after one team gets 66 it is the winner |
| Ordering.GreatestCardInSuit | sechsundsechzig/src/ordering.rs:3-10 | None if and only if the suit is absent; otherwise a card of that suit from the input that no card of the suit outranks |
| Ordering.OfSuit | sechsundsechzig/src/ordering.rs:8 | keeps exactly the cards of the suit |
| Ordering.OtherSuitsDoNotMatter | sechsundsechzig/src/ordering.rs:3-10 | cards of other suits never change the result |
| Hands.Hand.Full | sechsundsechzig/src/hands.rs:24-26 | every card of the hand, in dealt order; Hand.First is a prefix of it |
| Hands.Hand.First | sechsundsechzig/src/hands.rs:28-30 | the first part of the hand, of length four, or the whole hand if it is shorter |
| Hands.Hands.HandOf | sechsundsechzig/src/hands.rs:50-56 | a seat's hand if it has one, and `InvaildPlayer` if and only if it has none |
| Hands.Deal | sechsundsechzig/src/hands.rs:37-48 | as written: seat 0 takes everything after the first `cards_per_player` cards and later seats take nothing; hands only hold cards of the deck and share none |
| Hands.DealFullDeckToThree | sechsundsechzig/src/hands.rs:37-48 | as written, the 24-card deck dealt to three seats gives hands of 16, 0 and 0 cards |
| Hands.DealEvenly | sechsundsechzig/src/hands.rs:37-48 | corrected: each seat gets its own block of `cards_per_player` cards |
| Hands.EvenSharesPartitionDeck | sechsundsechzig/src/hands.rs:37-48 | the corrected shares have 8 or 6 cards each, cover every card of the deck, and share no card when the deck has no repeats |
| Hands.ShareOf | sechsundsechzig/src/hands.rs:43 | each deck position belongs to a seat of the table |
| Hands.ShareOfIndex | sechsundsechzig/src/hands.rs:43 | each deck card is in the share of the seat its position belongs to |
| Hands.SharesDisjoint | sechsundsechzig/src/hands.rs:43 | two different seats' shares of a deck without repeats have no card in common |
| TicTacToe.Other | tbsux/examples/tic_tac_toe.rs:16-22 | the other symbol always differs from the given one |
| TicTacToe.OtherSwaps | tbsux/examples/tic_tac_toe.rs:16-22 | the other symbol always differs, and taking it twice gives the symbol back |
| TicTacToe.LinesAreOnTheBoard | tbsux/examples/tic_tac_toe.rs:75-84 | all eight lines name fields of the board |
| TicTacToe.Board.Empty | tbsux/examples/tic_tac_toe.rs:59-61 | a new board has nine empty fields |
| TicTacToe.Board.Place | tbsux/examples/tic_tac_toe.rs:63-72 | an empty field on the board gets the symbol; position 9 or more is `OutOfBoard` and an occupied field is `AlreadyOccupied`, both leaving the board unchanged |
| TicTacToe.Board.WinnerFrom | tbsux/examples/tic_tac_toe.rs:85-103 | a symbol is returned only if it fills some line from k on; None if and only if no later line is filled by one symbol |
| TicTacToe.Board.Winner | tbsux/examples/tic_tac_toe.rs:74-104 | a symbol is returned only if it fills some line; None if and only if no line is filled by one symbol |
| TicTacToe.Board.FilledFrom | tbsux/examples/tic_tac_toe.rs:106-108 | true if and only if every field from i on holds a symbol |
| TicTacToe.Board.Filled | tbsux/examples/tic_tac_toe.rs:106-108 | true if and only if every field holds a symbol |
| TicTacToe.Board.Clone | tbsux/examples/tic_tac_toe.rs:55-56 | a new board with its own array and the same fields |
| TicTacToe.Progress | tbsux/examples/tic_tac_toe.rs:160-177 | Victory only for a symbol that fills a line; Tie only with no line won and every field filled; in progress if and only if no line is won and a field is empty, showing the fields and the player to move |
| TicTacToe.MoveReducer | tbsux/examples/tic_tac_toe.rs:179-186 | a move succeeds if and only if it names an empty field; it then returns a new board with the current symbol placed and hands the turn to the other symbol; refusals carry the board's error |

## Left out

- Integer widths: seats are `u32`, and stakes and points are `i32`. The model uses unbounded integers, so `p + 1`, `dealer + 2`, stake doubling and point sums never wrap or panic on overflow.
- Text.Lower: only ASCII A–Z are folded. Rust's `to_lowercase` also folds other scripts, for example the Kelvin sign to "k", so the model accepts fewer spellings than the source.
- Shuffling and the random generator: `Card::shuffled_deck` and the `rng` argument of `Hands::deal` are left out. `Hands.Deal` receives the shuffled deck as a parameter.
- `Table::drawer` is left out. In the source it is a stub that always returns seat 0, so there is no trick-winner rule to model.
- The `Display` implementations are left out, except the rank and suit texts that the parsers must read back (`Cards.RankText`, `Cards.SuitSymbol`).
- game.rs, round.rs, sus_move.rs, the command-line host and the tbsux engine are outside this model.
- Scores.Score.Winner: the order in which `HashMap` iterates is not modelled. The contract does not say which of several teams tied at the top is returned.
- Scores.Score.AddPoints: requires the team to be on the board. The source panics ("Invaild team") otherwise.
- Hands.Hands.HandOf and Stashing.Stashes: the source returns references. The model returns the value (for a hand) or the shared `Stash` object (for a stash), which keeps the aliasing.
- `HandType` is a label with no behaviour; `Hand.Full` and `Hand.First` cover both cases.
- Bidding.RunBidding: bids after the negotiation has finished or failed are ignored. The source's test harness panics on them instead.
- TicTacToe.Progress: the view holds the board's field values rather than a cloned `Board` object. `player_view` and the view's `current_player` numbering (1 and 2) are not modelled.
- Teams.Players: requires a valid team. The source panics ("Invalid team") for any other team.

## Findings

| source | as written | input that shows it | evidently intended | confidence | as-written member | corrected member |
|---|---|---|---|---|---|---|
| sechsundsechzig/src/hands.rs:43 | each seat takes `split_off(cards_per_player)` of what is left, i.e. everything after the first `cards_per_player` cards | the 24-card deck dealt to three seats gives hands of 16, 0 and 0 cards (with four seats: 18, 0, 0 and 0) | every seat gets its own `cards_per_player` cards: 8 with three seats, 6 with four | high, not executed | Hands.DealFullDeckToThree | Hands.DealEvenly |
