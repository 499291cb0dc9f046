# Bingo server: game and wallet rules in Dafny

This project models the rules of a bingo platform's server: players, their
wallets and earnings, scheduled bingo games, cards, per-bet sessions and bet
rooms, and the transaction ledger. The server itself keeps these in a document
store and spreads the rules across socket handlers, HTTP routes and
controllers. Here they are one immutable `Store.State`, and every handler is a
pure function from a state and its inputs to a `Store.Step`: the new state, the
answer to the caller, and the events broadcast to the room.

Modules follow the server's files:

- `Basics`: the store's query semantics, with counts, sums, filters and skip/limit windows. The model assumes that `findOne` takes the first match in insertion order. MongoDB's natural order usually behaves this way but does not guarantee it, and the refund finding below depends on it.
- `Records`: the user and transaction records with their schema constraints. The phone pattern, non-negative balances and amounts, enum defaults and the unique reference are checked on every save.
- `Store`: the state, the entities, the failure answers and the events.
- `Round`: the socket engine of scheduled games. It covers join/start, the number-calling tick and the bingo claim with its payout.
- `Purchase`: card purchase. It enforces the two-cards-per-game limit.
- `Sessions`: the per-bet session routes. They cover buy, refund, the history payout, the wallet overwrite and the status update.
- `BetRoom`: the legacy socket server. It covers card selection into bet rooms, the lock, the lobby counters and the claim.
- `Wallet`: deposit recording and crediting, and withdrawal reservation.
- `Accounts`: the signed wallet adjustment and the earnings update.
- `Admin`: the admin changes to users, transactions and games.
- `Paging`: query defaults, skip and page-count arithmetic.
- `Reports`: ledger totals, profit, net balance and the user-scoped listing.
- `Catalog`: the bet-amount game catalog and its range check.

The server's saves are modelled as they behave:

- Saving a user runs the schema validators (`Records.ValidUser`).
- The direct update used by the wallet overwrite skips them.
- A save that throws after earlier writes keeps those earlier writes and answers `ServerError`.

Several parts are not source code and become parameters:

- the pattern check and the prize rule, whose code lies outside the modelled files;
- the legacy win check: `checkIfWinner` is called at server.js:181 but defined nowhere. The parameter stands in for the missing check, and `BetRoom.BingoClaimAsWritten` models the file as it stands;
- the payment gateway's verdicts;
- transaction references;
- the clock;
- "same day"/"same week" in the earnings update.

## Model

| member | source | states |
|---|---|---|
| Records.MatchPhone | models/User.ts:24 | a phone number is accepted exactly when it is "09" followed by eight digits |
| Records.NewUser | models/User.ts:31-59 | a new user has wallet and all earnings 0, is active, and has role `user` unless a role is given; it is valid iff its phone is |
| Records.ResetDailyEarnings | models/User.ts:81-84 | only the daily counter changes, to 0, and a valid user stays valid |
| Records.ResetWeeklyEarnings | models/User.ts:87-90 | only the weekly counter changes, to 0, and a valid user stays valid |
| Records.NewTransaction | models/Transaction.ts:31-35 | the status defaults to pending, and the other fields are as given |
| Records.SaveNew | models/Transaction.ts:26-40 | an entry is stored iff its amount is non-negative and its reference is new; it is appended; ledger validity is kept |
| Round.JoinGame | sockets/gameSocket.ts:50-78 | a missing game is reported; a waiting game whose start time has come becomes active and gets a timer; nothing else changes |
| Round.JoinIsIdempotent | sockets/gameSocket.ts:70-72 | joining twice has the effect of joining once |
| Round.AdvanceGame | sockets/gameSocket.ts:196-221 | a non-active game is untouched; at the last index the game completes with no new winner; otherwise the index grows by one, the number there is called, and every other field of the game is kept |
| Round.Tick | sockets/gameSocket.ts:192-236 | only the ticked game and the timers change; a missing or inactive game only loses its timer; the timer is cleared exactly when the game stops being active |
| Round.RunTicksAdvances | sockets/gameSocket.ts:193-234 | repeated ticks act on the game as repeated single-game steps |
| Round.TicksCallNextNumbers | sockets/gameSocket.ts:217-221 | while numbers remain, n ticks call the next n numbers of the sequence in order, and the game stays active with its winner unchanged |
| Round.ExhaustedGameEndsWithoutWinner | sockets/gameSocket.ts:203-214 | a game that runs out of numbers ends completed with its winner unchanged, after calling every remaining number once |
| Round.DeclareBingo | sockets/gameSocket.ts:88-184 | a claim failing a guard changes nothing; a losing claim only blocks the card; a winning claim completes the game with the caller as winner, clears the timer, credits the prize to wallet and all three earnings, records the win and appends one completed winning entry; nothing else in the state changes. When the credit fails validation, only the card, game and timer writes remain; when the entry fails, the credit and win record remain too, and the ledger is left as it was |
| Round.DeclareBingoAsWritten | sockets/gameSocket.ts:91-110 | with the lean card record every claim fails and changes nothing |
| Round.AsWrittenFalseClaimNeverBlocks | sockets/gameSocket.ts:170-173 | as written a false claim leaves the card able to claim again; the intended handler blocks it |
| Round.AsWrittenWinNeverPays | sockets/gameSocket.ts:107-116 | as written a winning claim leaves the game active; the intended handler completes it |
| Round.ClaimAcceptsCardOfAnotherGame | sockets/gameSocket.ts:93-102 | the guards never compare the card's game with the claimed game, so a card of another game can win |
| Round.CompletedGameIsFinal | sockets/gameSocket.ts:99-102 | after completion, no join, tick or claim changes the game, cards, wallets or ledger |
| Round.RoundPaysAtMostOnce | sockets/gameSocket.ts:99-161 | over any sequence of joins, ticks and claims, a game records at most one winning entry |
| Purchase.PurchaseCard | controllers/gameController.ts:55-118 | the state is unchanged iff a guard fails (missing game, not waiting, two cards held, missing user, short wallet); on success there is exactly one new card, the wallet drops by the price, and one completed purchase entry is recorded; user validity is kept. When the debited user fails validation only the new card remains; when the entry is refused the card and the debit remain |
| Purchase.ReusedReferenceLeavesUnrecordedCard | controllers/gameController.ts:88-118 | a purchase under a reference already in the ledger keeps the new card and the debit but records no purchase entry |
| Purchase.PurchaseKeepsCardLimit | controllers/gameController.ts:71-74 | no user ever holds more than two cards of a game |
| Sessions.BuySession | routes/game.ts:10-63 | a card held live at that bet, a missing user or a short wallet is refused with no change; otherwise exactly the bet is debited and one active session added; no two live sessions share card and bet |
| Sessions.RefundSession | routes/game.ts:130-173 | only the caller's own active session on the card is refunded, by its bet; the deletion removes the first of the caller's sessions on the card, whatever its status |
| Sessions.RefundSessionFixed | routes/game.ts:139-162 | the refunded session itself is removed, and the other sessions are kept |
| Sessions.BuyConservesFunds | routes/game.ts:43-55 | buying moves the bet from the wallet into the user's active stake |
| Sessions.RefundFixedConservesFunds | routes/game.ts:150-162 | the refund moves the bet from the stake back into the wallet, so wallet plus stake is conserved |
| Sessions.BuyThenRefundRestores | routes/game.ts:43-162 | buying then refunding restores the whole state |
| Sessions.BuyThenRefundAsWrittenRestoresWallet | routes/game.ts:43-156 | buying then refunding as written restores every wallet |
| Sessions.RefundAsWrittenPaysTwice | routes/game.ts:139-162 | with an older non-active session on the same card, a stake of 10 is refunded twice, for 20 |
| Sessions.RefundFixedPaysOnce | routes/game.ts:139-162 | on the same state the fixed refund pays 10 once and then reports the session missing |
| Sessions.PostHistory | routes/game.ts:270-298 | the history entry is always saved; an existing winner gets the prize in wallet and all three earnings; the ledger never changes |
| Sessions.HistoryPaysOnEveryPost | routes/game.ts:270-292 | posting the same result twice pays the winner twice |
| Sessions.PutWallet | routes/game.ts:312-329 | the wallet is set to the amount with every other field kept; a negative amount breaks the wallet floor |
| Sessions.SetSessionStatus | routes/game.ts:115-127 | only the given session's status changes |
| Sessions.StatusUpdateCanDuplicateLive | routes/game.ts:115-127 | the status update can create two live sessions on one card and bet |
| BetRoom.Seat | server.js:93-114 | the player joins the first open room of the bet, or a new open room when there is none |
| BetRoom.SelectCard | server.js:65-156 | a card in an open room of the bet, or a user already seated there, is refused with no change; otherwise the player is seated, the first counter gets the room size, the announced count is the room size, and a lock is scheduled iff at least two players are seated |
| BetRoom.SelectCardKeepsRooms | server.js:69-114 | there is at most one open room per bet, and cards and users are distinct within each room |
| BetRoom.Lock | server.js:133-141 | the lock closes only that room and announces the start |
| BetRoom.LockKeepsRoomsAndIsIdempotent | server.js:133-135 | locking keeps the room invariant, and a second lock changes nothing |
| BetRoom.Reopen | server.js:144-152 | a fresh counter (0 players, 30 s, accepting) is appended |
| BetRoom.ReopenedCounterIsNeverUpdated | server.js:117-121 | when an older counter for the bet exists, selections keep updating the older one and the fresh one stays at 0 |
| BetRoom.InitializeActiveBets | server.js:209-224 | existing counters are kept. Each appended counter is fresh and belongs to a starting amount that had no counter before it, so each missing amount gets exactly one. Every starting amount ends with a counter, and nothing is added when all exist |
| BetRoom.BingoClaim | server.js:159-201 | an unknown room, unknown player or blocked player is refused with no change; a win sets the winner and announces bet × players; a loss blocks the player; wallets and ledger never change |
| BetRoom.BingoClaimAsWritten | server.js:159-181 | as the file stands, a claim past the guards throws at the undefined win check: nothing changes and nothing is announced |
| BetRoom.AsWrittenClaimDecidesNothing | server.js:181-199 | as the file stands, an allowed claim leaves the room as it is; with any win check supplied, it either declares the claimant winner or blocks the claimant |
| BetRoom.ClaimKeepsRooms | server.js:175-199 | claims keep the room invariant |
| BetRoom.SecondWinnerOverwrites | server.js:181-193 | a second winning claim replaces the first winner |
| BetRoom.BingoClaimOnce | server.js:183-187 | a room with a winner refuses further claims; otherwise it behaves as the claim above |
| BetRoom.WinnerIsFinal | server.js:183-187 | with the corrected claim, the winner never changes once declared |
| Wallet.InitializeDeposit | controllers/walletController.ts:51-102 | for a known user and an accepting gateway, one pending deposit is recorded under a new reference; wallets never change |
| Wallet.CreditPending | controllers/walletController.ts:112-123 | only a pending entry is credited: it is marked completed and its amount added to its owner's wallet; otherwise nothing changes; ledger and user validity are kept |
| Wallet.CreditIsIdempotent | controllers/walletController.ts:114-121 | replaying a reference credits nothing more |
| Wallet.VerifyDeposit | controllers/walletController.ts:107-132 | a failed gateway verdict is refused with no change; wallets change only for a pending entry and a successful verdict |
| Wallet.HandleWebhook | controllers/walletController.ts:137-160 | a status other than success changes nothing; wallets change only for a pending entry |
| Wallet.VerifyThenWebhookCreditsOnce | controllers/walletController.ts:113-150 | verification and webhook together credit a deposit once |
| Wallet.CreditIgnoresEntryType | controllers/walletController.ts:141-152 | a pending withdrawal's reference is credited like a deposit |
| Wallet.RequestWithdrawal | controllers/walletController.ts:165-194 | an unknown user, a short wallet or an amount under 50 is refused with no change; otherwise one pending withdrawal is recorded and exactly the amount is debited, and the wallet stays non-negative. A refused entry writes nothing; a refused debit leaves the pending entry with no funds reserved |
| Accounts.UpdateWallet | controllers/userController.ts:6-27 | a debit above the wallet is refused with no change; otherwise wallet += amount |
| Accounts.WalletGuardIsTheFloor | controllers/userController.ts:16-21 | for a valid user the adjustment is accepted iff the wallet stays non-negative |
| Accounts.UpdateEarnings | controllers/userController.ts:29-74 | the amount is added to wallet, total earnings and the (possibly reset) daily and weekly counters |
| Accounts.EarningsAfterReset | controllers/userController.ts:43-61 | on a new day the daily counter equals the amount, and on a new week the weekly counter does |
| Admin.UpdateUser | controllers/adminController.ts:48-67 | exactly the given fields change, and the save still validates |
| Admin.EmptyUserUpdateChangesNothing | controllers/adminController.ts:57-61 | an update with no field leaves the state as it is |
| Admin.UpdateTransactionAsWritten | controllers/adminController.ts:180-206 | as written only the status of the entry changes, and no wallet ever does |
| Admin.RefundWithdrawal | controllers/adminController.ts:193-197 | a missing owner is skipped; the save throws exactly when the credited owner fails validation; otherwise the amount returns to the owner's wallet and nothing else changes |
| Admin.UpdateTransaction | controllers/adminController.ts:180-206 | rejecting a pending withdrawal returns its amount before the status is stored. A failed owner save answers the generic error with nothing written. Any other update changes only the ledger entry |
| Admin.FailedRefundWritesNothing | controllers/adminController.ts:193-200 | when the refunded owner would stay below zero, the corrected update fails and leaves the entry pending |
| Admin.AsWrittenRejectionKeepsFundsReserved | controllers/adminController.ts:189-198 | as written a rejected withdrawal keeps the funds debited; the corrected update returns them |
| Admin.UpdateGame | controllers/adminController.ts:129-151 | status and winner are set when given; the end time is stamped only for `completed` with none present; an existing end time is never overwritten |
| Admin.UpdateGameIsIdempotent | controllers/adminController.ts:141-143 | repeating an update, even later, changes nothing more |
| Paging.ParamOr | routes/transactions.ts:10-11 | an absent, non-numeric or zero parameter takes the default, and any other value is kept |
| Paging.ConsecutivePagesAdjoin | routes/transactions.ts:17-39 | with a positive limit, page p + 1 starts where page p ends, and the two pages together are the two-page window |
| Paging.EntryOnItsPage | routes/transactions.ts:17-39 | with a positive limit, entry k is shown on page k / limit + 1 at position k mod limit |
| Paging.CeilDiv | routes/transactions.ts:42 | the page count is the ceiling of total / limit |
| Paging.PagesCoverEntries | routes/transactions.ts:42 | every entry's page lies below the page count |
| Paging.AdminPages | controllers/adminController.ts:18-27 | a zero limit gives no integer page count; otherwise the ceiling |
| Reports.ComputeNetBalance | routes/transactions.ts:142-176 | the one-pass net balance equals winnings + deposits − withdrawals − purchases over completed entries; this is the figure of the corrected route |
| Reports.StatsOverview | routes/transactions.ts:135-176 | corrected route: the count covers the user's entries, and the net balance is the totals' signed sum, equal to the per-user net balance; unfiltered, purchases − winnings is the admin profit |
| Reports.StatsOverviewAsWritten | routes/transactions.ts:135-176 | as written: unfiltered, the figures are the corrected ones; with a user filter the count is right but every total and the net balance are 0 |
| Reports.UserStatsAsWrittenMissDeposit | routes/transactions.ts:137-158 | one completed deposit of 100: as written the user's net balance is 0 (with a count of 1), while the corrected figure is 100 |
| Reports.PurchaseRaisesProfit | controllers/adminController.ts:219-272 | a purchase raises the profit by the price and lowers the buyer's net balance, as the corrected statistics route reports it, by the price |
| Reports.WinLowersProfit | controllers/adminController.ts:237-272 | a paid win lowers the profit by the prize and raises the winner's net balance, as the corrected statistics route reports it, by the prize |
| Reports.DepositCreditRaisesNetBalance | routes/transactions.ts:142-176 | crediting a deposit raises its owner's net balance, as the corrected statistics route reports it, by the amount |
| Reports.UserTransactions | routes/transactions.ts:64-106 | a negative skip is an error. The total counts all matching entries. The page holds exactly min(limit, total − skip) entries, or none past the end. Its j-th entry is the (skip + j)-th matching entry counted from the newest |
| Catalog.RefusedIsOutOfRange | routes/games.ts:13-18 | the create check refuses exactly the amounts outside 1..10000, including absent and zero |
| Catalog.CreateBetGame | routes/games.ts:8-39 | an accepted amount adds one game under a fresh id; the range invariant is kept |
| Catalog.UpdateBetGame | routes/games.ts:113-151 | the range check runs only for a non-zero amount; an absent amount changes nothing |
| Catalog.UpdateAcceptsZero | routes/games.ts:118-129 | updating with zero is accepted and breaks the range invariant |
| Catalog.UpdateByBet | routes/games.ts:154-187 | with an accepted new amount, exactly the games of the old amount change; the range invariant is kept |
| Catalog.DeleteBetGame | routes/games.ts:190-214 | exactly that game is removed, or not-found is reported |
| Catalog.DeleteByBet | routes/games.ts:217-238 | exactly the games of that amount are removed |
| Catalog.DeleteAllBetGames | routes/games.ts:241-260 | the catalog is emptied |
| Catalog.DeletesKeepRange | routes/games.ts:190-260 | deletes keep the range invariant, and a bulk update after deleting that amount changes nothing |

## Left out

- The document store itself. Populate, projections and the read-only GET handlers other than the statistics overview and the user-scoped listing are left out. Newest first is taken to be reverse insertion order. Collections are maps and sequences, and ids are map keys or positions.
- Socket transport, rooms and socket authentication. The `join-bet` handler of the legacy server only reads and is left out. Emits to a single caller become the reply, and room broadcasts become events.
- Timers. Each interval firing (`Round.Tick`), the lock (`BetRoom.Lock`) and the lobby reset (`BetRoom.Reopen`) is an explicit call. Their scheduling is not modelled, and an admin status change neither starts nor stops a number timer.
- The pattern check, prize rule, card generator and the legacy win check, which the server never defines, are parameters. The legacy room record keeps no called numbers, so its win check always receives the empty sequence.
- The payment gateway. It is a boolean verdict. Gateway exceptions become `ServerError`.
- Authentication, password hashing, OTP and JWT. The phone `trim` is not modelled either.
- Date arithmetic. "Same day" and "same week" in the earnings update are inputs. The source compares only the day of the month for the daily reset. The weekly comparison of userController.ts:48-54 compares instants that keep their time of day, so in practice it resets on almost every update. Dates otherwise are integers.
- The catalog update by id assumes two things. `runValidators` adds no check of its own, since the Games schema is not part of this model. An `undefined` amount is dropped from the update rather than stored.
- Floating-point money. Amounts are integers. Strings that name an enum value outside the enum are not modelled: the types exclude them.
- Concurrency. Handlers run one at a time and atomically, so the races between reads and writes in the source do not arise.
- The bulk session and history deletes (`routes/game.ts:175-194`, `300-309`). The admin creation of scheduled games. The Game, GameSession, GameHistory, Games and Winning schemas are not part of this model. Their saves are taken to succeed.
- Round.JoinGame: the current-number message sent to a joiner of an active game is not modelled.
- BetRoom.SelectCard: the contract states the first event and the presence of the lock event, not the full event list.

## Findings

| source | as written | input that shows it | evidently intended | confidence | as-written member | corrected member |
|---|---|---|---|---|---|---|
| sockets/gameSocket.ts:91 | the card is read with `.lean()`, so `card.save()` at lines 110 and 173 is not a function and every claim ends in the generic error with nothing written | any claim passing the guards, winning or not | a win completes the game and pays; a loss blocks the card | high, not executed | Round.DeclareBingoAsWritten (Round.AsWrittenWinNeverPays) | Round.DeclareBingo (Round.RoundPaysAtMostOnce) |
| controllers/adminController.ts:189-192 | the status is overwritten before the refund test reads it, so `status === 'failed' && transaction.status === 'pending'` never holds | rejecting a pending withdrawal of 100 with status `failed` | the reserved 100 returns to the wallet | high, not executed | Admin.UpdateTransactionAsWritten (Admin.AsWrittenRejectionKeepsFundsReserved) | Admin.UpdateTransaction (Admin.AsWrittenRejectionKeepsFundsReserved) |
| routes/game.ts:159-162 | the refund deletes the first session matching card and user only, not the active session it refunded | sessions [(user 0, card 5, bet 10, completed), (user 0, card 5, bet 10, active)], wallet 0: two refunds give wallet 20 | the refunded session is deleted, so a stake is refunded once | high, not executed | Sessions.RefundSession (Sessions.RefundAsWrittenPaysTwice) | Sessions.RefundSessionFixed (Sessions.RefundFixedConservesFunds, Sessions.RefundFixedPaysOnce) |
| server.js:183-187 | once a win check is supplied for the undefined `checkIfWinner`, a winning claim never checks for an existing winner, so a second winning claim replaces the first | two seated, unblocked players whose cards both pass the win check | the first winner stands and later claims are refused | medium, not executed | BetRoom.BingoClaim (BetRoom.SecondWinnerOverwrites) | BetRoom.BingoClaimOnce (BetRoom.WinnerIsFinal) |
| server.js:181 | `checkIfWinner` is called but defined nowhere, so every claim past the guards throws and neither declares a winner nor blocks | any seated, unblocked player's claim | the card is checked, and the claimant either wins or is blocked | high, not executed | BetRoom.BingoClaimAsWritten (BetRoom.AsWrittenClaimDecidesNothing) | BetRoom.BingoClaim (BetRoom.AsWrittenClaimDecidesNothing) |
| routes/transactions.ts:137-158 | the query-string `userId` goes uncast into the aggregate `$match` stages, where the stored owner is an object id, so with a user filter every total is 0 | one completed deposit of 100 by user u, then the overview for u: net balance 0 | the user's own totals and net balance | high, not executed | Reports.StatsOverviewAsWritten (Reports.UserStatsAsWrittenMissDeposit) | Reports.StatsOverview (Reports.ComputeNetBalance) |
