# Verified model of the trading arithmetic

This project models the part of the repository that decides and accounts for trades, the `schwab` subapp, and proves
what that code promises:

- **Realized P&L** (`Fifo`, `FifoLaws`, `FifoKeys`, `FifoValues`): the FIFO lot matcher, with partial closes and
  flips.
- **CSV export** (`Csv`, `CsvCells`): the admin CSV printer, against a parser written from section 2 of RFC 4180.
- **Token refresh** (`Auth`, `AuthSafety`, `AuthStale`, `AuthTimes`, `AuthClock`, `AuthRuns`): the single-flight OAuth
  refresh as atomic steps cut at every `await`, interleaved in any order with a server that rotates refresh tokens
  (RFC 6749, sections 6 and 10.4).
- **The paper ledger and its calendar** (`Ledger`, `LedgerLaws`, `LedgerPrices`, `Brakes`, `Gates`, `Calendar`,
  `LedgerCalendar`): cash, one open position, partial sales, resets and re-entry brakes; and the calendar rebuilt from
  trade rows and capital marks.
- **The exit ladder** (`Ladder`, `LadderLaws`, `LadderFormulas`, `Live`, `LiveClock`): the profit lock, the time stop
  and the scale-out, one tick at a time and over whole runs, and the live tick loop around them; `Engine` ties that
  loop's book to the ledger's.
- **Votes and size** (`Votes`, `Sizing`): how strategies' votes are combined, and how many contracts an entry buys.
- **Session replay** (`Bars`, `Osi`, `Replay`, `ReplayChain`, `ReplayTerms`, `ReplayLaws`, `ReplayPrices`,
  `ReplayAhead`, `ReplayInputs`, `LiveReplay`): bars, option symbols, the scan with its holding loop, and what ties it
  to the live loop.

`Seqs` holds the sums, filters and stable sort the rest shares, `Text` decimal text, `Multiples` products and whole
multiples, and `Market` the words they share.

Loops and state follow the source: a loop is a method proved equal to a recursive specification function, and an
object whose fields are updated is a class (`Ledger.Trainer`, `Live.Desk`) whose methods state the whole new state.
The theorems are about those functions. Ledger money is whole cents; ladder and replay premiums are exact reals with
an explicit round to the cent; times are epoch milliseconds; dates are day numbers; clock labels are minutes of the
day.

## What the proofs found

Where a promise fails, the model keeps the code's behaviour, a lemma gives an input, and another says exactly when the
promise holds.

- The comment on the ladder says a new high cannot flatten itself. It does exactly when it is at the disaster level
  the entry was stamped with, since that level is not capped under the peak (`LadderLaws.NewHighStopsExactly`). For an
  armed new high this only happens within rounding of zero (`NewHighNeverStopsItself`, `NewHighCanStopItself`); before
  the lock arms it happens at ordinary premiums (`UnarmedNewHighStopsItself`).
- The clock is documented to spare a trade at +2%. It does exactly when breakeven is at most 1.02 times the entry
  (`LadderLaws.GoingTradesAreSparedExactly`, `GoingTradeCanBeScratched`).
- A stop is documented to block its direction for a minute. A stop of the other direction within that minute
  overwrites it (`Brakes.BlockHoldsExactly`, `OtherStopForgetsTheBlock`).
- `positionEffect` is documented as an override of the fill's sign and never changes it
  (`Fifo.EffectNeverChangesSign`).
- Splitting a key at `::` mislabels symbols that contain `::` or end in a colon (`FifoKeys.LabelIsFaithful`,
  `LabelCanMislead`).
- A refresh sends a spent token exactly when the row it was handed was read before another refresh of that row was
  stored (`AuthStale.ResendsExactlyWhenOvertaken`, `AuthRuns.StaleRowResendsASpentToken`).
- A refusal that is handled late deletes a live connection exactly when the row under its id has come to hold another
  token, which the service could test before it deletes (`AuthStale.RefusalDeletesLiveRowExactly`,
  `AuthRuns.LateRefusalUndoesReconnect`). A reconnect answered without a refresh token deletes a connection that was
  still good exactly when the row it found is still there and no refresh of it has been taken and not stored yet
  (`AuthStale.PartialReconnectDeletesExactly`, `AuthRuns.PartialReconnectDeletesLiveRow`).
- Rows recorded in the baseline's own millisecond are dropped from every later opening balance
  (`LedgerCalendar.CalendarAgreesExactly`, `TiedResetIsLost`), and weekend closes are missing from the month's P&L
  (`Calendar.MonthReconciles`, `SaturdayCloseIsMissing`).
- A CSV of rows without any key does not read back (`Csv.RoundTrip`, `BlankRowDoesNotReadBack`).
- A one-vote agreement is not a weaker quorum: it can fire against a two-vote majority (`Votes.OneVoteAgreesExactly`,
  `OneVoteCanDisagree`).
- On recorded minute bars the replay enters inside the minute whose close it was decided by, whenever the chain was
  sampled in that minute; on spot bars it never does (`ReplayLaws.EntryWaitsForTheCloseExactly`,
  `ReplayInputs.MinuteBarsLookAhead`).
- A session without an expiration of its own uses that of any later snapshot: on spot bars that is the one thing a
  replay knows early (`ReplayAhead.OnlyTheExpirationIsForeseen`, `ReplayInputs.LateExpirationIsForeseen`).
- The replay hands its older trail the quantity where a commission is expected, so that trail's breakeven does not
  cover the commission of a one-contract position at the default rate (`ReplayLaws.TrailBreakevenCoversExactly`,
  `TrailBreakevenMissesOneContract`).
- The replay does not raise the stop to breakeven after a scale-out as the live loop does, so positions of two or more
  contracts can part (`LiveReplay.ReplayMatchesLiveExactly`, `AlwaysMatchesExactly`, `TwoContractsCanPart`). The
  sizing cap of one contract hides it: in a replay the scale-out setting changes nothing
  (`ReplayLaws.CapMakesScaleOutInert`).
- Strikes that round to one thousandth share a symbol (`Osi.SymbolsCollideExactly`, `CloseStrikesCollide`). No chain
  lists such strikes, so this is a limit of the functions, not a fault seen in a session.

## Model

| member | source | states |
|---|---|---|
| `Fifo.EffectNeverChangesSign` | src/subapps/schwab/pnl/fifo-matcher.util.ts:54-64 | the sign of a fill is its instruction's, whatever its position effect |
| `Fifo.MatchFills` | src/subapps/schwab/pnl/fifo-matcher.util.ts:72-147 | the call's loops produce the matches of every key, keys in first-seen order |
| `Fifo.GroupFills` | src/subapps/schwab/pnl/fifo-matcher.util.ts:73-80 | each key is listed once, in first-seen order, with exactly its own fills in call order |
| `Fifo.MatchKey` | src/subapps/schwab/pnl/fifo-matcher.util.ts:92-143 | one key's loop leaves the matches the lot-queue function gives |
| `Fifo.AbsorbFill` | src/subapps/schwab/pnl/fifo-matcher.util.ts:96-132 | the while loop leaves the queue, remainder and matches of closing against the oldest lots |
| `FifoLaws.OpenLotsAreNetPosition` | src/subapps/schwab/pnl/fifo-matcher.util.ts:92-143 | after any fills the open lots are positive and of one direction, and their signed sum is the net signed quantity |
| `FifoLaws.FillsAreConserved` | src/subapps/schwab/pnl/fifo-matcher.util.ts:95-143 | each fill's size is what was matched with it as closer, plus as opener, plus what still rests |
| `FifoLaws.CashIdentity` | src/subapps/schwab/pnl/fifo-matcher.util.ts:107-142 | realized P&L is the net cash of the fills plus the entry cost of the lots still open, times the multiplier |
| `FifoLaws.FlatPnlIgnoresPairing` | src/subapps/schwab/pnl/fifo-matcher.util.ts:107-142 | when the fills net to zero no lot is left and realized P&L depends on the fills alone, not on the pairing |
| `FifoLaws.MatchesAreBounded` | src/subapps/schwab/pnl/fifo-matcher.util.ts:95-143 | n fills of a key give at most n - 1 matches, open lots counting against them |
| `FifoLaws.OldestLotFirst` | src/subapps/schwab/pnl/fifo-matcher.util.ts:98-142 | openers, then the lots still open, appear in sorted order, so a lot is touched only when older ones are spent; nothing closes before it opened |
| `FifoKeys.KeysAreInjective` | src/subapps/schwab/pnl/fifo-matcher.util.ts:75-76 | two fills share a group if and only if they agree on symbol and source |
| `FifoKeys.LabelIsFaithful` | src/subapps/schwab/pnl/fifo-matcher.util.ts:85-86 | matches carry their fills' symbol and source if and only if the symbol has no "::" and no trailing colon |
| `FifoKeys.LabelCanMislead` | src/subapps/schwab/pnl/fifo-matcher.util.ts:85-86 | fills on a symbol p::q are reported as symbol p of source q |
| `FifoKeys.MatchesPairFills` | src/subapps/schwab/pnl/fifo-matcher.util.ts:99-132 | every match joins two fills of opposite sides with their own ids, prices and times, and no more than either's size |
| `FifoKeys.GroupsAreIsolated` | src/subapps/schwab/pnl/fifo-matcher.util.ts:66-147 | what the loop makes of one key is what a call with that key's fills alone makes, whatever else is in the call |
| `FifoKeys.MatchesAreIsolated` | src/subapps/schwab/pnl/fifo-matcher.util.ts:66-147 | the matches labelled with a fill's symbol and source are those of its own fills alone, if no other key of the call splits to that label |
| `FifoKeys.UnambiguousLabels` | src/subapps/schwab/pnl/fifo-matcher.util.ts:75-86 | no other key of a call splits to a fill's label if every symbol of the call has no "::" and no trailing colon |
| `FifoKeys.GroupIsOldestFirst` | src/subapps/schwab/pnl/fifo-matcher.util.ts:84-143 | oldest-first order, no close before its open and the n - 1 bound, for every group of an unsorted call |
| `FifoKeys.FlatGroupRealizesItsCash` | src/subapps/schwab/pnl/fifo-matcher.util.ts:84-143 | a group that nets to zero realizes exactly its cash, in whatever order the call listed it |
| `FifoValues.MultiplierExactly` | src/subapps/schwab/pnl/fifo-matcher.util.ts:44-52 | a symbol has multiplier 100 if and only if, whitespace aside, it holds six digits, C or P and eight digits, and 1 otherwise |
| `FifoValues.ListedOptionsCountHundredfold` | src/subapps/schwab/pnl/fifo-matcher.util.ts:44-52 | every symbol the chain prints for a listed strike, call or put, has multiplier 100 |
| `FifoValues.MatchesAreValued` | src/subapps/schwab/pnl/fifo-matcher.util.ts:72-147 | every match of a call is made from a buy and a sell of one symbol and source, and realizes its points times 100 if its symbol is an option's, times 1 if not |
| `Csv.RowsToCsv` | src/subapps/schwab/admin/admin-user-csv.util.ts:9-32 | the loops print the byte order mark, the header and one record a row |
| `Csv.CollectColumns` | src/subapps/schwab/admin/admin-user-csv.util.ts:12-21 | the column loop yields the keys of all rows without repeats |
| `Csv.AddKeys` | src/subapps/schwab/admin/admin-user-csv.util.ts:15-20 | one row's keys extend the columns, and the seen set stays the set of columns |
| `Csv.ColumnsAreFirstSeen` | src/subapps/schwab/admin/admin-user-csv.util.ts:12-21 | the columns are exactly the keys, each once, in the order each was first met |
| `Csv.HeaderIsTheKeys` | src/subapps/schwab/admin/admin-user-csv.util.ts:12-23 | the header lists every key of every row once and nothing else |
| `Csv.RoundTrip` | src/subapps/schwab/admin/admin-user-csv.util.ts:9-55 | reading the file by RFC 4180 gives back the header and every cell if and only if some row has a key |
| `Csv.BlankRowDoesNotReadBack` | src/subapps/schwab/admin/admin-user-csv.util.ts:23-31 | one row without keys prints two blank lines, which do not read back as its table |
| `Csv.FileDeterminesTable` | src/subapps/schwab/admin/admin-user-csv.util.ts:9-55 | two exports with the same bytes list the same header and cells |
| `CsvCells.CellsReadBack` | src/subapps/schwab/admin/admin-user-csv.util.ts:23-48 | read back, the cell of a row at a column is the text of the value the row holds under that key, and is empty if and only if it holds none or one that prints as nothing |
| `CsvCells.QuotedOnlyWhenNeeded` | src/subapps/schwab/admin/admin-user-csv.util.ts:50-55 | a field is printed as it is if and only if it holds no quote, comma or line break |
| `AuthSafety.StepKeeps` | src/subapps/schwab/auth/schwab-auth.service.ts:145-500 | every atomic step of callers, cron, callbacks, store and server keeps the protocol invariant |
| `AuthSafety.RunKeeps` | src/subapps/schwab/auth/schwab-auth.service.ts:145-500 | the invariant holds after every interleaving from a started service |
| `AuthSafety.OneRefreshPerUser` | src/subapps/schwab/auth/schwab-auth.service.ts:296-307 | at no time are two refreshes outstanding for one user |
| `AuthSafety.CallersGetTheirOwnToken` | src/subapps/schwab/auth/schwab-auth.service.ts:233-307 | every token a caller gets, from cache, store or a joined refresh, was issued to that caller's user |
| `AuthClock.ExpiresOnce` | src/subapps/schwab/auth/schwab-auth.service.ts:453-488 | over every run a grant has one expiry: the clock its answer was taken at plus the seconds it was issued for |
| `AuthClock.AnswersAreStoredExactly` | src/subapps/schwab/auth/schwab-auth.service.ts:426-488 | over every run an answer is stored, with the grant's one expiry, exactly unless the user has come to have a row under another id; nobody else's row is touched |
| `AuthClock.CallsGetUnexpiredGrants` | src/subapps/schwab/auth/schwab-auth.service.ts:233-237 | over every run a call is answered from the cache if and only if the user has a cached grant that, as issued, has not expired, and with that grant |
| `AuthClock.ReadersGetGrantsBeyondTheBuffer` | src/subapps/schwab/auth/schwab-auth.service.ts:239-277 | over every run a caller that read the table is answered without a refresh if and only if it did not force one and its grant, as issued, expires more than the buffer later |
| `AuthClock.ForcingForgetsTheCache` | src/subapps/schwab/auth/schwab-auth.service.ts:268-277 | a forced refresh leaves the user nothing cached, so the next call reads the table |
| `AuthClock.CronRefreshesExactly` | src/subapps/schwab/auth/schwab-auth.service.ts:209-231 | over every run the cron takes up every stored row it read, and passes one over if and only if its grant was then good for more than the buffer |
| `AuthSafety.WaitersGetTheRefreshedGrant` | src/subapps/schwab/auth/schwab-auth.service.ts:296-307 | a caller that joined or started a refresh is answered when it ends, with what the server issued to that refresh or with nothing |
| `AuthSafety.StoredTokenIsLive` | src/subapps/schwab/auth/schwab-auth.service.ts:359-488 | a stored refresh token has been rotated away only while a refresh of that user is outstanding |
| `AuthStale.SpentIsRedeemed` | src/subapps/schwab/auth/schwab-auth.service.ts:359-372 | over any run a refresh token is spent if and only if it was before, or an event of the run redeemed it |
| `AuthClock.RedeemedOnce` | src/subapps/schwab/auth/schwab-auth.service.ts:281-292 | over every run no refresh token is redeemed twice |
| `AuthStale.HandedWasRead` | src/subapps/schwab/auth/schwab-auth.service.ts:209-307 | every row handed to a refresh was read at an event of the run, as the row stored then |
| `AuthStale.ResendsExactlyWhenOvertaken` | src/subapps/schwab/auth/schwab-auth.service.ts:209-307 | a hand-over sends a spent token if and only if the store was told of a refresh that redeemed it after the row was read |
| `AuthStale.RefusalDeletesLiveRowExactly` | src/subapps/schwab/auth/schwab-auth.service.ts:373-401 | over every run a handled refusal, or an answer without a new token, deletes a live connection if and only if the row under that id now holds another token; no other user's row is touched |
| `AuthStale.PartialReconnectDeletesExactly` | src/subapps/schwab/auth/schwab-auth.service.ts:161-166 | over every run a reconnect answered without a refresh token deletes a connection whose token is not spent if and only if the row it found is still there and no refresh of it was taken and not stored yet; no other user's row is touched |
| `AuthSafety.FreshRunsNeverResend` | src/subapps/schwab/auth/schwab-auth.service.ts:209-307 | if every row handed over is the one stored at that moment, no spent token is ever sent |
| `AuthRuns.StaleRowResendsASpentToken` | src/subapps/schwab/auth/schwab-auth.service.ts:268-307 | a run of two callers in which a stale row re-sends a spent token and the dead reply deletes the live row |
| `AuthRuns.LateRefusalUndoesReconnect` | src/subapps/schwab/auth/schwab-auth.service.ts:373-398 | a run in which a refusal arriving after a reconnect deletes the new row |
| `AuthRuns.PartialReconnectDeletesLiveRow` | src/subapps/schwab/auth/schwab-auth.service.ts:161-166 | a run in which a reconnect answered without a refresh token deletes the row holding an unspent one |
| `Ledger.Trainer.constructor` | src/subapps/schwab/bot-v2/bot-v2-engine.service.ts:821-845 | a new book and row are empty, with the starting cash |
| `Ledger.Trainer.EvaluateEntry` | src/subapps/schwab/bot-v2/bot-v2-engine.service.ts:380-543 | an entry pays the fill and its leg fee, opens one position, and happens only if every brake allows it |
| `Ledger.Trainer.SellSlice` | src/subapps/schwab/bot-v2/bot-v2-engine.service.ts:675-735 | a slice writes its trade row, moves the cash, and shortens or closes the position |
| `Ledger.Trainer.CloseNoted` | src/subapps/schwab/bot-v2/bot-v2-engine.service.ts:755-772 | a losing premium stop sets the block and the streak, any other full close clears the streak |
| `Ledger.Trainer.OnTick` | src/subapps/schwab/bot-v2/bot-v2-engine.service.ts:277-315 | a tick moves the peak and sells what the ladder decided |
| `Ledger.Trainer.FlattenBook` | src/subapps/schwab/bot-v2/bot-v2-engine.service.ts:659-673 | flattening sells the whole position at the best bid seen, or the entry price |
| `Ledger.Trainer.ResetPaper` | src/subapps/schwab/bot-v2/bot-v2.controller.ts:114-128 | a reset is refused while a position is open, and otherwise records what it adds |
| `Ledger.Trainer.EnsureBaseline` | src/subapps/schwab/bot-v2/bot-v2-calendar.service.ts:182-206 | at most one baseline, and only while flat |
| `LedgerLaws.SaleBalances` | src/subapps/schwab/bot-v2/bot-v2-engine.service.ts:687-717 | a sale turns the slice's tied-up cost into cash plus exactly its recorded net P&L |
| `LedgerLaws.SalesNeverCost` | src/subapps/schwab/bot-v2/bot-v2-engine.service.ts:687-717 | every sale at every bid brings cash in if and only if the leg fee is at most a dollar |
| `LedgerPrices.TickSalesPayTheSlippage` | src/subapps/schwab/bot-v2/bot-v2-engine.service.ts:277-315 | over every run a tick sells the slice decided, a slippage under its bid but for at least a cent; the row's figures and the cash follow from the two prices |
| `LedgerPrices.FlattenSellsAtTheBest` | src/subapps/schwab/bot-v2/bot-v2-engine.service.ts:659-735 | over every run flattening sells the whole position a slippage under the best bid shown since its entry, or under its entry price if none was positive |
| `LedgerPrices.EntriesPayTheSlippage` | src/subapps/schwab/bot-v2/bot-v2-engine.service.ts:502-545 | over every run an entry is bought a slippage over its ask, pays that and one leg fee out of the cash it had, and sells nothing |
| `LedgerPrices.ResetsRestoreTheStart` | src/subapps/schwab/bot-v2/bot-v2.controller.ts:114-128 | the account starts with ten thousand dollars; a reset while flat restores them and records the difference if there is one, and with a position open does nothing |
| `LedgerPrices.MoreSlippagePaysLess` | src/subapps/schwab/bot-v2/bot-v2-engine.service.ts:687-695 | more slippage never raises what a sale takes in, and leaves it alone if and only if it already sells at a cent |
| `LedgerLaws.RunKeeps` | src/subapps/schwab/bot-v2/bot-v2-engine.service.ts:502-735 | the ledger invariant holds after every run of entries, ticks, flattens, resets and baselines |
| `LedgerLaws.CashIsConserved` | src/subapps/schwab/bot-v2/bot-v2-engine.service.ts:502-735 | equity is the settled cash, and cash plus the open position's cost is starting cash plus all net P&L plus top-ups |
| `LedgerLaws.CashNeverNegative` | src/subapps/schwab/bot-v2/bot-v2-engine.service.ts:502-735 | with a leg fee of at most a dollar, cash is never negative |
| `LedgerLaws.SlicesSumToOriginal` | src/subapps/schwab/bot-v2/bot-v2-engine.service.ts:719-735 | the slices sold of every position, with what is left of it, sum to what was bought |
| `Brakes.MemoryIsHistory` | src/subapps/schwab/bot-v2/bot-v2-engine.service.ts:755-772 | in every reachable state the streak is the trailing run of losing stops capped at three, and block and pause follow from the closes |
| `Brakes.EntriesWaitForStops` | src/subapps/schwab/bot-v2/bot-v2-engine.service.ts:387-443 | no entry within ten minutes of a close that made three stops in a row, nor within a minute of the latest stop in its direction |
| `Brakes.EntriesWaitForTheCooldown` | src/subapps/schwab/bot-v2/bot-v2-engine.service.ts:380-386 | over any run no entry while a position is open, nor within the cooldown of any earlier entry or sale |
| `Brakes.BlockHoldsExactly` | src/subapps/schwab/bot-v2/bot-v2-engine.service.ts:437-443 | a direction stopped within the minute is still blocked if and only if no stop of the other direction came since |
| `Gates.EntersExactly` | src/subapps/schwab/bot-v2/bot-v2-engine.service.ts:380-543 | over every run a call buys if and only if the book is flat, can pay, has not traded within the cooldown, and no three losing stops in ten minutes nor a losing stop of its own side in one hold it |
| `Brakes.OtherStopForgetsTheBlock` | src/subapps/schwab/bot-v2/bot-v2-engine.service.ts:763-763 | a run in which calls are bought three seconds after a call was stopped |
| `Calendar.StartEquity` | src/subapps/schwab/bot-v2/bot-v2-calendar.util.ts:206-221 | the two loops add to the baseline every close and top-up after it and before the date |
| `Calendar.MonthWeeks` | src/subapps/schwab/bot-v2/bot-v2-calendar.util.ts:223-234 | the loop terminates and lists the weeks of the grid |
| `Calendar.GridListsEveryWeekdayOnce` | src/subapps/schwab/bot-v2/bot-v2-calendar.util.ts:223-234 | the grid is strictly increasing, has every Monday to Friday of the month, and only weekdays of its weeks |
| `Calendar.OpeningTelescopes` | src/subapps/schwab/bot-v2/bot-v2-calendar.util.ts:206-221 | between two dates after the baseline opening equity moves by exactly what is dated in between |
| `Calendar.MonthReconciles` | src/subapps/schwab/bot-v2/bot-v2-calendar.util.ts:110-189 | a month's opening plus its shown P&L and cash added is the next opening if and only if its weekend closes net to zero |
| `Calendar.CellsShowTheMonthsCash` | src/subapps/schwab/bot-v2/bot-v2-calendar.util.ts:130-200 | the month's cash added is what its cells show day by day plus what fell on weekends, before the account started or after today |
| `Calendar.EmptyCellsShowNothing` | src/subapps/schwab/bot-v2/bot-v2-calendar.util.ts:150-171 | a cell is empty if and only if its day is before the first close, or the baseline while there is none, or after today, and then shows nothing |
| `Calendar.SaturdayCloseIsMissing` | src/subapps/schwab/bot-v2/bot-v2-calendar.util.ts:130-139 | February 1970 with a close on Saturday the 7th, which moves the opening of March and is in neither the month's P&L nor its cash added |
| `LedgerCalendar.OpeningIsTheLedger` | src/subapps/schwab/bot-v2/bot-v2-calendar.service.ts:163-230 | for any run the calendar opens a date with the ledger's cash at that boundary plus the open position's cost, less what shares the baseline's millisecond |
| `LedgerCalendar.CalendarAgreesExactly` | src/subapps/schwab/bot-v2/bot-v2-calendar.util.ts:206-221 | calendar and ledger agree on a date if and only if what is tied up equals what was missed |
| `LedgerCalendar.CalendarAgreesWhenFlat` | src/subapps/schwab/bot-v2/bot-v2-calendar.util.ts:206-221 | on a boundary crossed flat the calendar's opening is the ledger's equity, if no trade or mark after the baseline shares its millisecond |
| `LedgerCalendar.TiedResetIsLost` | src/subapps/schwab/bot-v2/bot-v2-calendar.util.ts:215-218 | a run in which a reset in the baseline's millisecond never reaches the calendar |
| `LadderLaws.CommissionIsLinear` | src/subapps/schwab/bot/bot-fees.const.ts:13-24 | at a whole-cent rate the rounded round-trip commission is exactly linear in the quantity |
| `LadderLaws.ReturnAndBidAreInverse` | src/subapps/schwab/bot-v2/bot-v2-profit-lock.util.ts:52-74 | the return of a bid and the bid of a return undo each other, both ways |
| `LadderFormulas.ReturnIsNetOfFees` | src/subapps/schwab/bot-v2/bot-v2-profit-lock.util.ts:52-64 | the return is the gain less the commission, as a share of what the contracts cost, and zero for a free entry |
| `LadderFormulas.DisasterLosesTheStopPercent` | src/subapps/schwab/bot-v2/bot-v2-profit-lock.util.ts:89-99 | sold at the disaster level, to half a cent, a position loses exactly the stop percentage |
| `LadderLaws.LadderIgnoresQuantity` | src/subapps/schwab/bot-v2/bot-v2-profit-lock.util.ts:106-154 | with a whole-cent commission the ratchet is the same for any quantity as for one contract |
| `LadderLaws.TickRatchets` | src/subapps/schwab/bot-v2/bot-v2-profit-lock.util.ts:106-154 | a tick never lowers the stop or the peak, and reports exactly whether it raised the stop |
| `LadderLaws.HoldIsAboveStop` | src/subapps/schwab/bot-v2/bot-v2-tick-exit.util.ts:76-116 | a tick that holds leaves a stop strictly under the bid |
| `LadderLaws.NewHighStopsExactly` | src/subapps/schwab/bot-v2/bot-v2-profit-lock.util.ts:100-154 | after any bids, a new high is at its own stop if and only if it is at the stop the run was stamped with |
| `LadderLaws.NewHighNeverStopsItself` | src/subapps/schwab/bot-v2/bot-v2-tick-exit.util.ts:76-101 | after any bids, an armed new high of an entry stamped with its disaster level, not within rounding of zero, is not sold on the stop |
| `LadderLaws.NewHighCanStopItself` | src/subapps/schwab/bot-v2/bot-v2-profit-lock.util.ts:104-141 | a one-cent entry stamped at its disaster level whose first bid arms, is a new high and is sold on the stop |
| `LadderLaws.UnarmedNewHighStopsItself` | src/subapps/schwab/bot-v2/bot-v2-profit-lock.util.ts:104-141 | an entry at 21 cents under a bid of 19: a first tick at 20 is a new high, is not armed and is sold on the stop |
| `LadderLaws.PeakIsRunningMax` | src/subapps/schwab/bot-v2/bot-v2-profit-lock.util.ts:108-108 | over any bids the peak is their running maximum from the entry or earlier peak |
| `LadderLaws.RunsKeepGround` | src/subapps/schwab/bot-v2/bot-v2-profit-lock.util.ts:106-154 | over any continued run the stop and the peak never fall and an armed lock stays armed |
| `LadderLaws.StopIsTheLevelOfThePeak` | src/subapps/schwab/bot-v2/bot-v2-profit-lock.util.ts:77-154 | however the bids arrive, the stop they leave is the ladder level of their running maximum, or the first stop when that is higher |
| `LadderLaws.LockIsKept` | src/subapps/schwab/bot-v2/bot-v2-profit-lock.util.ts:76-87 | after any run that has armed, selling at the stop returns the floor and the peak's return less the giveback up to half a cent, or the stop is within a cent and a half of the peak |
| `LadderLaws.TrailKeepsGround` | src/subapps/schwab/bot/bot-exit.util.ts:127-168 | the older trail never lowers the stop or disarms, and once armed banks breakeven and the minimum lock or stays a cent under the peak |
| `LadderLaws.TrailNewHighStopsExactly` | src/subapps/schwab/bot/bot-exit.util.ts:127-168 | after any bids, a new high is at the older trail's stop if and only if it is at the stop of the fill |
| `LadderFormulas.TrailStopIsTheLevelOfThePeak` | src/subapps/schwab/bot/bot-exit.util.ts:127-175 | over any bids the older trail arms on the first bid up by its percentage, and its stop is then one formula of the highest bid |
| `LadderLaws.SoftExitsAreMirrored` | src/subapps/schwab/bot/bot-exit.util.ts:212-249 | a put exits exactly as a call on the mirrored underlying |
| `LadderFormulas.SoftExitsInOrder` | src/subapps/schwab/bot/bot-exit.util.ts:212-249 | a soft exit reports the first of stop, underlying stop, premium target and underlying target that is reached, equality included |
| `LadderLaws.TargetExitsComeBeforeStops` | src/subapps/schwab/bot/bot-exit.util.ts:208-249 | over any market an exit is credited to a target if and only if the stops alone would have held past it |
| `LadderLaws.LooserLevelsHoldLonger` | src/subapps/schwab/bot/bot-exit.util.ts:212-249 | over any market moving levels away or lowering the stop never brings an exit forward |
| `LadderLaws.GoingTradesAreSparedExactly` | src/subapps/schwab/bot-v2/bot-v2-tick-exit.util.ts:35-74 | the clock spares every bid at +2% or more if and only if breakeven is at most that bid |
| `LadderLaws.GoingTradeCanBeScratched` | src/subapps/schwab/bot-v2/bot-v2-tick-exit.util.ts:60-65 | a ten-cent entry up ten percent that the clock sells |
| `LadderLaws.ClockBounds` | src/subapps/schwab/bot-v2/bot-v2-tick-exit.util.ts:55-70 | the clock never sells within its limit, and past three clocks sells everything under +2% |
| `LiveClock.ClockSellsExactly` | src/subapps/schwab/bot-v2/bot-v2-tick-exit.util.ts:55-69 | from its entry on, a position is sold by the clock if and only if it is past one clock under breakeven, or under +2% and past three, or past two with its last new high over a clock ago |
| `LadderFormulas.ScalesOutExactly` | src/subapps/schwab/bot-v2/bot-v2-tick-exit.util.ts:76-101 | a tick sells half, rounded down, of two contracts or more if and only if it does not leave, has not scaled out and is ten percent up |
| `LadderFormulas.UnknownHighIsTheFill` | src/subapps/schwab/bot-v2/bot-v2-tick-exit.util.ts:67-68 | without a new high on record the clock counts from the fill |
| `Live.Desk.constructor` | src/subapps/schwab/bot-v2/bot-v2-engine.service.ts:507-534 | a position starts at the disaster stop with its peak at the bid the contract was picked by |
| `Live.Desk.OnTicks` | src/subapps/schwab/bot-v2/bot-v2-engine.service.ts:206-315 | a positive bid leaves exactly the position and sale the ladder decides; any other quote changes nothing |
| `Live.Desk.SellSlice` | src/subapps/schwab/bot-v2/bot-v2-engine.service.ts:675-733 | a slice leaves the rest open, or nothing |
| `Engine.TickAgrees` | src/subapps/schwab/bot-v2/bot-v2-engine.service.ts:246-315 | one quote leaves the ladder's position and the ledger's in step, and the ledger writes exactly the row of the slice sold |
| `Engine.BooksStayInStep` | src/subapps/schwab/bot-v2/bot-v2-engine.service.ts:206-735 | over any run of quotes the ledger, told what the ladder decides, holds the ladder's position and has one row for each slice it sold |
| `Engine.EntriesStayInStep` | src/subapps/schwab/bot-v2/bot-v2-engine.service.ts:490-735 | the books agree from the entry: what the ledger bought is what the ladder watches, and they stay in step over any quotes after it |
| `Engine.CommissionsAgree` | src/subapps/schwab/bot/bot-fees.const.ts:13-24 | the ladder's rounded commission in dollars is the ledger's in cents |
| `Engine.OpenPastThreeClocksIsGoing` | src/subapps/schwab/bot-v2/bot-v2-tick-exit.util.ts:55-74 | a position still open past three clocks was up two percent or more at that tick |
| `Votes.CombineSignals` | src/subapps/schwab/bot/bot-strategy.util.ts:164-214 | the voting loops fire the winner with exactly the strategies that voted for it |
| `Votes.FirstWins` | src/subapps/schwab/bot/bot-strategy.util.ts:172-190 | with one vote the first direction stands and every strategy that agrees is attributed |
| `Votes.FiresExactlyOnMajority` | src/subapps/schwab/bot/bot-strategy.util.ts:192-214 | from two votes on a direction fires if and only if it has the quorum and more than half of the votes cast |
| `Votes.OrderDoesNotDecide` | src/subapps/schwab/bot/bot-strategy.util.ts:192-214 | from two votes on permuting the enabled list changes neither whether nor which way it fires, nor who is named |
| `Votes.SwappingVotesSwapsTheSignal` | src/subapps/schwab/bot/bot-strategy.util.ts:164-214 | swapping calls and puts swaps the signal, at every agreement |
| `Votes.MoreVotesImplyFewer` | src/subapps/schwab/bot/bot-strategy.util.ts:147-214 | firing at k + 1 votes implies the same signal at k, for k of at least two |
| `Votes.ConfirmingIsUnanimity` | src/subapps/schwab/bot/bot-strategy.util.ts:147-214 | over one or more strategies CONFIRMING fires a direction if and only if all of them vote for it |
| `Votes.QuorumsAreWhole` | src/subapps/schwab/bot/bot-strategy.util.ts:147-214 | a quorum under two is one vote, and from two on it counts whole votes against a majority |
| `Votes.OneVoteAgreesExactly` | src/subapps/schwab/bot/bot-strategy.util.ts:156-190 | when two votes fire one vote fires too, the same way if and only if the first voter is on the winning side |
| `Votes.OneVoteCanDisagree` | src/subapps/schwab/bot/bot-strategy.util.ts:172-190 | three votes on which one vote buys calls, two buy puts, and reordering flips the first |
| `Sizing.OneContractExactly` | src/subapps/schwab/bot-v2/bot-v2-sizing.util.ts:37-70 | the trainer buys one contract or none, one if and only if it is affordable, and the reason says whether stop, distance or money is missing |
| `Sizing.OlderSizeIsTheMost` | src/subapps/schwab/bot/bot-strike-selection.util.ts:13-25 | without the cap an entry buys the most contracts that both the cash and the risked share of equity pay for |
| `Bars.FoldGroupsByBucket` | src/subapps/schwab/bot-v2/bot-v2-bars.util.ts:16-46 | prints in time order fold into rising aligned buckets, each the first, high, low, last and count of its prints, none lost |
| `Bars.CoarseningIsFolding` | src/subapps/schwab/bot-v2/bot-v2-bars.util.ts:16-46 | folding into fine bars and grouping those equals folding straight into bars any whole number of times wider |
| `Bars.ExpandCompletedMinutes` | src/subapps/schwab/bot-v2/bot-v2-bars.util.ts:54-78 | the loop expands exactly the minutes that have completed, in order |
| `Bars.StandInsAreQuarters` | src/subapps/schwab/bot-v2/bot-v2-bars.util.ts:62-75 | a minute's stand-ins are four flat bars fifteen seconds apart, the last with the minute's volume, at least one |
| `Bars.CompletedExactly` | src/subapps/schwab/bot-v2/bot-v2-bars.util.ts:58-61 | a minute counts as completed if and only if all of it is past |
| `Bars.ExpandedMinutesFoldBack` | src/subapps/schwab/bot-v2/bot-v2-bars.util.ts:54-78 | folding the stand-ins of well-formed minutes back to minutes returns their open, high, low, close and time |
| `Osi.BidFor` | src/subapps/schwab/bot/bot-backtest.util.ts:312-321 | the scan returns the bid of the first tuple with that strike and right |
| `Osi.QuotesAreTheirRows` | src/subapps/schwab/bot/bot-backtest.util.ts:268-284 | a rebuilt chain has one quote a row, in order, with the row's own bid, ask, delta and symbol |
| `Osi.StrikeReadsBackExactly` | src/subapps/schwab/bot/bot-backtest.util.ts:268-325 | the strike read out of a printed symbol is the strike if and only if it is whole thousandths below 100000 |
| `Osi.ParseOsiReadsBackExactly` | src/subapps/schwab/bot/bot-recording.service.ts:86-95 | the recorder's parser reads expiration, right and strike back for exactly the same strikes |
| `Osi.SymbolsCollideExactly` | src/subapps/schwab/bot/bot-backtest.util.ts:275-279 | any two strikes and rights share a symbol if and only if the rights are equal and the strikes round to one thousandth |
| `Osi.SymbolsAreDistinct` | src/subapps/schwab/bot/bot-backtest.util.ts:275-279 | so listed strikes share a symbol if and only if strike and right are equal |
| `Osi.FastLookupAgrees` | src/subapps/schwab/bot/bot-backtest.util.ts:268-325 | scanning raw tuples for the held strike finds the bid the rebuilt chain shows for the held symbol |
| `Osi.CloseStrikesCollide` | src/subapps/schwab/bot/bot-backtest.util.ts:276-279 | two strikes within a thousandth, which no chain lists, share a symbol and the wrong bid is found |
| `Replay.BarsFromSpots` | src/subapps/schwab/bot/bot-backtest.util.ts:248-261 | the loop returns the closed bars of the fold over the spots on record |
| `Replay.WatchPosition` | src/subapps/schwab/bot/bot-backtest.util.ts:554-685 | the holding loop makes the sales the exit rules decide, the last of which closes the position |
| `Replay.ScanTape` | src/subapps/schwab/bot/bot-backtest.util.ts:401-706 | the outer loop terminates and records the rows of the positions the scan opens |
| `Replay.ReplaySession` | src/subapps/schwab/bot/bot-backtest.util.ts:367-709 | a replayed session is the rows of the scan over its chain and bars |
| `Replay.ResumesLater` | src/subapps/schwab/bot/bot-backtest.util.ts:701-706 | the bar the scan resumes at is later than the one it left |
| `ReplayChain.ChainIsExact` | src/subapps/schwab/bot/bot-backtest.util.ts:190-241 | the chain is exactly the recorded snapshots of the product, each as often as recorded, tagged and in time order |
| `ReplayChain.HoursAreExact` | src/subapps/schwab/bot/bot-backtest.util.ts:375-391 | the bars kept are exactly those that start from 9:30 up to four o'clock, in time order |
| `ReplayChain.TapeIsRead` | src/subapps/schwab/bot/bot-backtest.util.ts:372-391 | bars and minutes come from the chain's spots if and only if there is a product or fifteen-second bars, at their width, and the session start with them; otherwise from the recorded bars |
| `ReplayChain.ExpirationIsTheEarliest` | src/subapps/schwab/bot/bot-backtest.util.ts:392-397 | contracts are named by the earliest expiration on record, or the date's own if there is none |
| `ReplayTerms.SizesExactly` | src/subapps/schwab/bot/bot-backtest.util.ts:492-526 | a laddered position is one contract if and only if cash and budget, or cash and the loss to its stop, pay for it; an older one is the most that equity and its risked share pay for |
| `ReplayTerms.TermsAreSet` | src/subapps/schwab/bot/bot-exit.util.ts:46-75 | a position opens with its stop and targets at their percentages of the entry and their ATRs from the spot, each on its side; a laddered one with the disaster stop alone |
| `ReplayTerms.OpensExactly` | src/subapps/schwab/bot/bot-backtest.util.ts:477-526 | a signal opens a position if and only if a contract with an ask is picked and at least one can be afforded |
| `ReplayTerms.WindowIsTheNewest` | src/subapps/schwab/bot/bot-backtest.util.ts:411-425 | a signal looks at the newest bars, as many as the limit says |
| `ReplayTerms.HeldFollowsTheTrail` | src/subapps/schwab/bot/bot-backtest.util.ts:641-665 | a bid moves the held peak, stop and arming exactly as the older trail moves, and nothing when it is off |
| `ReplayTerms.RowsAreTheirSales` | src/subapps/schwab/bot/bot-backtest.util.ts:327-361 | a recorded row carries its sale and its position's own fields, and its gross, fees and net follow from the two premiums to the cent |
| `ReplayLaws.PositionSellsWhole` | src/subapps/schwab/bot/bot-backtest.util.ts:571-698 | a position of any size is sold in positive slices that sum to it, with at most one scale-out and only before the close |
| `ReplayLaws.PositionsAreSoldWhole` | src/subapps/schwab/bot/bot-backtest.util.ts:487-698 | every recorded position was sized at one contract or more and is sold whole |
| `ReplayLaws.SlicesAreOneRoundTrip` | src/subapps/schwab/bot/bot-backtest.util.ts:327-361 | however a position is sliced, its rows' net P&L adds up to what the sales took in less the entry cost and one commission of the whole size |
| `ReplayLaws.RowIsExact` | src/subapps/schwab/bot/bot-backtest.util.ts:342-361 | with whole-cent premiums and rate a recorded row loses nothing to rounding |
| `ReplayLaws.HeldBidIsTheSymbols` | src/subapps/schwab/bot/bot-backtest.util.ts:568-573 | the bid looked up for a held position is the one the rebuilt chain quotes for its symbol, at every later snapshot |
| `ReplayLaws.OnlyTheSpreadStopsAtOnce` | src/subapps/schwab/bot/bot-backtest.util.ts:529-660 | on a market that has not moved since the entry, the next snapshot sells a position of the older exits if and only if the spread it was bought across is as wide as the premium stop |
| `ReplayPrices.EntriesAreBoughtAtTheAsk` | src/subapps/schwab/bot/bot-backtest.util.ts:268-492 | every recorded position was bought on a recorded row, at that row's ask and the slippage to the cent, with that row's bid, side and symbol, on the first snapshot after its bar closed |
| `ReplayPrices.PositionsPassTheGates` | src/subapps/schwab/bot/bot-backtest.util.ts:401-468 | every recorded position was voted for on at least six closed bars, in an enabled direction, inside the trade window and regular hours, and with the trend if that is asked |
| `ReplayPrices.SignalsExactly` | src/subapps/schwab/bot/bot-backtest.util.ts:401-468 | a bar signals if and only if it passes every gate and starts a cooldown or more after the last exit |
| `ReplayPrices.SalesAreMadeAtTheBid` | src/subapps/schwab/bot/bot-backtest.util.ts:554-700 | every sale of a recorded position is made at the bid its snapshot shows; only the flatten and the session's end fall back on the last bid shown, then the entry's; the flatten comes on the first snapshot at its label |
| `ReplayLaws.PositionsNeverOverlap` | src/subapps/schwab/bot/bot-backtest.util.ts:401-706 | each position opens strictly after every earlier one has closed, at least the cooldown after it |
| `ReplayLaws.EntryWaitsForTheCloseExactly` | src/subapps/schwab/bot/bot-backtest.util.ts:470-475 | on spot bars an entry never precedes its bar's close; on minute bars it does if and only if the chain was sampled in that minute |
| `ReplayInputs.MinuteBarsLookAhead` | src/subapps/schwab/bot/bot-backtest.util.ts:470-476 | two sessions that differ only in how their last minute closes, one of which records a position opened before that close |
| `ReplayLaws.CapMakesScaleOutInert` | src/subapps/schwab/bot-v2/bot-v2-sizing.util.ts:6-70 | the scale-out setting changes no replayed trade: one row a position, none a scale-out |
| `ReplayLaws.TrailBreakevenCoversExactly` | src/subapps/schwab/bot/bot-backtest.util.ts:561-561 | the breakeven given to the older trail covers both commissions if and only if there are enough contracts |
| `ReplayLaws.TrailBreakevenMissesOneContract` | src/subapps/schwab/bot/bot-backtest.util.ts:561-561 | at the default rate one contract sold at that breakeven is thirty cents short of its commission |
| `ReplayAhead.ChainBegins` | src/subapps/schwab/bot/bot-backtest.util.ts:226-241 | cutting a session short at a time cuts the sorted, filtered chain to a prefix |
| `ReplayAhead.FoldBegins` | src/subapps/schwab/bot/bot-backtest.util.ts:248-261 | closed bars of a prefix are a prefix, all closed by its last print, and every later bar closes after it |
| `ReplayAhead.MinutesAreStable` | src/subapps/schwab/bot/bot-backtest.util.ts:456-462 | the trend gate sees the same closed minutes in the shortened session |
| `ReplayAhead.EntryIsStable` | src/subapps/schwab/bot/bot-backtest.util.ts:472-476 | the entry snapshot is the same in the shortened session |
| `ReplayAhead.NoLookAhead` | src/subapps/schwab/bot/bot-backtest.util.ts:226-709 | on spot bars the trades closing before a shortened session's last spot are, identically and in order, those of replaying the shortened session, if both name contracts by one expiration |
| `ReplayAhead.OnlyTheExpirationIsForeseen` | src/subapps/schwab/bot/bot-backtest.util.ts:226-709 | with contracts picked from the chain and such a trade on either side, those trades agree if and only if the two sessions name one expiration |
| `ReplayInputs.LateExpirationIsForeseen` | src/subapps/schwab/bot/bot-backtest.util.ts:392-397 | ten samples without an expiration and an eleventh with one: a trade closed before the tenth is recorded under another symbol |
| `LiveReplay.EntriesMatch` | src/subapps/schwab/bot/bot-backtest.util.ts:529-560 | a replayed ladder entry starts with the live entry's stop, peak and size |
| `LiveReplay.StepsMatchExactly` | src/subapps/schwab/bot/bot-backtest.util.ts:571-640 | one tick gives the same peak, stop and sale in both loops if and only if no scale-out leaves the stop under breakeven |
| `LiveReplay.ReplayMatchesLiveExactly` | src/subapps/schwab/bot/bot-backtest.util.ts:554-640 | over any bids and any size both loops show the same peaks, stops and sales if and only if no scale-out leaves the stop under breakeven |
| `LiveReplay.AlwaysMatchesExactly` | src/subapps/schwab/bot-v2/bot-v2-engine.service.ts:285-301 | for a fresh position of two contracts or more, replay and live show the same peaks, stops and sales on every run of bids if and only if the lowest stop a scale-out can find is at breakeven or above |
| `LiveReplay.OneContractRunsMatch` | src/subapps/schwab/bot-v2/bot-v2-engine.service.ts:246-315 | for one contract, or with scale-out off, replay and live agree after every tick and leave on the same tick for the same reason |
| `LiveReplay.TwoContractsCanPart` | src/subapps/schwab/bot-v2/bot-v2-engine.service.ts:285-301 | two cheap contracts under the default ladder: on one bid both loops sell one, the live stop of the other is at breakeven and the replay's stays at the disaster level |

## Left out

- Fill quantities and prices are whole millionths, so the matcher's `1e-9` tests are tests for zero; fill ids are their rank in the collation order, not uuid text.
- MatchesAreIsolated: for a label that another key of the call splits to, the matches of both keys carry it; GroupsAreIsolated says what holds of them then.
- CSV cells carry the text JavaScript prints for them; an invalid date, which throws, and inherited keys are not modelled. The parser's TEXTDATA is every character but comma, quote, CR and LF.
- Auth: a value-level state machine, one event an atomic step, instead of a class with Maps; a refresh the server accepted but whose reply is lost, failures of the store, restarts, account-hash caches and the state and PKCE cryptography.
- Auth: two rows for one user; the table's unique index on the user, and that an insert gets an id the table has not made before, are taken as given.
- Ledger.Trainer.EvaluateEntry: stream freshness, signal, trend, contract selection and sizing before an entry are inputs, because the broker or other modules decide them; `Sizing` and `Votes` prove what they decide.
- Ledger.Trainer.OnTick: the ladder's decision is an input and the stop is not in this book; `Engine.BooksStayInStep` feeds it the decisions of `Live.Desk`, which holds the stop.
- Ledger: interleavings inside one call (an exit in flight, a book not loaded) and the supervisor's own top-up; each call is one step.
- Calendar.MonthWeeks: the month's first and last day are given as day numbers instead of being computed from its key.
- Calendar: percentages, the weekly roll-up, notes and the paper overlay; dates are day numbers, so month arithmetic and time zones are not modelled.
- Ladder, live loop and replay: floating-point error; premiums are exact reals. Not-a-number and infinite inputs are not modelled.
- Live.Desk.SellSlice: the fill price, whose slippage and cash are the ledger's part, and the trade row, which `Engine.TickAgrees` ties to the slice.
- Votes.CombineSignals: the reason text of a signal, which only restates its other fields.
- Osi: strikes are not negative and are printed without an exponent.
- Replay: strategy formulas, contract selection, trend bias, ATR and the Eastern clock are functions handed in, as the same functions for every session.
- Replay.ReplaySession: the counters of skipped signals, and the totals over sessions (`runBacktest`, the median sampling interval); they only count what the scan decides.
- Replay: the live loop sells at the bid less slippage while the replay sells at the bid; the comparison of the loops is of decisions, not of fill prices.
- NoLookAhead: is about bars built from spots, since minute bars do look ahead, and needs one expiration in both sessions; OnlyTheExpirationIsForeseen says what happens otherwise.
- The HTTP client, streaming, order placement and reconciliation, persistence, configuration and the other subapps.
