# Verified model of the ledger service

A Dafny model of a money-transfer service that keeps accounts, transfers, ledger entries and
idempotency records in PostgreSQL, with proofs of what the service is for: every request takes effect
once and at one moment, money is conserved exactly, concurrent requests neither interfere nor
deadlock, and what clients read page by page is complete.

Check everything with `dafny verify dfyconfig.toml` (Dafny 4.11).

## How the model is laid out

- `Common.dfy` holds result types, integer ranges and finite sums; `Decimal.dfy` decimal digit strings.
- `Money.dfy` is the parser and printer of amounts, with the i128 intermediates and the i64 result of
  the code written out; `Fx.dfy` is the exact rate, conversion and fee arithmetic; `FxConfig.dfy` the
  selection of the rate and the fee rule in force.
- `Ledger.dfy` defines the tables and `Apply`: what one whole request, run alone, does to the tables
  and what it replies. It is the specification of everything below.
- `LedgerService.dfy` is the handlers in the code's own form, a class whose methods reserve, check,
  compute, write and roll back in the code's order. Every handler's tables and reply are proved to be
  those of `Apply`.
- `LedgerInvariants.dfy`, `Conservation.dfy` and `ExactlyOnce.dfy` prove properties of all runs of whole
  requests (and of operators switching accounts on and off). `Outcomes.dfy` says which answer a request
  gets when, in the terms of its caller; `Replies.dfy` what the reply of a success says, and
  `Authority.dfy` who may change what; `Clients.dfy` carries these to interleaved executions.
- `Protocol.dfy` is the same handlers as interleaved database transactions: any number of them, one
  step per SQL statement, READ COMMITTED reads of the committed tables overlaid with the transaction's
  own rows, row locks and key reservations held until commit or rollback, writes that put absolute
  values decided some steps earlier. `ProtocolSafety.dfy` proves what each point of a handler may rely
  on; `Serializability.dfy` that every interleaving refines `Apply`; `ProtocolLiveness.dfy` that there
  is no deadlock and every run ends; `Alone.dfy` that a transaction nobody stands in the way of does
  what `Apply` does; `Finishing.dfy`, `Outdated.dfy` and `LateRows.dfy` for which requests the
  finishing step is the moment they take effect.
- `Fingerprints.dfy`, `History.dfy`, `Paging.dfy` and `Cursor.dfy` are the hashed bytes, keyset
  pagination, also during interleaved runs, and the cursor text; `Ring.dfy` the benchmark's account-pool schedule.

How the two levels fit: `Serializability.Serializable` reduces any interleaved run to a sequence of
`Apply`; so `AlwaysSound`, `NobodyPanics` and `UniqueIndexNeverRejects` carry the invariants proved
over sequences to every concurrent state. A transaction takes
effect at its deciding step: the commit of a success, and for any other answer the statement that
settles it. For almost all requests the finishing step, commit or rollback, serves as well
(`Finishing.TakesEffectAtFinish`). The exception is an answer that rests on a row that was missing: a
transfer that did not find one of its accounts, or a reversal that did not find its original. A
missing row is not locked and can appear before the rollback. `Outdated.HoldsExactly` shows that this
is the exact condition on all tables that hold supported currencies, as all reachable ones do
(`Outdated.OneScalePerCurrency`): the later tables are what requests and status changes make of the
earlier ones, and for every missing row there are ordinary requests after which the answer is
another. `LateRows.CanFinishOutdated` turns them into an execution for every such request, and
`LateRows.OutdatedExecution` is one in full.

`Alone.SerialRunsAreExecutions` is the converse of serializability: every run of whole requests, one
at a time, is an execution of the interleaved handlers.

What the PostgreSQL side is taken to guarantee is what the steps in `Protocol.Local` and
`Protocol.Enabled` say: a statement sees the latest committed rows and the transaction's own;
`FOR UPDATE` waits for the holder and then returns the current row, and a missing row is not locked;
`ON CONFLICT DO NOTHING` waits while another transaction has an uncommitted row with the same key;
commit and rollback release everything at once. The locks that foreign keys take on accounts and
transfers are on rows the same transaction has already locked; the one on the exchange rate's row is
not, and adds no wait because nobody changes that row (rates are fixed during a run).

Points where the code is easy to misread, kept as they are:

- A reversal debits `destination_amount_minor` and gives back the whole `total_source_debit_minor`,
  fee included. Its row copies the original's fee while its total equals its own source amount, so
  total = source amount + fee holds only of rows that are no reversals.
- A reversal checks no funds, so it can take a balance below zero. Exactly how far is
  `LedgerInvariants.OverdraftBounded`.
- A replay is answered before ownership, status, rate and funds are looked at.
- Under one key a plain transfer and an exchange are different operations, and the fast path tests a
  stored record for completeness before the fingerprint while `reserve` compares the fingerprint first;
  `ExactlyOnce.FastPathAgrees` shows that the difference cannot be observed.

`design.md` (line 487) calls the partial unique index on `reverses_transfer_id` the final guarantee
against concurrent duplicate reversals. The code does not depend on it: the row lock on the original
and the check under it already keep a second reversal from being inserted
(`Serializability.UniqueIndexNeverRejects`).

## Model

| member | source | states |
|---|---|---|
| Money.ParseCharacterised | src/money.rs:62-98 | a grammatical amount text is rejected for too many decimals exactly when it has more than the scale, overflows exactly when its exact value is outside i64, and is otherwise read as that value |
| Money.ParseMalformed | src/money.rs:62-98 | "malformed" is the answer to exactly the texts outside the grammar |
| Money.MinorUnitsExact | src/money.rs:79-97 | the checked i128 steps decide as exact arithmetic with one final i64 check would |
| Money.ScalingFits | src/money.rs:81-88 | the unchecked scaling of the fraction stays below the scale's power of ten, far within i128 |
| Money.InitialBalanceCharacterised | src/money.rs:54-60 | a grammatical opening balance is refused for its decimals, its range or its sign, in that order, and is otherwise its exact value |
| Money.FormatThenParse | src/money.rs:100-121 | parsing a formatted i64 amount at its scale, 0 to 18, gives the amount back |
| Money.ParseThenFormat | src/money.rs:62-121 | formatting a parsed text gives back the text exactly when it is canonical: all decimals, no extra leading zero, no negative zero |
| Money.WriteMinorUnits | src/money.rs:100-121 | the string built by pushes is sign, whole part and zero-padded decimals |
| Money.CurrencyRecognised | src/money.rs:19-44 | a text names a currency exactly if it is PLN, EUR or USD (two decimals) or JPY (none), in upper or lower case, between white space |
| Fx.RateCharacterised | src/fx.rs:162-186 | a text of 1 to 18 digits and at most 12 decimals denotes its digits over that power of ten, and only zero is refused |
| Fx.RateRejected | src/fx.rs:162-186 | exactly the texts outside that grammar have no digits to read |
| Fx.HalfUpExact | src/fx.rs:237-248 | the quotient q satisfies q - 1/2 <= n/d < q + 1/2 |
| Fx.RoundingMonotone | src/fx.rs:237-248 | a fraction that is not larger never rounds to more, so equal fractions have one rounding |
| Fx.DestinationExact | src/fx.rs:212-231 | the destination amount is the half-up rounding of amount x rate x 10^(scale difference), "too small" exactly below half a unit, "overflow" exactly from half a unit above i64 |
| Fx.DestinationUnique | src/fx.rs:212-231 | whatever number is a half-up rounding of the exact amount is what is answered |
| Fx.DestinationMonotone | src/fx.rs:212-231 | larger amounts and higher rates never convert to less, in errors as in values |
| Fx.DestinationDependsOnValue | src/fx.rs:162-231 | two rates of equal rational value convert alike |
| Fx.AppendedZeros | src/fx.rs:162-186 | zeros appended to a rate's text within the length limits leave its value as it was |
| Fx.NumeratorBound | src/fx.rs:3-5 | the intermediate numerator stays below 10^67 |
| Fx.FeeExact | src/fx.rs:194-210 | the fee is the half-up rounding of amount x bps / 10000, lies between 0 and the principal, and overflows exactly when the total leaves i64 |
| Fx.FeeMonotone | src/fx.rs:194-210 | the fee grows with the amount and with the basis points |
| Fx.SplittingFee | src/fx.rs:194-248 | charging an amount in n parts changes the total fee by at most n/2 minor units |
| FxConfig.RateSelection | src/fx.rs:58-82 | a rate is chosen exactly if one row of the table has that source currency, that destination currency and the time in its half-open interval; "unavailable" is the answer exactly if no row has, "ambiguous" exactly if two have |
| FxConfig.FeeSelection | src/fx.rs:85-145 | the same for fee rules: the rows for the pair decide if one is in force, otherwise the rows without a pair; none and several are judged on that level alone |
| FxConfig.SelectionIgnoresOrder | src/fx.rs:58-145 | the order of the table's rows does not matter |
| FxConfig.WellKeptNeverAmbiguous | src/fx.rs:58-145 | if same-pair validity intervals never overlap, no time and no pair is ambiguous |
| LedgerService.Service.Reserve | src/idempotency.rs:123-168 | a free key gets an incomplete record; a taken one yields conflict or the stored reply and changes nothing |
| LedgerService.Service.CompletedSuccess | src/idempotency.rs:101-121 | returns what the records table says of the key, changing nothing |
| LedgerService.Service.StoreSuccess | src/idempotency.rs:170-192 | completes the key's record and touches no other |
| LedgerService.Service.CreateAccount | src/api/accounts.rs:63-133 | tables and reply are those of the whole-request specification, whose answers `Outcomes.AccountOutcome` and `Replies.OpeningReply` fix; no incomplete record is left and no panic is reached |
| LedgerService.Service.CreateTransfer | src/api/transfers.rs:214-579 | tables and reply are those of the whole-request specification, whose answers the `Outcomes` and `Replies.TransferReply` fix; every rejection rolls everything back |
| LedgerService.Service.ReverseTransfer | src/api/reversals.rs:77-309 | tables and reply are those of the whole-request specification, whose answers `Outcomes.ReversalRefused`, `Outcomes.ReversalOutcome` and `Replies.ReversalReply` fix; every rejection rolls everything back |
| LedgerService.Service.DecideTransfer | src/api/transfers.rs:372-473 | ownership and status of the locked rows, the amounts and the balances are checked in the code's order, so that the decision is that of the whole-request specification |
| LedgerService.Service.DecideReversal | src/api/reversals.rs:182-275 | status and currencies of the locked rows and the balances are checked in the code's order, so that the decision, reply included, is that of the whole-request specification |
| LedgerService.Service.Post | src/api/transfers.rs:474-558 | transfer row, both balances and versions, both entries and the completed record are written together, or the insert of a taken id fails |
| LedgerService.Service.UpdateBalances | src/api/transfers.rs:481-487 | the loop sets two absolute balances and raises each version by one |
| LedgerService.Service.InsertEntries | src/api/transfers.rs:488-518 | the loop appends the two entries, unless an id is taken |
| LedgerInvariants.AmountsArePositive | src/api/transfers.rs:416-454 | every decided amount is positive and in i64, the total is the principal plus the fee |
| LedgerInvariants.ApplyKeepsSound | src/api/transfers.rs:455-518 | one request keeps: balance = opening + credits - debits, version = number of entries, one debit and one credit entry per transfer, at most one reversal, the overdraft bound, complete one-to-one records |
| LedgerInvariants.ReachableIsSound | src/api/reversals.rs:215-254 | from empty tables all of that holds after any run, and every balance is its opening balance plus the effects of the unreversed transfers alone |
| LedgerInvariants.CommitKeepsSound | src/idempotency.rs:123-192 | a commit adds one resource and one complete record for it, keeping the correspondence one to one |
| Conservation.CurrencyConserved | src/api/transfers.rs:424-487 | the balances in a currency sum to the opening balances in it plus what unreversed exchanges brought in less what they took out |
| Conservation.ReversalCancels | src/api/reversals.rs:215-254 | a transfer and its reversal cancel on every account, fee included |
| Conservation.NotOverdrawn | src/api/reversals.rs:215-226 | an account that no reversal debited is never negative |
| Conservation.CommittedTransferCovered | src/api/transfers.rs:455-473 | a committed transfer leaves its source at zero or more |
| Outcomes.AccountOutcome | src/api/accounts.rs:72-133 | an account opens with exactly the amount its text denotes, active, owned by the client, at version 0; a text with more decimals than the currency answers "too many fractional digits", a value outside i64 "amount overflow", a negative one "negative initial balance" |
| Outcomes.SenselessOpening | src/api/accounts.rs:72-77 | an unsupported currency is answered first, then a text outside the grammar with "malformed amount" |
| Outcomes.SenselessTransfer | src/api/transfers.rs:227-281 | the same account twice, then a missing account, then a text outside the grammar are each answered by their own error |
| Outcomes.AmountOutcome | src/api/transfers.rs:281-290 | whoever sends it, an amount with too many decimals, outside i64, or not positive is refused for just that; a positive amount in range is never blamed on its text |
| Outcomes.UnauthorisedTransfer | src/api/transfers.rs:397-400 | a transfer out of another client's account, or with an inactive party, is "account unavailable" whatever the amount and the balances, and changes nothing |
| Outcomes.UnquotedExchange | src/api/transfers.rs:343-363 | no rate, several rates, no fee rule and several fee rules in force are answered each by its own error, in that order, before the accounts are looked at |
| Outcomes.PlainTransferOutcome | src/api/transfers.rs:397-487 | a same-currency transfer moves exactly its amount, unless the source has less ("insufficient funds") or the destination would overflow, and then nothing changes |
| Outcomes.CommittedExchange | src/api/transfers.rs:416-487 | a committed exchange converts the principal its text spells, charges the fee on it, and moves the total debit and the converted amount |
| Outcomes.ExchangeTerms | src/api/transfers.rs:339-363 | its rate text, rate id and basis points are those of the one rate row in force from its source's to its destination's currency at its timestamp, and of the one deciding fee rule |
| Outcomes.ExchangeOutcome | src/api/transfers.rs:434-473 | an authorised exchange succeeds exactly when principal plus fee fit i64, the converted amount is at least half a unit and fits, the source holds the total and the destination has room; otherwise the first condition that fails names the answer |
| Outcomes.BrokenConfiguration | src/api/transfers.rs:616-634 | basis points outside 0 to 10000 or an unreadable rate text are an internal error |
| Outcomes.ReversalOutcome | src/api/reversals.rs:144-254 | an authorised first reversal between active accounts succeeds exactly when both balances stay in i64, returning what was credited and restoring all that was debited |
| Outcomes.ReversalRefused | src/api/reversals.rs:144-209 | under a free key the refusals are, in order: no such transfer (not found), a reversal, a credited account that is not the client's (not found), already reversed, an inactive account |
| Replies.OpeningReply | src/api/accounts.rs:104-131 | the reply is 201 with the id, the currency and a text that reads back as the balance of the row that appeared, which is the client's |
| Replies.TransferReply | src/api/transfers.rs:474-558 | the inserted row has the accounts, the amount, the client and the time of the request; the reply is 201 and spells out that row, every text reading back as its amount at its own account's scale |
| Replies.ReversalReply | src/api/reversals.rs:227-287 | the inserted row is the original's with its sides exchanged and everything debited given back; the reply is 201, spells out that row, and its two resulting balances read back as the balances the tables then hold, each on its own side |
| Replies.ReplyIsStored | src/idempotency.rs:170-192 | a committed request stores exactly its own reply with its resource, and no other record changes |
| Replies.EveryReplyTells | src/idempotency.rs:101-168 | in every run from empty tables each success, replays included, tells of an account or a transfer that is there, by its opening balance or its row |
| Authority.ChangesAreAuthorised | src/api/transfers.rs:397-400 | whatever changes the tables was a request they authorise: a transfer by the owner of its active source to an active destination, a first reversal by the owner of the active account that was credited |
| Authority.OnlyOwnersSpend | src/api/reversals.rs:152-161 | no request leaves another client's account with less |
| Authority.RunKeepsInitiated | src/api/transfers.rs:474-480 | in every run the owner of the account a transfer debits is the one recorded as having initiated it |
| Authority.EveryTransferIsBooked | src/api/transfers.rs:488-518 | every transfer has one debit and one credit entry, with account, counterparty, kind, amount, currency, principal, fee and time as its row has them, and no other entry; every entry is in its account's currency |
| Clients.EveryChangeIsAuthorised | src/api/transfers.rs:364-400 | in every interleaving a step that changes the committed tables is a request authorised by the tables of that moment, and lowers no other client's balance |
| Clients.BooksAreInOrder | src/api/transfers.rs:474-518 | in every concurrent state every transfer was initiated by the owner of its source and is on the books once on either side |
| Clients.EveryClientIsToldTheBooks | src/api/transfers.rs:519-558 | in every concurrent state each success a client was told of, replays included, tells of rows that are there |
| Clients.ReversalsTellTheirBalances | src/api/reversals.rs:255-275 | in every interleaving a reversal's reply carries the balances its commit leaves, each on its own side |
| ExactlyOnce.RunGrows | src/api/transfers.rs:474-518 | no run changes or removes a committed transfer, entry or record, or an account's owner, currency or scale |
| ExactlyOnce.FastPathAgrees | src/idempotency.rs:101-168 | the fast path lets a request go on exactly when the key is free and otherwise answers as the reservation would |
| ExactlyOnce.NeverPanics | src/idempotency.rs:116-167 | on reachable tables the expect and unreachable on incomplete records are not reached |
| ExactlyOnce.FailureChangesNothing | src/api/transfers.rs:572-577 | any answer but success leaves all tables as they were, the key free included |
| ExactlyOnce.AnsweredOnce | src/idempotency.rs:123-168 | after a success, whatever ran in between, the same key with an equal fingerprint gets the stored reply and with another one a conflict, and nothing changes |
| ExactlyOnce.RetryAnsweredAlike | src/api/transfers.rs:281-338 | a retry of the same call by the same client is answered with the first reply for ever and changes nothing |
| ExactlyOnce.LaterAnswer | src/idempotency.rs:123-168 | in any run a later request under the key of a successful one gets the first reply for an equal fingerprint and a conflict for another, and changes nothing |
| ExactlyOnce.RetriesCanBeDropped | src/idempotency.rs:101-168 | leaving out any requests that repeat the client, operation, key and fingerprint of an earlier success leaves the final tables, and the replies to all requests kept, as they are |
| ProtocolSafety.SettleMatches | src/api/transfers.rs:297-459 | a transaction that decides an answer without writing gives the answer of the whole request run on the tables of that moment |
| ProtocolSafety.AdvanceKnows | src/api/transfers.rs:314-519 | moving to its next statement a transaction knows all that statement relies on |
| ProtocolSafety.KnowsStable | src/api/transfers.rs:364-371 | what a transaction knows stays true while others change only what it has not locked |
| ProtocolSafety.WrittenNext | src/api/transfers.rs:474-558 | each write extends the private rows to the next prefix of the plan |
| Finishing.AnswerHolds | src/api/transfers.rs:572-577 | in every execution an answer decided on rows that were there is still the whole request's answer in every state up to the release of the locks |
| Finishing.TakesEffectAtFinish | src/api/transfers.rs:561-578 | in every execution a request that did not decide on a missing row takes effect as a whole, tables and reply, at its commit or rollback |
| Finishing.OnlyFinishingWrites | src/api/reversals.rs:291-308 | no other step changes the committed tables |
| Outdated.OneScalePerCurrency | src/money.rs:20-37 | in every reachable state accounts hold supported currencies, and accounts of one currency have one scale |
| Outdated.HoldsExactly | src/api/transfers.rs:240-249 | an answer holds up to the release of the locks, whatever requests and status changes come in between within rows left unlocked, if and only if no account or original was missing |
| Outdated.HoldsExactlyInExecutions | src/api/reversals.rs:144-151 | the same wherever a transaction decides in an execution |
| LateRows.CanFinishOutdated | src/api/reversals.rs:144-151 | every transfer that misses an account and every reversal that misses its original has, among a few other requests, an execution in which its reply is out of date when its transaction ends |
| LateRows.OutdatedExecution | src/api/transfers.rs:240-249 | an execution from empty tables in which an "account unavailable" reply is out of date when its transaction ends |
| Serializability.CommitMatches | src/api/transfers.rs:561-570 | committing absolute balances computed steps earlier gives the tables of the whole request run at the commit: no update is lost |
| Serializability.ActKeeps | src/api/reversals.rs:98-308 | every step of every transaction, and every status change, keeps the system invariant |
| Serializability.Serializable | src/api/transfers.rs:297-578 | in every state of every interleaving the committed tables are those of a serial run of the decided requests, each once, and each client's reply is the serial one |
| Alone.RunAlone | src/api/transfers.rs:214-579 | a transaction that no other one's locks stand in the way of runs by itself to the tables and the reply of its whole request |
| Alone.SerialRunsAreExecutions | src/api/reversals.rs:77-309 | every serial run of requests is an execution of the interleaved handlers |
| Serializability.OneEffectPerKey | src/idempotency.rs:101-168 | under any interleaving, of all requests under one key only the first to succeed changes anything; the later ones get its reply or a conflict |
| Serializability.RealTimeOrder | src/api/transfers.rs:561-570 | a request answered before another begins precedes it in the serial order |
| Serializability.AlwaysSound | src/api/reversals.rs:98-308 | every ledger invariant holds of the committed tables in every concurrent state; no incomplete reservation is ever committed |
| Serializability.NobodyPanics | src/idempotency.rs:116-167 | under any interleaving no client meets the expect or unreachable on an incomplete record |
| Serializability.UniqueIndexNeverRejects | migrations/0001_create_core_ledger_schema.sql:40-42 | when a reversal is inserted no committed row and no other transaction's row reverses the same original |
| ProtocolLiveness.AsksUpwards | src/api/transfers.rs:314-371 | a transaction only asks for a lock above all it holds: key, original row, account rows by ascending id |
| ProtocolLiveness.NoDeadlock | src/api/reversals.rs:117-181 | in no reachable state do transactions wait for each other in a circle |
| ProtocolLiveness.Progress | src/api/reversals.rs:117-181 | in every reachable state with an unfinished transaction some transaction can step |
| ProtocolLiveness.RunsAreBounded | src/api/transfers.rs:253-579 | any run of n requests takes at most 16 n steps |
| ProtocolLiveness.CanFinish | src/api/transfers.rs:253-579 | every state of the system invariant can be run until all requests are answered |
| ProtocolLiveness.EveryStartCanFinish | src/api/reversals.rs:83-309 | any number of requests beginning on sound tables has an execution that answers them all |
| ProtocolLiveness.StuckRunsAreFinished | src/api/reversals.rs:83-309 | a run that cannot go on has answered every request, each at a place of its own in the order |
| Fingerprints.AccountCreationFingerprint | src/idempotency.rs:61-68 | the hasher is fed the tag, the currency, a colon and the 8 big-endian bytes of the balance |
| Fingerprints.TransferFingerprint | src/idempotency.rs:70-83 | the hasher is fed the tag, both UUIDs, the currency and the 8 bytes of the amount |
| Fingerprints.ReversalFingerprint | src/idempotency.rs:85-90 | the hasher is fed the tag and the UUID of the original |
| Fingerprints.PreimageInjective | src/idempotency.rs:61-90 | different business inputs, of one operation or of two, never feed the same bytes |
| Fingerprints.RequestsCompareByBytes | src/api/transfers.rs:291-309 | however far apart two requests are sent, their bytes agree exactly when both ask for the same account currency and exact balance, the same two accounts and exact amount, or the same original |
| History.PageExact | src/api/history.rs:110-151 | a page shows, newest first, exactly the entries of the account asked for, with the counterparty asked for if one was, that lie below its cursor and not below its next cursor |
| History.LookaheadIsExact | src/api/history.rs:140-151 | a page with a next cursor is full, and the page after it is not empty |
| History.FixedTableIsListed | src/api/history.rs:110-151 | on an unchanged table the pages put together are all entries of that account and counterparty and no others, newest first, whatever limits are used |
| History.TraversalEnds | src/api/history.rs:140-151 | on an unchanged table there are never more pages than entries, but for a first empty one |
| History.TraversalDescends | src/api/history.rs:110-151 | however the table changes, (created_at, id) strictly descends across all pages: no repeats |
| History.NothingIsMissed | src/api/history.rs:110-151 | with rows inserted between pages a complete traversal shows every entry of the account and counterparty that was there at the first page |
| History.NothingForeign | src/api/history.rs:110-139 | whatever is shown is an entry of the account asked for, with its own time and the counterparty asked for if one was |
| History.PagingWhileServing | src/api/history.rs:110-151 | all of that while the ledger serves any requests between the pages |
| Paging.PagingWhileInterleaved | src/api/history.rs:110-151 | the same for pages read in later and later states of any execution |
| Cursor.HexRoundTrip | src/api/history.rs:238-257 | hex decoding undoes hex encoding |
| Cursor.HexCanonical | src/api/history.rs:248-257 | hex encoding undoes decoding up to the case of the digits |
| Cursor.EncodeCursor | src/api/history.rs:238-246 | the built text is the prefix and two digits a byte |
| Cursor.CursorRoundTrip | src/api/history.rs:238-262 | a version 1 cursor decodes to itself and any other version is rejected |
| Cursor.CursorAccepted | src/api/history.rs:248-262 | a text is accepted exactly if it is the prefix and hexadecimal for a version 1 document, in either case of digits |
| Cursor.SplitJoins | src/api/history.rs:178-179 | the parts joined by the separator are the query string, and no part contains it |
| Cursor.PartSplits | src/api/history.rs:179 | a part is cut at its first equals sign into key and value; without one it is a key with an empty value |
| Cursor.Scan | src/api/history.rs:178-195 | a repeated parameter is rejected, with the error of the first repetition; otherwise each parameter has its one value |
| Cursor.ParseQuery | src/api/history.rs:174-226 | the answer is that of the first repetition, or else of the checks on the values given |
| Cursor.GivenOnce | src/api/history.rs:178-195 | the parts of a query string determine those values |
| Cursor.LimitAccepted | src/api/history.rs:206-213 | the limit is 50 if none is given, else accepted exactly if its digits, with or without a plus sign, spell a number from 1 to 100, and "invalid limit" otherwise |
| Cursor.CursorIsBound | src/api/history.rs:214-220 | a handed-out cursor is accepted for its own account and counterparty filter and for no other |
| Cursor.NextPageResumes | src/api/history.rs:140-220 | the next cursor sent back with the same account and filter starts where the page ended |
| Ring.ExpectedPoolBalances | benchmarks/src/dataset.rs:90-97 | each balance is 10000 plus 100 per receipt less 100 per payment |
| Ring.PlansGoRound | benchmarks/src/dataset.rs:65-88 | sources and destinations both go round the ring one account at a time |
| Ring.NobodyPaysThemselves | benchmarks/src/dataset.rs:72-77 | source and destination differ and lie in the pool |
| Ring.WalkVisits | benchmarks/src/dataset.rs:72-77 | the exact number of payments and receipts of an account after any number of operations |
| Ring.StretchWithinOne | benchmarks/src/dataset.rs:65-88 | any stretch of consecutive plans changes a balance by at most 100 |
| Ring.EveryMomentWithinTwo | benchmarks/src/main.rs:426-446 | with any part of a chunk finished in any order, every balance is within 200 of its start |
| Ring.RunPhase | benchmarks/src/main.rs:447-478 | requests of a chunk completing in any order never lack funds and add up to the chunk's net |
| Ring.RunOperations | benchmarks/src/main.rs:426-446 | chunk after chunk, the balances change by the net of the plans |
| Ring.RunBenchmark | benchmarks/src/main.rs:160-188 | after warm-up and measured operations the balances equal the expected ones and are within 100 of their start |

## Left out

- HTTP, JSON bodies, JWT, OpenAPI, logging, metrics, health and configuration: plumbing over libraries; the client id, the key and the UUIDs of a request are parameters.
- Validation of the Idempotency-Key header and of UUID texts in paths and bodies: simple syntax checks before anything modelled here.
- PostgreSQL itself: its locking, visibility and atomic commit are the step rules of `Protocol`; plans, indexes, timeouts, lost connections and a failing COMMIT are not modelled.
- CHECK constraints: not modelled as rejections; the inserted rows satisfy them by `LedgerInvariants.TransferSound`.
- Random UUIDs: `Protocol` takes the ones drawn by its requests to be unused and different; the class and `Apply` keep the case of a taken primary key, which is an internal error.
- SHA-256: taken to be free of collisions; records hold what is hashed, and `Fingerprints` proves the hashed bytes injective for UUIDs, ASCII currency codes and i64 amounts.
- Expiry of idempotency records: a column that nothing here reads; no code deletes records.
- Changes to rates, fee rules, owners and currencies while requests run: configuration is fixed during a run; only account status may change, under the row's lock.
- The account version is an unbounded number where the column is a BIGINT, and updated_at is not modelled.
- Reading the exchange rate and the fee rule is one step of `Protocol.Local`; the tables behind them do not change.
- Protocol.Execute: an UPDATE of a row that is not there writes nothing, as in SQL; `ProtocolSafety.WrittenNext` covers the runs, in which the rows are there.
- The serde encoding of the cursor document and the UUID parser are parameters of `Cursor`, the first assumed to round-trip.
- Formatting of the rows of a history page, and the ownership check before it: the page is modelled by its sort keys.
- Ring.AccountPoolPlans: requires seed plus the number of operations within a u64, where the original's addition does not overflow; owners and keys of the plans are left out.
- The other benchmark scenarios, the HTTP client, percentiles, reports and scripts: input, output and floating point.
