# A verified model of the ledger engine and the recurring scheduler

The backend keeps a double-entry ledger. A transaction row owns its ledger
entries. Each account has one balance row: a cached balance, the transaction
that last moved it, and a version. Creating and deleting a transaction are
multi-statement database transactions, and a scheduler creates transactions from
recurring rules in one database transaction and advances the rule in another.
The dashboard, the budgets, the transaction lists and reconciliation all read
the same tables and have to agree with each other.

The project models this three times over and proves that the models agree:

- **Sequentially, as values.** `Tables`, `Engine`, `Invariants`, `Histories`,
  `Shapes`: the tables, what one committed operation does to them, and what every
  history of operations keeps.
- **As code.** `LedgerStore`, `RecurringService`, `Budgets`: classes whose
  methods make the statements and loops of the services and repositories, each
  proved against the functions above.
- **As protocols.** `Sessions`, `SessionsInvariant`, `Refinement`, `Races`,
  `Answers`, `Progress`: any number of creates and deletes interleaving one SQL
  statement at a time, what they commit, what they answer, and what they wait
  for. `Scheduler`, `ExactlyOnce`, `Schedule`, `Pacing`, `Bookings`, `RunRows`,
  `Serving`: several scheduler runners on top of that, with stale snapshots,
  crashes, and users at work. `CatchUp`: repeated passes on one day.

`Reports`, `BudgetSpending`, `MonthSums`, `ReadBack`, `ConcurrentViews` and
`Rounding` relate the derived views and sub-cent amounts to the ledger.
`Calendar`, `DateText` and `Trimming` hold the date arithmetic and the text forms
of dates, keys and titles, `Common` finite sums.

## What is assumed

- Of the database: a statement sees the latest committed tables and its own
  transaction's writes; a balance row is locked from `FOR UPDATE` (or its
  update) to the end of the transaction; an inserted idempotency key makes other
  inserts of it wait until then; unique and check constraints, `ON CONFLICT` and
  the declared cascades do what they say; ids come from a sequence and are never
  reused. Any session can be rolled back before any of its statements, which
  covers errors, deadlocks and crashes. That calls under way at once all come to
  an end is not claimed; that one alone can is.
- Money is whole cents everywhere but in `Rounding`, which uses exact reals and
  rounds where the columns do. A transaction's rows in `ledger_entries` share one
  `created_at`, so their listing order is any order.
- Category and account names, titles and notes carry no behaviour here, but for
  the blank title a rule may not have; a category is its id. The clock, the listing order and the set of runners are
  parameters.
- The database's current day is in a year up to 9999. Rules may start, end and
  step to dates of any later year; `AdvanceRun` fails for a next date past the
  last year of the database's date type. What users enter fits its column.

## Where the code and its comments disagree

- `migrations/0008_transactions_idempotency_per_user.up.sql:1-9` means to make
  idempotency keys per user, but it drops only the separate index; the column
  constraint `idempotency_key TEXT UNIQUE` of
  `migrations/0004_ledger_entries.up.sql:17` stays. A second user's request with
  a key some other user holds is therefore an error. The model follows the
  schema: `Histories.KeysCollideAcrossUsers` is the concrete case and
  `Histories.KeyedOutcome` says exactly when a keyed request inserts, replays or
  is refused.
- `cmd/api/main.go:116-119` credits the unique index on run rows with preventing
  double firing. The run row is written after the money moved; what prevents it
  is the idempotency key, as `ExactlyOnce.ExactlyOncePerDate` shows.
- Reconciliation compares the cached balance with the ledger sum alone, so an
  account that opened with money is reported as inconsistent
  (`Histories.ReconcileMeaning`).
- `advanceDate` compares dates as text to see that a rule's end has passed. That
  is right exactly when the two years compare alike: they are written equally
  wide, or the narrower one is not above the leading digits of the wider one
  (`DateText.TextAgreesExactly`). An interval is bounded by its column alone, so a rule can
  step past its end unseen and stay active (`RecurringService.RuleOutlivesItsEnd`),
  and one that is to end in a five-digit year can be stopped early
  (`Schedule.EndIsImagined`). `Schedule.DoneMeansPastEnd` says for which rules a
  step is judged rightly, and `RecurringStore.EndStopsTheRule` what that makes of
  a rule's activity in every state.
- A list filtered by a transfer's source account shows that transfer with amount
  zero (`ReadBack.ListMeaning`).
- Half-cent amounts let the cache drift above the ledger
  (`Rounding.CentFromNothing`).

## Model

| member | source | states |
|---|---|---|
| Refinement.ConcurrentRefinesSequential | internal/service/transaction_service.go:240-344 | After any schedule of statement steps of any number of creates and deletes, the committed tables are exactly those of applying the committed inserting creates, deletes and account openings one at a time in commit order, and they are sound; replays, failures and rollbacks contribute nothing. |
| Races.StepSimulates | internal/service/transaction_service.go:240-344 | Every single step either leaves the committed tables and the history alone or appends one operation that the sequential engine performs from the old tables to the new. |
| Answers.AnswersAreSequential | internal/service/transaction_service.go:126-459 | At the statement that ends a call, in every reachable state, its answer is what the sequential engine answers to the same request on the tables committed then: the id made, the id replayed, or the very error. Two races lost are the exceptions: a create whose key the caller had used and deleted meanwhile, and a delete whose transaction went after its lines were listed. |
| Answers.RefusedForReason | internal/service/transaction_service.go:212-305 | Every error answered, but for a rollback, had its reason in the committed tables at some moment of the call, said in fields: an improper request, an account missing or another's, the key held by another user only, an account holding less than the outlay (or, for a delete, than giving back takes), or the row missing. |
| Progress.CallAlone | internal/service/transaction_service.go:240-459 | After any run, a call made when no other is under way can run to its end and has exactly the sequential engine's answer and tables: nothing the engine accepts is refused and nothing blocks it. |
| Progress.EverySequentialHistory | internal/service/transaction_service.go:240-459 | Conversely to the refinement, every sequential history of openings, creates and deletes with ids in sequence is the log of some run, with the same tables. |
| Progress.WaitsForARival | internal/repository/account_balance_repository.go:102-112 | A call that cannot make its next statement waits for an unfinished one with the same key, the same transaction to delete, or an account both move; calls that share none of these never wait for each other. |
| Progress.EntriesDeletedByOne | internal/service/transaction_service.go:445-455 | At no moment of any interleaving have two calls uncommitted deletes of the same transaction's entries. |
| Answers.RetryEndsAtLookup | internal/service/transaction_service.go:246-263 | The key lookup ends a keyed create exactly when the caller holds the key, before anything is inserted and without drawing an id. |
| Refinement.CommittedDelete | internal/service/transaction_service.go:403-459 | When a delete commits, what its buffer holds is what the sequential delete does to the tables as they are committed at that moment, whatever was committed since it listed the entries. |
| Refinement.CommittedCreate | internal/service/transaction_service.go:265-333 | The same for a create: its id and key are still unused, its accounts are still the caller's, and its buffered balances are the walk over the committed ones. |
| Races.IdempotentCreate | internal/service/transaction_service.go:246-287 | However many calls race under one non-empty key, if no transaction made under it is deleted: at most one create commits, all successful calls answer the same id and come from one user, and that transaction is live. |
| Races.DeletesReverseOnce | internal/service/transaction_service.go:409-455 | Of racing deletes of one transaction at most one commits and at most one caller is told so; then the transaction and its entries are gone. |
| Races.ConflictsUnreachable | internal/service/transaction_service.go:316-322 | No call ever ends in the version-conflict branch, nor in the missing-balance branch while accounts stay. |
| Races.VersionIsWitness | internal/repository/account_balance_repository.go:103-142 | Between any two points of any interleaving an account's version does not fall, and if it is unchanged so are its balance row and its ledger rows. |
| ConcurrentViews.TotalsBalanceUnderConcurrency | internal/repository/summary_repository.go:21-52 | At every moment of every interleaving of creates and deletes a user's committed balances sum to openings plus Totals income, less Totals expense and surviving transfer fees, and a month's budgets together show at most its expense. |
| ConcurrentViews.ReadsBackUnderConcurrency | internal/repository/transaction_repository.go:241-260 | At every moment of every interleaving a committed create that was not deleted reads back exactly as entered. |
| SessionsInvariant.NothingToForget | migrations/0007_account_balances_fk_set_null.up.sql:1-4 | When a delete reaches its final statement, no row it can see still names the transaction, so the ON DELETE SET NULL cascade has nothing left to change. |
| ExactlyOnce.ExactlyOncePerDate | internal/service/recurring_service.go:145-195 | For every rule and date, over every interleaving of runners, users, stale snapshots and crashes, if nothing generated for it is deleted and no user request carries a run key: at most one create committed for it, and if a runner advanced the rule past the date then its transaction is live and every such advance names it. |
| ExactlyOnce.RunsAreSeparate | internal/service/recurring_service.go:191-231 | Two different rule and date pairs never share a transaction, and a generated transaction is dated by the run it belongs to. |
| Bookings.BookedAsTheRuleStood | internal/service/recurring_service.go:191-231 | Under the same interleavings, every transaction generated for a rule and date has the user and, but for the date, the request (kind, amount, accounts, cost, category) that the rule had in its table at some moment when that date was its next; for a rule never updated, those it was entered with. |
| Serving.DueRuleIsServed | internal/service/recurring_service.go:145-189 | After any run, with no call under way, a due rule that can be served can be fetched, booked and advanced at once: the rule stands one step on, its transaction is under its key and the advance is on record. |
| Serving.FetchTakesTheDue | internal/repository/recurring_repository.go:236-256 | A fetch queues exactly the active rules whose next day is not after the current day, counted in days, each as it stands. |
| Serving.StartMeaning | internal/service/recurring_service.go:153-160 | A fetched rule is passed over exactly when the service's own day is before the rule's, and otherwise its call is opened with the rule's user, request, date and key. |
| Serving.CollectMeaning | internal/service/recurring_service.go:159-169 | A runner goes on to advance the rule exactly when its call answered a transaction, made now or before, and to record a failure otherwise. |
| Serving.AdvanceMeaning | internal/repository/recurring_repository.go:258-299 | The second transaction commits exactly when the rule exists, its new date can be stored and the run is noted or its transaction live; then it notes a success naming the transaction unless a row is there, and moves the rule on from the fetched copy; otherwise it changes no table. |
| Serving.RecordMeaning | internal/repository/recurring_repository.go:301-309 | A recorded failure is a failed run row without transaction, for a rule that exists and a date without row, and nothing else. |
| Serving.EditMeaning | internal/repository/recurring_repository.go:156-230 | An update keeps where a rule stands, its last run and whether it is active; a switch sets its activity alone; a removal takes the rule and exactly its own run rows. |
| Pacing.MoneyFollowsSchedule | internal/service/recurring_service.go:145-189 | Under the same interleavings, a transaction was generated for a date of a rule never updated and never active past its end only if the date is on its schedule and every earlier scheduled date has a generated transaction and was advanced past: what is paid is never more than one date ahead of what is recorded, and skips none. |
| Schedule.ScheduleIsGapFree | internal/repository/recurring_repository.go:258-299 | For a rule never updated and never active past its end, each date advanced past is the k-th of its schedule for exactly one k, is not past the end, has a run row while the rule exists, and all earlier scheduled dates were advanced past too, even with stale advances moving the rule back. |
| Schedule.ScheduledIncreases | internal/service/recurring_service.go:256-280 | A schedule never returns to a date: later scheduled dates are later in the calendar, for every frequency and interval. |
| Schedule.EvenlySpaced | internal/service/recurring_service.go:263-267 | The k-th date of a daily or weekly schedule is exactly k intervals of days after its start. |
| Schedule.EvenMonths | internal/service/recurring_service.go:268-269 | The k-th date of a monthly schedule that starts on a day up to the 28th is that day of the month exactly k intervals of months after its start. |
| Schedule.FinishedMeansPast | internal/service/recurring_service.go:275-278 | For every rule with an end and every next date, of any years: the string test says whether the next date is after the end if and only if their years compare alike. |
| Schedule.DoneMeansPastEnd | internal/service/recurring_service.go:256-280 | For every rule: advanceDate calls it done exactly when its next date is past its end, if and only if the year the step lands in, computed from next date, frequency and interval, compares alike with the end's. A date that does not parse any more counts as done. |
| Schedule.EndIsMissed | internal/service/recurring_service.go:256-309 | Input that validation lets through, for any year from 1112 to 9999: a rule for every 120000 months from 1 January to 31 December steps past its end and is not called done. |
| Schedule.EndIsImagined | internal/service/recurring_service.go:275-278 | A monthly rule ending in a five-digit year is called done at any step that lands within a four-digit year above the end's leading digits, though it is within its end. |
| RunRows.FirstRunStays | internal/repository/recurring_repository.go:268-273 | Over any stretch of any run in which the rule is not removed, the run row of a rule and date keeps the status first recorded, and names the transaction it was written with exactly while that transaction is not deleted. |
| RunRows.ReachableRowsLive | migrations/0010_recurring.up.sql:26-34 | At every moment of every interleaving a run row names a live transaction or none. |
| RunRows.ReachableRowsSay | migrations/0010_recurring.up.sql:26-34 | At every moment a run row marked success is of an advance past that date, in the very transaction it names if it still names one, and one marked failed names none. |
| RunRows.GoneStaysGone | migrations/0004_ledger_entries.up.sql:8-20 | A transaction once created and deleted is never live again, whatever step the ledger takes. |
| CatchUp.CatchUpEnds | internal/service/recurring_service.go:145-183 | With the day fixed, any number of successful passes not less than the total of overdue days leaves no rule due and reaches a state further passes do not change. |
| CatchUp.PassShortens | internal/service/recurring_service.go:171-175 | A pass with some rule due strictly lowers the total of overdue days. |
| Calendar.DayNumberIs | internal/service/recurring_service.go:263-269 | The number of every valid date in closed form, naming no leap year or month length: 365 a year plus a quarter, less the centuries, plus the fourth centuries, and from March on 153 days every five months. |
| Calendar.DaysBeforeYearIs | internal/service/recurring_service.go:263-269 | For every year, the days before it are 365 y + (y + 3) / 4 - (y + 99) / 100 + (y + 399) / 400. |
| Calendar.DaysBeforeMonthIs | internal/service/recurring_service.go:263-269 | Where each month starts: January at 0, February at 31, March and later at 59 plus the year's length over 365 plus (153 (m - 3) + 2) / 5. |
| Calendar.MonthAfterIs | internal/service/recurring_service.go:268-269 | Going n months on adds n to twelve times the year plus the month. |
| Calendar.DayNumberOrder | internal/service/recurring_service.go:256-272 | Counting days orders valid dates exactly as year, month and day do, and no two dates share a number. |
| Calendar.FromDay | internal/service/recurring_service.go:263-269 | Every day number is that of a valid date: the result is valid and counts back to the number. |
| Calendar.AddMonthsOverflow | internal/service/recurring_service.go:268-269 | Adding months keeps the day of month when the target month has it and otherwise runs over into the following month by the missing days, year ends and leap years included. |
| Calendar.StepLands | internal/service/recurring_service.go:263-270 | Daily and weekly steps go exactly n and 7n days; monthly ones land on the day of month n months on, run over where the month is short. |
| Calendar.EarlyDaysAreKept | internal/service/recurring_service.go:268-269 | A day of month up to the 28th is kept by every monthly step. |
| Calendar.MonthEndDrifts | internal/service/recurring_service.go:268-269 | A month after any 31 January is the 3rd of March, in leap years the 2nd, and every later monthly step stays on that day. |
| Calendar.StepLandsInYear | internal/service/recurring_service.go:263-270 | The year a step lands in, from date, frequency and interval alone: a monthly step never runs over into another year than its target month's. |
| Calendar.StepMovesForward | internal/service/recurring_service.go:263-270 | Every daily, weekly or monthly step with interval at least one lands strictly later. |
| DateText.FormatParse | internal/service/recurring_service.go:257-274 | Formatting a valid date of a four-digit year and parsing the text gives the date back. |
| DateText.ParseFormat | internal/service/recurring_service.go:257-261 | Nothing else parses: a text that parses is the formatted form of the date it parses to. |
| DateText.ParsesWithFourDigits | internal/service/recurring_service.go:257-261 | A formatted date parses back to itself up to year 9999 and not at all after it. |
| DateText.TextOrderExact | internal/service/recurring_service.go:275-278 | What byte order makes of any two formatted dates: calendar order when the years are written equally wide, and otherwise whether the narrower year is at most, or below, the leading digits of the wider. |
| DateText.TextAgreesExactly | internal/service/recurring_service.go:275-278 | Byte order and calendar order agree on two dates if and only if their years compare alike, for all years. |
| DateText.TextOrder | internal/service/recurring_service.go:155-156 | In particular on years 0 to 9999 (full-date of RFC 3339, section 5.6) byte order on formatted dates is calendar order, both ways, as section 5.1 of RFC 3339 argues. |
| DateText.TextOrderFailsAtYear10000 | internal/service/recurring_service.go:275-278 | The nearest pair where they differ: 1 January 10000 formats to a text that sorts before 31 December 9999, and the years do not compare alike. |
| DateText.RunKeyInjective | internal/service/recurring_service.go:192 | Equal run keys come from the same rule id and the same date text, whatever that text is. |
| DateText.FormatDateInjective | internal/service/recurring_service.go:274 | Two valid dates with the same text are equal, for every year. |
| RecurringService.RecurringStore.RunDue | internal/service/recurring_service.go:145-189 | The due rules are taken once each, earliest next run first. With the ledger's tables before each turn: a rule held back by the service's own date is left alone; any other is missed exactly when the engine refuses its create on those tables or its next date cannot be stored, and moves on otherwise; each turn leaves the ledger as that create does. One that moved on has a run row and its transaction under its key, a missed one a run row unless its next date cannot be stored; the counts are those turns, and with no failure on an agreed day the rules are exactly one pure pass on. |
| RecurringService.ServedMovesOn | internal/service/recurring_service.go:145-231 | What a turn means, in fields: a due rule not held back moves on if and only if its request is proper, its accounts are the user's, its key is already the user's or nobody's with every account able to pay, and its next date can be stored; unless its date was booked before, the new transaction has the rule's user, kind, cost, entries and category and its date, and every account moves by exactly what the rule says. |
| RecurringService.HeldBackMeaning | internal/service/recurring_service.go:154-158 | On four-digit years the string test holds a rule back exactly when the service's day is before the rule's. |
| RecurringService.RequestKeepsTerms | internal/service/recurring_service.go:195-226 | The generated request is the rule's in every field but the date, which is the run's; entries, kind, cost, category and what each account pays or receives are the rule's. |
| RecurringService.RecurringStore.RunsFollowTheSchedule | internal/repository/recurring_repository.go:280-287 | In every state of the service the dates a rule was run for are exactly the first ones of its schedule, strictly increasing and each with a run row, the last run is the last of them and the next run the one after. |
| RecurringService.RecurringStore.EndStopsTheRule | internal/service/recurring_service.go:275-278 | In every state: a rule never made active past its end was run for no date past it, and is active past it only if the years of its end and next date do not compare alike; and a rule with an end whose activity was never set by hand, once run, is active exactly when its next date is within the end if those years compare alike, and exactly when it is past it if they do not. |
| RecurringService.RuleOutlivesItsEnd | internal/service/recurring_service.go:256-309 | The concrete input: a monthly rule with interval 120000, next run 1 January 2025 and end 31 December 2025 is active and within its end, and after its next step still active though past it. |
| RecurringService.RecurringStore.AdvanceRun | internal/repository/recurring_repository.go:258-299 | From a copy of the rule however stale: commits exactly when the rule exists, the new date can be stored, and the run is already noted or its transaction exists; then the first run row for the date is kept and the row stands one step after the copy's date, inactive if done; otherwise nothing changes. A current copy keeps every rule on its schedule. |
| RecurringService.RecurringStore.Materialize | internal/service/recurring_service.go:191-231 | Answers exactly as the engine does on the tables it finds, and fails exactly then; a created transaction has the rule's user, kind, cost, entries and category, the run's date and its key; a replay or a failure changes no table. |
| RecurringService.RecurringStore.AdvanceDate | internal/service/recurring_service.go:256-280 | Parsing, stepping and comparing as strings give the scheduled next date and the verdict that `Schedule.DoneMeansPastEnd` characterises; a date that does not parse stays and is done. |
| RecurringService.RecurringStore.RecordRunFailure | internal/repository/recurring_repository.go:301-309 | Notes a failure for a live rule unless the date already has a run row, and keeps every other row. |
| RecurringService.NoneHeldOver | internal/service/recurring_service.go:154-158 | When the service and the database agree on the day, the second date check never holds back a fetched rule. |
| RecurringService.RecurringStore.DueRules | internal/repository/recurring_repository.go:236-256 | Returns the due rules, each once, in order of their next run. |
| RecurringService.RecurringStore.Create | internal/service/recurring_service.go:44-80 | A rule is added exactly when its title has a character that is not a space, its request is proper and every account of it exists, though not necessarily as the caller's: once, under a new id, active, standing at its start date, which is today if none was given, with a non-positive interval read as one; anything else changes nothing. |
| Trimming.BlankMeaning | internal/service/recurring_service.go:286-288 | Trimming leaves nothing exactly of a text whose every character is one of Unicode's white spaces. |
| Trimming.TrimMeaning | internal/service/budget_service.go:63 | Trimming takes spaces only, from both ends only, and all of them. |
| RecurringService.RecurringStore.DeleteTransaction | migrations/0010_recurring.up.sql:26-34 | A delete in the ledger makes exactly the run rows that named the transaction name none, and keeps every rule on its schedule. |
| RecurringService.RecurringStore.SetActive | internal/repository/recurring_repository.go:202-223 | Only the caller's own rule changes, in its active flag alone, and every rule stays on its schedule. |
| RecurringService.AllMovedIsPass | internal/service/recurring_service.go:154-183 | Taking the due rules one by one in any order, if every turn succeeds, gives the same rules as stepping all due rules at once. |
| Invariants.ReachableIsSound | migrations/0004_ledger_entries.up.sql:53-61 | After every history of openings, creates, deletes, account removals, edits and reconciliation fixes: each live account's cached balance is non-negative and is its opening plus its ledger sum, rows refer to live rows of the same user, keys are unique, a transaction has one entry per account, and a named last transaction has an entry on that account. |
| Invariants.CloseKeepsSound | migrations/0007_account_balances_fk_set_null.up.sql:11-14 | Removing an account with its cascading entries keeps all of that for every other account. |
| Invariants.CreateKeepsSound | internal/service/transaction_service.go:289-333 | An inserting create keeps the cache, reference, key, distinctness and pointer invariants. |
| Invariants.DeleteKeepsSound | internal/service/transaction_service.go:414-457 | A delete keeps them, its cascades included. |
| Invariants.FixKeepsSound | internal/repository/reconciliation_service.go:152-175 | A reconciliation fix keeps them with the account's opening re-based to zero; the last transaction it writes has an entry on the account. |
| Engine.WalkMeaning | internal/service/transaction_service.go:289-323 | With one line per account the check-and-write loop succeeds exactly when each line alone is affordable, and then moves each touched row once and no other row. |
| Engine.WalkOrderIndependent | internal/repository/ledger_repository.go:88-95 | Every listing order of the same lines, on create or delete, gives the same success or failure and the same balances. |
| Histories.DeleteMeaning | internal/service/transaction_service.go:388-467 | A delete succeeds exactly when the transaction is the caller's and every balance less its entry stays non-negative; then every balance is opening plus surviving entries. |
| Histories.DeleteUndoesCreate | internal/service/transaction_service.go:414-455 | A delete right after a create always succeeds and restores every table, except that the touched balance rows are two versions on and name no last transaction. |
| Histories.VersionWitnessesChange | internal/repository/account_balance_repository.go:103-142 | Over any stretch of a sequential history in which an account stays open, its version never falls, and an unchanged version means an unchanged balance row and ledger. |
| Histories.KeyedOutcome | internal/repository/transaction_repository.go:190-215 | For a valid keyed request on the caller's accounts: it replays exactly when the caller holds the key, is refused exactly when another user does, and inserts exactly when nobody does and every line is affordable. |
| Histories.CreateMeaning | internal/service/transaction_service.go:126-344 | For every request, user and key, which answer a create gives, in terms of the request's fields and the rows: invalid, account not found, replay, key taken by another, insufficient funds, or inserted, with the conditions in this order and no other outcome. |
| Histories.CreateMoves | internal/service/transaction_service.go:289-323 | An inserting create takes amount and fee from the paying account, gives the amount to the receiving one, and leaves every other balance row alone. |
| Histories.KeysCollideAcrossUsers | migrations/0004_ledger_entries.up.sql:17 | The same key under another user is not independent: a concrete history after which user 2's request with user 1's key fails, though the same request without a key succeeds. |
| Histories.KeyReuseNeedsDelete | internal/repository/transaction_repository.go:200-215 | Two committed creates under one key, by whatever users, have a delete of the first one's transaction between them. |
| Histories.ReconcileMeaning | internal/repository/reconciliation_service.go:92-117 | In every reachable state the discrepancy is the negated opening balance; a fix is made exactly when that is not zero and the ledger sum is not negative; afterwards the opening counts as zero and no further fix is possible. |
| LedgerStore.Ledger.CreateTransaction | internal/service/transaction_service.go:126-344 | Validation, ownership, key lookup, insert, loop and commit together have exactly the sequential engine's outcome: the new tables and id, the id already holding the key, or the error with every table untouched. |
| LedgerStore.Ledger.InsertAndPost | internal/service/transaction_service.go:265-333 | From the insert to the commit: a taken key, a missing row or insufficient funds leaves the tables alone, and otherwise row, entries, balances and category appear together. |
| LedgerStore.Ledger.RequireAccounts | internal/service/transaction_service.go:214-223 | Passes exactly when every account of the request exists and is the caller's. |
| LedgerStore.Ledger.DeleteTransaction | internal/service/transaction_service.go:387-467 | A delete commits the sequential engine's result or leaves every table untouched. |
| LedgerStore.WalkLines | internal/service/transaction_service.go:289-323 | The loop over the working copies computes the walk line by line, stops at the first failure with that error, and on create has written exactly the entries of the lines. |
| LedgerStore.MoveBalance | internal/service/transaction_service.go:294-322 | Locking, checking and the versioned update of one row are one step of the walk; the version it read is always still there. |
| LedgerStore.LedgerTx.CreateTxn | internal/repository/transaction_repository.go:200-215 | Says when the insert adds the row, when it yields no row because the caller holds the key, and when it is a unique violation because someone else does. |
| LedgerStore.LedgerTx.GetIDByIdempotencyKey | internal/repository/transaction_repository.go:190-197 | Finds a transaction of this user under this key exactly when there is one. |
| LedgerStore.LedgerTx.UpdateBalance | internal/repository/account_balance_repository.go:114-126 | Updates exactly when the row is at the version given, raising the version and naming the transaction, and otherwise changes nothing. |
| LedgerStore.LedgerTx.ReverseBalance | internal/repository/account_balance_repository.go:128-142 | Updates only at the version given, and forgets the last transaction only if it is the one reversed. |
| LedgerStore.LedgerTx.DeleteTxn | internal/repository/transaction_repository.go:229-238 | Removes the caller's transaction with its entries, category links and last-transaction pointers, or nothing. |
| LedgerStore.Ledger.OpenAccount | internal/repository/accounts_repository.go:36-54 | A non-negative opening creates the account and its balance row together; a negative one nothing. |
| LedgerStore.Ledger.CloseAccount | internal/repository/accounts_repository.go:222-237 | Removes the caller's account, its balance row and its entries, or nothing. |
| LedgerStore.Ledger.EditTransaction | internal/service/transaction_service.go:85-124 | Changes the date and, except for a transfer, replaces the category; balances, entries and other transactions stay. |
| LedgerStore.Ledger.ReconcileAccount | internal/repository/reconciliation_service.go:37-117 | Reports ledger sum, stored balance and the negated opening as discrepancy; fixes exactly when asked, inconsistent and not negative; an unsuccessful or unnecessary fix writes nothing. |
| LedgerStore.Ledger.ReconcileAll | internal/repository/reconciliation_service.go:120-149 | Over all listed accounts, in any order and with repetitions, one result each: an account's first result states truly its ledger sum, stored balance, discrepancy, last transaction, consistency, fix and error as the tables were at the start; and each account ends at its ledger sum if that was asked and is not negative, and keeps its balance otherwise. |
| Shapes.ReachableIsShaped | internal/service/transaction_service.go:144-210 | Without account removals, the entries of every live transaction are the movements of one valid request of its kind and cost. |
| Shapes.ReachableIsSided | internal/service/transaction_service.go:148-209 | After every history each entry is a debit of a positive amount or a credit of a negative one. |
| Shapes.ReachableIsCategorised | internal/repository/transaction_repository.go:403-420 | In every sequential history each income or expense has exactly one category and a transfer none. |
| Reports.Conservation | internal/repository/summary_repository.go:21-52 | Without account removals a user's balances sum to the openings (re-based by fixes) plus Totals income, less Totals expense, less the fees of the transfers still on record. |
| Reports.MonthsSumToTotals | internal/repository/summary_repository.go:105-130 | Monthly income and monthly expense over all active months sum exactly to Totals. |
| MonthSums.MonthTextMeaning | internal/repository/summary_repository.go:113 | A date shows a given month as text exactly when it is a date of that year and month. |
| MonthSums.MonthTextIsPrefix | internal/repository/transaction_repository.go:104 | For every valid date the month text is the date text without its last three characters. |
| MonthSums.MonthTextParses | internal/repository/summary_repository.go:113 | Up to year 9999 the month text parses back to the date's year and month. |
| MonthSums.MonthIncomeMeaning | internal/repository/summary_repository.go:105-130 | For every month text that parses, the month's income is the sum of the amounts of exactly the user's income entries whose transaction is dated in that year and month. |
| MonthSums.MonthExpenseMeaning | internal/repository/summary_repository.go:105-130 | The same for expense. |
| MonthSums.SeriesIsNewest | internal/repository/summary_repository.go:126-128 | The limited series shows the newest months, newest first: an active month not shown by a place is earlier than the one there, if and only if their years compare alike as text. |
| Reports.SeriesIsCompleteWithinLimit | internal/repository/summary_repository.go:126-128 | The series cut to its newest months accounts for all income and expense exactly when no more months were active than the limit. |
| BudgetSpending.BudgetsWithinExpense | internal/repository/budget_repository.go:49-74 | In every reachable state the spending of a user's budgets in a month together is at most that month's expense, with equality exactly when every expense entry of the month is in a budgeted category. |
| BudgetSpending.SpentByEntry | internal/repository/summary_repository.go:57-82 | Through the join of budgets, links and entries, with one category per transaction, each matching expense entry is charged to a budget exactly once. |
| MonthSums.SpentMeaning | internal/repository/budget_repository.go:49-74 | What a budget of a month that parses shows as spent is the sum over exactly its user's expense entries dated in that year and month whose transaction is in its category. |
| ReadBack.RoundTrip | internal/repository/transaction_repository.go:24-54 | While its accounts exist, the aggregate query over any listing of the joined rows, with any repetitions and order, returns the entered amount, cost, category and accounts. |
| ReadBack.ReadsBackForLife | internal/repository/transaction_repository.go:241-260 | Through every later history without account removals, until it is deleted, a created transaction reads back with the entered amount, cost and accounts, and until it is edited with the entered date and category. |
| ReadBack.EditShows | internal/service/transaction_service.go:108-124 | After an edit the transaction reads back with the new date and, unless it is a transfer, the new category if one was given; amount, cost and accounts as before. |
| ReadBack.ListMeaning | internal/repository/transaction_repository.go:91-140 | For every user and filter: exactly which transactions are listed, by owner, kind, month, first and last day, category and account, and how each is shown; filtered by account a transfer shows that side only, from its source with amount zero. |
| ReadBack.ListAgreesWithRead | internal/repository/transaction_repository.go:118-121 | A list row equals the single read exactly when no account filter is set or the transaction is not a transfer. |
| Rounding.DriftCountsHalves | internal/service/transaction_service.go:289-312 | With exact sums and each stored value rounded half away from zero, cached balance less opening and ledger sum is exactly the number of the account's lines ever created with a negative half cent; deletes add none and remove none. |
| Rounding.DriftBound | migrations/0004_ledger_entries.up.sql:32 | Hence the drift lies between zero and one cent for each negative line ever created on the account. |
| Rounding.RoundSum | migrations/0004_ledger_entries.up.sql:58 | Rounding the new balance and rounding the amount differ by one cent exactly for a negative half cent, and otherwise not at all. |
| Rounding.RoundsToNearest | migrations/0004_ledger_entries.up.sql:58 | The stored value is the nearest cent, and of two equally near ones the one further from zero. |
| Rounding.BookMeaning | internal/service/transaction_service.go:299-312 | The funds check is on the exact sum: with one line per account booking succeeds exactly when every exact sum is not negative, stores each sum rounded, raises the version and names the transaction, and touches no other row. |
| Rounding.WholeCents | internal/service/transaction_service.go:289-323 | On whole cents booking is exactly the engine's walk. |
| Rounding.CentFromNothing | internal/service/transaction_service.go:299-312 | A concrete account that holds a cent more after an expense of half a cent is created and deleted again. |
| Budgets.BudgetTable.CopyBudgetsFromMonth | internal/repository/budget_repository.go:169-187 | Every existing row stays, uniqueness of user, category and month is kept, the target month's categories become the union of both months', every new row copies one of the source month's, and the count is the size of the difference. |
| Budgets.BudgetTable.CopyFromPreviousMonth | internal/service/budget_service.go:123-141 | A month that does not parse changes nothing; otherwise it is the copy from the month before. |
| Budgets.BudgetTable.Create | internal/service/budget_service.go:42-70 | Adds the row, with its name trimmed, an absent month read as the current one and an absent color as the default, exactly when the name has a character that is not a space, the amount is positive, the month is well formed and the slot is free. |
| Budgets.MonthShapedMeaning | migrations/0011_budget_month.up.sql:8-10 | A month is well formed exactly when it is a year padded to four digits, a dash and a number padded to two. |
| Budgets.CopyTwice | internal/repository/budget_repository.go:172-187 | Copying again copies nothing and leaves the rows as they are. |
| Budgets.PreviousMonthIsOneEarlier | internal/service/budget_service.go:124-128 | The previous month's text is the month one earlier, across years; only January of year 0 has none, and no row can be in what its text says. |

## Left out

- HTTP handlers, authentication, goals, categories as such, account metadata, logging and configuration: plumbing around the ledger, or easy members.
- The legacy `transactions` table: an extra summand in the aggregates with no writers.
- Floating-point arithmetic of amounts: exact cents, and exact reals in `Rounding`.
- Liveness of calls under way at once, fairness and deadlock detection: a deadlock is a rollback.
- Account removal, metadata edits and reconciliation in the concurrent machine: they are in the sequential model only. Reconciliation reads the ledger before it reads the version, so its fix is claimed only when no commit falls between the two reads; and an edit's change of category is two separate statements, so one category per transaction is claimed for sequential histories.
- RecurringService.RecurringStore.Create: the category is given by id, and the title is checked but not kept.
- Budgets.BudgetTable.Create: the category is given by id.
- RecurringService.RecurringStore.RunDue: one scheduler with nobody else at work; interleavings, stale snapshots, crashes, rule updates and removals are in `Scheduler`, `ExactlyOnce` and `Schedule`.
- Scheduler: the two statements of AdvanceRun are one step, as they commit together; a rule removed with its account is a rule removal; a runner's counts are in `RunDue` only.
- The reply of a create after its commit: the enriched detail can be missing if the transaction is deleted in between, which the scheduler then dereferences; in the model this is a crash of the runner.
- Races.IdempotentCreate: keys are global in the schema, so the statement covers calls of all users under one key together.
- LedgerStore.Ledger.DeleteTransaction: the ownership check before the database transaction and the one in the final statement are one check here; they are separate steps in `Sessions`.
- Pagination and the order of lists: date and creation time are not a total order.
- Updating and deleting budgets, and recalculating a balance outside the services: no caller in the modelled paths, or nothing beyond the constraints already kept.
- Removal of a category with its links and budgets.
