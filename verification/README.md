# Verified model of lib-uncommons

A Dafny model of the parts of `lib-uncommons` whose correctness rests on protocols, arithmetic or long runs, with
machine-checked proofs of what they promise. `dafny verify dfyconfig.toml` checks the whole project.

| files | what they model |
|---|---|
| `Calendar`, `CronSchedule`, `CronText`, `CronPart`, `CronSyntax`, `CronField`, `CronExpression` | cron expressions: their syntax, the field parser with its machine-integer arithmetic, and the search for the next run over the proleptic Gregorian calendar |
| `OutboxTable`, `OutboxRepository`, `OutboxBatch`, `OutboxDispatcher` | the outbox table, the repository's transactions as methods of a class, one dispatch cycle |
| `OutboxProtocol`, `OutboxOutcomes`, `OutboxExclusivity`, `OutboxReachability` | any number of dispatch cycles over one table, with crashes, lost replies, lost state updates and stale owners |
| `PublisherProtocol`, `PublisherSafety`, `PublisherDelivery`, `PublisherProgress`, `PublisherRecovery` | the confirmable publisher: publish calls, close monitors, recovery, `Reconnect` and `Close`, against a broker that confirms each channel in order |
| `Transaction`, `TransactionPlan`, `TransactionLedger`, `TransactionEffects`, `TransactionHolds` | planning a transaction, posting to balances, and what whole plans do to a catalog of balances, alone and interleaved |
| `TenantRegistry`, `TenantProtocol`, `TenantOutcomes` | the multi-tenant consumer's registry, and concurrent starts, syncs, evictions and `Close` |
| `ConnectionPool`, `RabbitPool`, `MongoPool`, `Eviction` | the per-tenant connection pools with network calls outside the lock, and the choice of the connection to evict |
| `CircuitBreaker` | the breaker of the Tenant Manager client |
| `Options`, `Text`, `Sequences`, `Multiples` | shared helpers |

How the model is built:

- Where the source updates fields under a lock, a class has the same fields and its methods are proved against functions
  on values; the concurrent runs are then state machines over those functions, one step for each critical section and
  for each network call. A run is any sequence of enabled steps from the initial state, so a statement about runs holds
  for every interleaving.
- The outbox table is a map from ids to rows. A repository method is one transaction; `FOR UPDATE SKIP LOCKED` returns
  eligible rows that others have not locked, in any order, as many as there are within the limit. The database may fail at
  any call, and between any two transactions of a dispatch cycle other cycles may change the table and its locks. What
  the handler answers, whether waits are interrupted and which calls on the repository fail are parameters of a cycle,
  and its outcome is stated in terms of them. The bounds on claims, handler calls and deliveries are stated on the actions
  of a run; the ledger that the proofs use is proved to count them (`LedgerCountsActions`).
- Clocks, replies of handlers and brokers, dial and ping results, and the order in which maps are ranged over are left
  open: every value is allowed.
- Amounts are exact reals. The one rounding in the source, dividing a share by one hundred to sixteen decimal places, is
  modelled as it is.
- Go integers are unbounded in the model except in the cron parser, where the 64-bit wrap-around changes the outcome.

Where the code departs from its documentation or from what one would expect, the model follows the code:

- cron: day-of-month and day-of-week must both match; the POSIX crontab utility takes either when both are restricted.
- cron: a step so large that `start + step` exceeds the largest 64-bit integer makes a field list values it does not
  denote: "5/9223372036854775807" asks for minute 5 and lists minute 3 too (`WrapAroundListsWrongMinute`). `ParseField`
  states exactly when a field is right, within its bounds or altogether, `WrongValueIff` the same for one part, and
  `Parse` exactly when the schedule matches nothing but what is asked for.
- transactions: a pending plan credits its destinations at PENDING and again at APPROVED (`ApprovalCreditsTwice`, and
  `ApprovalCreditsTwiceExample` on a concrete catalog), and a CANCELED plan can never be applied as a whole
  (`CanceledNeverApplies`).
- transactions: a credit to a negative balance is refused if the balance stays negative, so the order of postings can
  matter (`NegativeBalanceDependsOnOrder`). If some order applies, the order is irrelevant if and only if each posting by
  itself brings the part of the balance it adds to up to zero or more (`OrderIsIrrelevantIff`).
- breaker: the comments promise one probe in the half-open state; the code admits every request (`HalfOpenAdmitsAll`).
- consumer: from a closed registry a consumer can still be started if and only if some call is past its second check
  (`StartsAfterCloseIff`), and such a state is reachable (`ConsumerAfterClose`).
- MongoDB pool: on the fast path `GetConnection` re-checks that the tenant still has an entry, not that it is the one it
  pinged, although the comment promises that it was not evicted meanwhile. It can return a connection that was already
  disconnected (`FastPathReturnsClosed`); what it returns is the cached connection if and only if the entry was not
  replaced since the ping (`MongoPool.ReturnsCached`).
- outbox: a claim can be taken over at the very instant it reaches the processing timeout, not only after it
  (`ReclaimableIffTimedOut`); a worker that goes on can have the event delivered twice (`DeliveredTwice`).

## Model

| member | source | states |
|---|---|---|
| `CronSchedule.Next` | uncommons/cron/cron.go:104-145 | The result is a whole minute strictly after `from` that matches all five fields, and no whole minute between them matches. `ErrNoMatch` is returned exactly when no instant ever matches, so the cap of 527,040 iterations is never the reason. |
| `CronSchedule.Advance` | uncommons/cron/cron.go:114-141 | One iteration stops exactly at a match; otherwise its jump skips no match, enters another day only at midnight and leaves a day that does not match altogether. |
| `CronSchedule.MonthJump` | uncommons/cron/cron.go:115-119 | Jumping to the first of the next month, December included, skips only minutes of a month that is not listed. |
| `CronSchedule.DayJump` | uncommons/cron/cron.go:121-126 | Jumping to the next midnight, across month and year ends, skips only minutes of a day that does not match. |
| `CronSchedule.HourJump` | uncommons/cron/cron.go:128-133 | Jumping to the next full hour skips only minutes of an hour that is not listed. |
| `CronSchedule.HopCost` | uncommons/cron/cron.go:113-144 | A jump never passes the next match and uses up at least one unit of a budget that is below the iteration cap. |
| `CronSchedule.DayHasRun` | uncommons/cron/cron.go:121-139 | If the next run is on a later day, a day entered at midnight cannot match in its date: the search never walks the minutes of more than two days. |
| `CronSchedule.MatchWithinCycle` | uncommons/cron/cron.go:113-144 | A schedule that ever matches has its least match after any instant within 146,097 days. |
| `Calendar.DateOf` | uncommons/cron/cron.go:115-123 | Every day number is the number of exactly the valid date returned (with `DayNumberInjective`), on both sides of year 1. |
| `Calendar.InstantsRepeat` | uncommons/cron/cron.go:113-144 | After a cycle of 400 years month, day, weekday, hour and minute all repeat. |
| `Calendar.DayNumberOrders` | uncommons/cron/cron.go:115-126 | Day numbers order dates as the calendar does. |
| `Calendar.DayNumberFormula` | uncommons/cron/cron.go:115-126 | The number of every date in closed form, from the leap-year rule alone: 365 days a year, a leap day every fourth year but not every hundredth except every four-hundredth, and the months at their usual lengths. |
| `Calendar.ValidDateIff` | uncommons/cron/cron.go:115-126 | A date is valid if and only if its day is at least 1 and it comes before the first of the next month, December included. |
| `Calendar.NextWeekday` | uncommons/cron/cron.go:121 | Weekdays follow one another from day to day, Saturday being followed by Sunday. |
| `Calendar.UnixEpoch` | uncommons/cron/cron.go:121 | Weekdays are anchored: 1 January 1970 is a Thursday, counted from Sunday as 0. |
| `CronExpression.Parse` | uncommons/cron/cron.go:54-97 | An expression is accepted exactly when it has five readable fields. The schedule matches exactly the instants the fields hold, so it misses none they ask for; it adds none if and only if the date fields hold no day at all, or minute and hour fields are faithful and the date fields ask for every day they hold. |
| `CronExpression.HeldIsCoveredIff` | uncommons/cron/cron.go:54-97 | The same equivalence between what the fields hold and what they ask for. |
| `CronField.ParseField` | uncommons/cron/cron.go:147-160 | An accepted field gives a strictly increasing, non-empty list of exactly what its parts yield. It is the union of what they denote, and lies within the bounds, if and only if no part has `start + step` beyond the largest integer; within the bounds it adds nothing if and only if every stray value of a wrapping part is denoted by some part. |
| `CronField.FieldExactIff` | uncommons/cron/cron.go:147-160 | A field holds exactly what it asks for, and only values within its bounds, if and only if none of its parts wraps around. |
| `CronField.FieldFaithfulIff` | uncommons/cron/cron.go:147-160 | Within its bounds a field holds nothing it does not ask for if and only if each value below the start of a wrapping part by a multiple of twice its shortfall is denoted by some part. |
| `CronField.CollectParts` | uncommons/cron/cron.go:148-157 | The lists of the parts one after the other, or nothing as soon as one is refused. |
| `CronField.FieldValuesYield` | uncommons/cron/cron.go:147-160 | A field is accepted exactly if all its parts are, and lists exactly what they yield. |
| `CronField.WrapAroundListsWrongMinute` | uncommons/cron/cron.go:213-216 | The minute field "5/9223372036854775807" is accepted, asks for 5 and not for 3, and holds 3. |
| `CronField.Deduplicate` | uncommons/cron/cron.go:253-267 | Strictly increasing, with exactly the members of the input. |
| `CronPart.ParsePart` | uncommons/cron/cron.go:162-219 | A part is refused exactly when it cannot be read, which `CronSyntax.ReadPartIff` ties to the text; otherwise it lists exactly the values from its start to its end in steps, or, when the first addition wraps around, exactly the spread below its start. |
| `CronPart.List` | uncommons/cron/cron.go:213-216 | The listing loop, with wrapping 64-bit addition, ends for every step and gives the sequence `Listing`. |
| `CronPart.ExactListing` | uncommons/cron/cron.go:213-216 | Without wrap-around a part lists exactly what it denotes, also when a later addition would wrap. |
| `CronPart.WrappedListing` | uncommons/cron/cron.go:213-216 | With wrap-around the listing is, in full, the start and every value below it by a multiple of twice the shortfall, down to minus the shortfall, and a far negative value after each but the last. |
| `CronPart.SpreadAbove` | uncommons/cron/cron.go:213-216 | The non-negative values of such a listing in closed form. |
| `CronPart.WrongValueIff` | uncommons/cron/cron.go:213-216 | A part lists a wrong value at or above a bound if and only if it wraps around and its start is at least twice the shortfall above the bound. |
| `CronSyntax.ReadPartIff` | uncommons/cron/cron.go:162-251 | A text is read as a start, an end and a step if and only if the grammar says so: a star, two numbers around the first dash in order and within the bounds, or a number within the bounds, which is open above exactly if a step follows; then nothing, for step one, or a slash and a positive number. All else is refused. |
| `CronSyntax.StarLists` | uncommons/cron/cron.go:162-219 | "*" lists exactly the bounds and what lies between, "*/s" exactly every s-th value of that from the lower bound. |
| `CronSyntax.ValueLists` | uncommons/cron/cron.go:162-219 | "a" lists exactly a, "a/s" exactly a, a + s and so on up to the upper bound. |
| `CronSyntax.RangeLists` | uncommons/cron/cron.go:162-251 | "a-b" lists exactly a to b, "a-b/s" exactly every s-th value of that from a. |
| `CronSyntax.ValueIsRefused` | uncommons/cron/cron.go:196-199 | A number is refused if and only if it is outside the bounds. |
| `CronSyntax.RangeIsRefused` | uncommons/cron/cron.go:233-251 | A range is refused if and only if an end is outside the bounds or they are the wrong way round. |
| `CronText.AtoiIff` | uncommons/cron/cron.go:222-245 | A string is read as a number if and only if it is that number in decimal, after any zeros and an optional sign, and fits 64 bits. |
| `CronText.FieldsIff` | uncommons/cron/cron.go:60 | The words of a string are exactly those it can be woven from, with white space between them and around them. |
| `CronText.FieldsOfTrim` | uncommons/cron/cron.go:55-60 | Trimming the expression first does not change its words. |
| `CronText.SplitJoins` | uncommons/cron/cron.go:150 | Splitting at commas loses nothing and leaves no comma: joining the parts gives the field back. |
| `Text.TrimParts` | uncommons/cron/cron.go:55 | Trimming takes away white space at both ends and nothing else. |
| `OutboxProtocol.AttemptsAreBounded` | uncommons/outbox/postgres/repository.go:563-579 | In every interleaving, with crashes, stale owners and lost updates, the actions of the run claim an event at most MaxDispatchAttempts times and call its handler at most PublishMaxAttempts times per claim; attempts stay below the maximum until the row is terminal. |
| `OutboxProtocol.LedgerCountsActions` | uncommons/outbox/postgres/repository.go:754-788 | What the proofs count is what happened: the entries of an event's ledger are its claims in the run, their sum its handler calls, `sent` the successful ones. |
| `OutboxProtocol.RunKeepsInv` | uncommons/outbox/postgres/repository.go:754-788 | In every reachable state: claims are attempts + 1 while PROCESSING, attempts while FAILED; each held event has its own claim; no claim has more handler calls than allowed; a PUBLISHED row was delivered. |
| `OutboxProtocol.StepKeepsInv` | uncommons/outbox/dispatcher.go:313-348 | Each step of each cycle keeps that invariant. |
| `OutboxProtocol.RowsArePermanent` | uncommons/outbox/status.go:38-51 | No created event disappears, every change of a row follows `CanTransitionTo`, PUBLISHED and INVALID rows never change again. |
| `OutboxProtocol.PublishedWasDelivered` | uncommons/outbox/dispatcher.go:324-347 | A PUBLISHED row was delivered by an earlier successful handler call for that very event. |
| `OutboxOutcomes.RowsTellHistory` | uncommons/outbox/postgres/repository.go:563-579 | In every state of every run the attempts of a row are the number of actions that recorded a failed or timed-out claim of it; it is INVALID if and only if that number reached MaxDispatchAttempts or a failure that must not be retried was recorded, and PUBLISHED if and only if a success was recorded. |
| `OutboxOutcomes.InvalidHasCause` | uncommons/outbox/dispatcher.go:888-913 | A row that is INVALID with attempts left was given up by a worker that a handler call or an interrupted wait had told not to try again, and that recorded this later. |
| `OutboxOutcomes.PublishedHasCause` | uncommons/outbox/dispatcher.go:324-347 | A PUBLISHED row was delivered by a successful handler call of the very worker that recorded it. |
| `OutboxExclusivity.BatchesAreDisjoint` | uncommons/outbox/postgres/repository.go:963-993 | If no cycle works on an event for as long as the processing timeout and successes are recorded, no two cycles ever hold the same event and the run has at most one successful handler call for each event. |
| `OutboxExclusivity.RunKeepsExclusive` | uncommons/outbox/postgres/repository.go:867-993 | In such a run every held event is in PROCESSING since the very claim it is held under. |
| `OutboxExclusivity.ReclaimableIffTimedOut` | uncommons/outbox/postgres/repository.go:963-993 | The time bound is exact: a held event can be reclaimed by another cycle if and only if its claim has reached the timeout. |
| `OutboxExclusivity.ReclaimedIsHeldTwice` | uncommons/outbox/postgres/repository.go:727-797 | After such a reclaim both cycles hold the event. |
| `OutboxReachability.HeldTwice` | uncommons/outbox/postgres/repository.go:727-797 | For every configuration with at least two attempts, a run that reaches such a state. |
| `OutboxReachability.DeliveredTwice` | uncommons/outbox/dispatcher.go:311-348 | For every such configuration, a run with two successful handler calls for one event: the bound on working time cannot be dropped. |
| `OutboxReachability.EveryEventCanFinish` | uncommons/outbox/dispatcher.go:621-689 | No event is ever stranded: from every reachable state some continuation publishes it, or makes it INVALID if its last attempt is already under way. |
| `OutboxReachability.LifeCycleIsExact` | uncommons/outbox/status.go:38-51 | A change of status is allowed by `CanTransitionTo` if and only if it happens in some run. |
| `OutboxRepository.Repository.Create` | uncommons/outbox/postgres/repository.go:232-308 | Succeeds exactly for a type that is not blank, a new id and a working database: a PENDING row with no attempts and its type trimmed. A failure changes nothing and has its own error. |
| `OutboxRepository.Repository.ListPending` | uncommons/outbox/postgres/repository.go:311-367 | Claims distinct PENDING rows that nobody has locked, as many as there are within `limit`: exactly these become PROCESSING, with type and attempts kept, and the copies handed out agree with the table. Fails exactly for a limit that is not positive or a failing database, and then changes nothing. |
| `OutboxRepository.Repository.ListPendingByType` | uncommons/outbox/postgres/repository.go:370-436 | The same for the PENDING rows of one type, trimmed; a blank type is refused. |
| `OutboxRepository.Repository.ResetForRetry` | uncommons/outbox/postgres/repository.go:659-724 | The same for FAILED rows with fewer than `maxAttempts` attempts that were last updated no later than `failedBefore`. |
| `OutboxRepository.Repository.ResetStuckProcessing` | uncommons/outbox/postgres/repository.go:727-797 | Takes as many unlocked rows as it can that are in PROCESSING since `processingBefore` or earlier; exactly these count one more attempt. Those that reach the maximum become INVALID, exactly the others are handed out. |
| `OutboxRepository.Repository.MarkPublished` | uncommons/outbox/postgres/repository.go:465-528 | Succeeds exactly on a PROCESSING row with a working database: its status becomes PUBLISHED, type and attempts stay, nothing else changes; an error changes nothing. |
| `OutboxRepository.Repository.MarkFailed` | uncommons/outbox/postgres/repository.go:531-615 | Succeeds exactly on a PROCESSING row with a working database: it counts one more attempt and becomes FAILED if these are below the maximum, and INVALID otherwise; nothing else changes, and an error changes nothing. |
| `OutboxRepository.Repository.MarkInvalid` | uncommons/outbox/postgres/repository.go:800-865 | Succeeds exactly on a PROCESSING row with a working database: it becomes INVALID with its attempts kept; an error changes nothing. |
| `OutboxRepository.Repository.UpdateWhere` | uncommons/outbox/postgres/repository.go:1014-1053 | A status update goes through exactly if every id is in the expected status, and otherwise rolls back. |
| `OutboxRepository.Select` | uncommons/outbox/postgres/repository.go:867-993 | A locking query returns distinct eligible rows that are not locked, as the table has them, and stops short of the limit only when there are no more. |
| `OutboxRepository.SplitStuck` | uncommons/outbox/postgres/repository.go:1140-1159 | The retried and the exhausted events partition the stuck ones by their attempts. |
| `OutboxRepository.ApplyState` | uncommons/outbox/postgres/repository.go:1161-1196 | The copies in memory are changed as the rows are, in the same order. |
| `OutboxDispatcher.Dispatcher.CollectEvents` | uncommons/outbox/dispatcher.go:621-689 | On every early-return path, and whatever other cycles do between its claims: at most BatchSize events with distinct ids, in layer order, and their ids are exactly those handed out in this cycle, whose claims are those of `IsCycle`. |
| `OutboxDispatcher.Dispatcher.ClaimLayers` | uncommons/outbox/dispatcher.go:621-686 | The claims of a cycle: priority rows within the smaller of budget and batch, rows stuck since `now` minus the processing timeout, failed rows older than the retry window within their own limit, and pending rows, each with the room that the earlier ones left, each taking as many rows as it can; the first without room ends the cycle, and a failed claim counts as empty. |
| `OutboxDispatcher.Dispatcher.CollectPriorityEvents` | uncommons/outbox/dispatcher.go:715-744 | One claim for each priority type in turn, of its PENDING rows, with what is left of the budget, until it is used up. |
| `OutboxBatch.CycleFits` | uncommons/outbox/dispatcher.go:621-686 | Such claims never hand out more than BatchSize events together. |
| `OutboxDispatcher.DeduplicateEvents` | uncommons/outbox/dispatcher.go:691-713 | The ids that remain are the first occurrences, in order. |
| `OutboxDispatcher.EarlierLayersFirst` | uncommons/outbox/dispatcher.go:610-620 | Removing duplicates keeps earlier layers as a prefix. |
| `OutboxDispatcher.Dispatcher.PublishWithRetry` | uncommons/outbox/dispatcher.go:842-874 | Succeeds if and only if one of the first PublishMaxAttempts answers of the handler is a success and all before it are retryable errors with uninterrupted waits; is non-retryable if and only if the tries end with an error classified so; used-up tries are not. |
| `OutboxDispatcher.Dispatcher.DispatchEvent` | uncommons/outbox/dispatcher.go:322-347 | Publishes exactly if the delivery succeeds; the outcome is stored exactly if the row is still in PROCESSING and the update does not fail, as PUBLISHED, INVALID, or FAILED or INVALID with one more attempt, all other fields of the table unchanged. |
| `OutboxDispatcher.Dispatcher.DispatchBatch` | uncommons/outbox/dispatcher.go:311-348 | Processes the batch in order up to the cancellation; `published` is the number of processed events whose delivery succeeds, and the recorded ones among them are PUBLISHED from then on. |
| `OutboxDispatcher.Dispatcher.DispatchOnce` | uncommons/outbox/dispatcher.go:274-360 | A whole cycle: the claims are those of `IsCycle`, `processed` is the smaller of batch and cancellation, `published` exactly the processed events whose delivery succeeds, `failed` the others; `published - stateUpdateFailed` is the number of distinct delivered events recorded as PUBLISHED, which stay so; terminal rows stay and attempts never fall, whatever other cycles do. |
| `OutboxDispatcher.Dispatcher.HandlePublishError` | uncommons/outbox/dispatcher.go:888-905 | A non-retryable failure makes the row INVALID with its attempts kept, any other one counts an attempt and makes it FAILED, or INVALID at the maximum; only a PROCESSING row changes. |
| `OutboxDispatcher.Dispatcher.TenantDispatchOrder` | uncommons/outbox/dispatcher.go:593-608 | All tenants, each as often as given, in a rotation that starts at the tenant whose turn it is. |
| `OutboxDispatcher.EveryTenantLeadsOnce` | uncommons/outbox/dispatcher.go:598-601 | Over as many cycles as there are tenants each goes first exactly once, whatever the turn was at the start. |
| `PublisherSafety.SuccessMeansAcked` | uncommons/rabbitmq/publisher.go:561-676 | In every interleaving `PublishAndWaitConfirm` returns nil only if the broker acknowledged that very message; whenever the publish lock is free, the publisher is closed or its confirm stream has no outstanding confirmation. |
| `PublisherSafety.AckedByBroker` | uncommons/rabbitmq/publisher.go:646-676 | A message counts as acknowledged only through a step in which the broker acked it as the oldest unconfirmed message of its channel. |
| `PublisherSafety.RunKeepsInv` | uncommons/rabbitmq/publisher.go:315-333 | Every reachable state keeps the invariant of threads, lock holder, channels, fields and signals. |
| `PublisherSafety.StepKeepsInv` | uncommons/rabbitmq/publisher.go:489-523 | So does each of the 29 kinds of steps from any state that has it. |
| `PublisherSafety.ReadConfirmKeepsInv` | uncommons/rabbitmq/publisher.go:655-664 | The confirmation read by a waiting call is for its own message, and no other is left on the stream. |
| `PublisherSafety.InstallKeepsInv` | uncommons/rabbitmq/publisher.go:724-771 | A reconnect puts the publisher on a stream on which nothing was published. |
| `PublisherSafety.ShutdownIsFinal` | uncommons/rabbitmq/publisher.go:680-771 | Shutdown implies closed and is permanent: no later step reopens the publisher, nothing more is sent, every later publish is refused. |
| `PublisherSafety.SignalsCloseOnce` | uncommons/rabbitmq/publisher.go:846-867 | No closed or done signal is ever closed twice. |
| `PublisherDelivery.ConfirmationDecides` | uncommons/rabbitmq/publisher.go:646-676 | A call that reads a confirmation returns nil if and only if, earlier in the run, the broker answered that very message with an ack. |
| `PublisherDelivery.AnsweredOnce` | uncommons/rabbitmq/publisher.go:646-676 | The broker answers each message at most once in a run. |
| `PublisherDelivery.RunKeepsMessages` | uncommons/rabbitmq/publisher.go:561-618 | In every reachable state each message is unconfirmed on one channel or answered, in one place only. |
| `PublisherDelivery.RunKeepsWatch` | uncommons/rabbitmq/publisher.go:301-333 | An open publisher always has a monitor on its channel, and a closed one has woken the waiting calls or is about to. |
| `PublisherDelivery.RunKeepsLost` | uncommons/rabbitmq/publisher.go:632-644 | A publisher without a channel has closed the one it had, or is about to. |
| `PublisherProgress.LockIsGivenBack` | uncommons/rabbitmq/publisher.go:561-618 | From every reachable state whoever holds the publish lock can give it back within four steps: no call waits for ever on a publisher that is closed. |
| `PublisherProgress.CanAlwaysDeliver` | uncommons/rabbitmq/publisher.go:561-771 | From every reachable state of a publisher that is not being shut down, some continuation has a publish call return whatever the broker answers, nil for an ack and an error for a nack. |
| `PublisherProgress.ClosedReconnects` | uncommons/rabbitmq/publisher.go:724-771 | A closed publisher that is not shut down can be put on a new open channel. |
| `PublisherProgress.DeadChannelReconnects` | uncommons/rabbitmq/publisher.go:301-377 | So can one whose channel died unnoticed, through its own monitor and recovery. |
| `PublisherProgress.CloseTakesEffect` | uncommons/rabbitmq/publisher.go:680-722 | Close marks the publisher, wakes the waiting calls and the monitors, and closes the channel. |
| `PublisherRecovery.ObtainedIsNotLeaked` | uncommons/rabbitmq/publisher.go:446-487 | In every run a channel obtained for recovery is on its way to be installed, was installed, or is closed. |
| `PublisherRecovery.ExhaustedIff` | uncommons/rabbitmq/publisher.go:335-377 | The publisher counts as exhausted if and only if some recovery used up its attempts and nothing has started over since: no recovery, no reconnect, no Close. |
| `Transaction.ApplyPosting` | uncommons/transaction/validations.go:125-144 | A posting that applies leaves both parts of the balance non-negative and raises its version by one. |
| `Transaction.PostingApplies` | uncommons/transaction/validations.go:125-251 | On a balance that is not negative a posting applies if and only if it is for this balance and asset with a positive amount, its operation is allowed in its status, and the part it draws on holds the amount; each way to be refused has its own error, both ways. |
| `Transaction.HoldsAreHonoured` | uncommons/transaction/validations.go:187-251 | In any history where each approved debit or release settles one open hold, on-hold covers all open holds, and settling one fails only if the posting is not for this balance, never for insufficient funds. |
| `TransactionHolds.ApprovalAlwaysApplies` | uncommons/transaction/validations.go:125-251 | From a catalog without negative balances, once the PENDING plan of an intent was applied and as long as nobody else settled its holds, its APPROVED plan applies as a whole, whatever other postings came between. |
| `TransactionHolds.ApprovalMirrorsHolds` | uncommons/transaction/validations.go:292-343 | The APPROVED plan of an intent settles exactly the holds of its PENDING plan and credits the same amounts. |
| `TransactionHolds.HistoryIsSound` | uncommons/transaction/validations.go:187-251 | In any interleaving of postings over a catalog the on-hold part of every balance covers all its open holds. |
| `Transaction.HoldThenRelease` | uncommons/transaction/validations.go:187-207 | Hold then release restores both amounts. |
| `Transaction.HoldThenDebit` | uncommons/transaction/validations.go:187-224 | Hold then approved debit ends where a direct debit ends, and one is possible exactly when the other is. |
| `Transaction.PostingDelta` | uncommons/transaction/validations.go:170-239 | What each operation adds to available plus on-hold. |
| `TransactionPlan.BuildIntentPlan` | uncommons/transaction/validations.go:13-69 | Succeeds exactly for valid intents: asset, total and sides given, each side plannable, no balance on both. The plan then carries out the allocations in order, with positive amounts that sum to the total on each side. Ambiguity, a wrong status and a mismatch are reported only when they are the reason; the later mismatch error is unreachable. |
| `TransactionPlan.BuildPostings` | uncommons/transaction/validations.go:292-343 | Succeeds exactly if every allocation is valid, at most one takes the remainder, and the amounts asked for leave something for it, or make up the total when there is none; a mismatch is reported exactly when only the sum is wrong. Targets, asset, status, routes and amounts are those of the allocations. |
| `TransactionPlan.BuildPosting` | uncommons/transaction/validations.go:345-387 | Succeeds exactly for a named target, exactly one of a positive amount, a share in (0, 100] that comes to something, or the remainder, and a status that fits; the posting has the fields of the allocation and the amount it asks for. |
| `TransactionPlan.HundredthIsNearest` | uncommons/transaction/validations.go:425 | A share divided by one hundred is rounded to the nearest of sixteen decimal places, ties upwards. |
| `TransactionPlan.SmallestShare` | uncommons/transaction/validations.go:425-428 | A share of a positive total comes to nothing, and is refused, if and only if it is below 0.000000000000005. |
| `TransactionPlan.ResolvedOperationApplies` | uncommons/transaction/validations.go:209-290 | A resolved operation is refused by its status only as the destination debit of a canceled transaction. |
| `TransactionPlan.SumPostings` | uncommons/transaction/validations.go:461-469 | The sum of the amounts. |
| `TransactionPlan.Overlap` | uncommons/transaction/validations.go:51-60 | True exactly if some balance appears on both sides. |
| `TransactionLedger.PlanConserves` | uncommons/transaction/validations.go:13-69 | Applying a whole plan changes the wealth of the catalog by exactly 0 for CREATED and APPROVED and by exactly +Total for PENDING. |
| `TransactionEffects.PlanMoves` | uncommons/transaction/validations.go:13-239 | What applying a plan does to any balance. CREATED: its source amounts leave available, its destination amounts enter it. PENDING: the source amounts go from available to on hold, the destinations are credited. APPROVED: the source amounts leave on hold, the destinations are credited. Account, asset and id stay; the version rises by the number of its postings. |
| `TransactionEffects.PlanApplies` | uncommons/transaction/validations.go:125-251 | From balances that are not negative a plan applies as a whole if and only if every posting is for an existing balance of its account and asset, and no balance is asked for more than it has: available, or on hold on approval. |
| `TransactionEffects.SourcesApply` | uncommons/transaction/validations.go:125-251 | The same for one side: postings that draw on balances apply one after the other if and only if each fits and their sum on every balance is covered. |
| `TransactionLedger.SourcesKeepWorth` | uncommons/transaction/validations.go:187-196 | For PENDING the change is all on the destinations: every other balance keeps available plus on-hold. |
| `TransactionLedger.CanceledNeverApplies` | uncommons/transaction/validations.go:209-224 | No catalog lets all postings of a CANCELED plan apply. |
| `TransactionLedger.ApprovalCreditsTwice` | uncommons/transaction/validations.go:254-290 | PENDING followed by APPROVED of one intent adds the total once to the wealth. |
| `TransactionLedger.TransferCreditsTwice` | uncommons/transaction/validations.go:254-290 | Every held and approved transfer between two balances: the payer pays the total once, the payee receives it twice. |
| `TransactionLedger.ApprovalCreditsTwiceExample` | uncommons/transaction/validations.go:254-290 | A concrete intent and catalog on which both stages apply in full. |
| `TransactionLedger.PlanOrderIsIrrelevant` | uncommons/transaction/validations.go:51-60 | From balances that are not negative, whether all postings of a plan apply, and the balances they leave, is the same for every permutation of the postings. |
| `TransactionLedger.OrderIsIrrelevant` | uncommons/transaction/validations.go:125-251 | The same for any postings of one kind per balance, if each by itself brings the part of the balance it adds to up to zero or more. |
| `TransactionLedger.OrderIsIrrelevantIff` | uncommons/transaction/validations.go:125-251 | When postings of one kind per balance apply in some order, they apply in every order with the same balances if and only if each by itself brings the part it adds to (available for credits and releases, on-hold for holds) up to zero or more; debits never matter. |
| `TransactionLedger.PlanOrderIsIrrelevantIff` | uncommons/transaction/validations.go:51-60 | The same equivalence for the postings of a plan, from any balances. |
| `TransactionLedger.NegativeBalanceDependsOnOrder` | uncommons/transaction/validations.go:241-251 | From a negative balance two credits can fail in one order and apply in the other. |
| `TenantProtocol.RunKeepsInv` | uncommons/tenantmanager/consumer/multi_tenant.go:1091-1148 | In every interleaving of starts, syncs, evictions and Close the uncancelled contexts correspond one-to-one with the keys of the tenants map. |
| `TenantProtocol.StartOverwritesNothing` | uncommons/tenantmanager/consumer/multi_tenant.go:1121-1147 | A start never finds a cancel function to overwrite and keeps every live context. |
| `TenantProtocol.DroppedTenantIsStopped` | uncommons/tenantmanager/consumer/multi_tenant.go:432-447 | A tenant that a sync drops has no running consumer and no live context afterwards. |
| `TenantProtocol.KnownIsSlidingWindow` | uncommons/tenantmanager/consumer/multi_tenant.go:495-532 | After a discovery and any syncs and evictions a tenant is known if and only if it appeared in one of the last three fetches, the discovery included, and was not evicted since. |
| `TenantProtocol.CountersCount` | uncommons/tenantmanager/consumer/multi_tenant.go:505-527 | The counter of a known tenant is the number of fetches since it was last seen; a count left behind by an eviction does no harm. |
| `TenantProtocol.NothingStartsOnceQuiet` | uncommons/tenantmanager/consumer/multi_tenant.go:1121-1130 | Once closed with no call past its second check, no consumer is ever started again. |
| `TenantProtocol.StartsAfterCloseIff` | uncommons/tenantmanager/consumer/multi_tenant.go:1121-1147 | From a closed state some continuation starts a consumer if and only if a call is past its second check. |
| `TenantProtocol.ConsumerAfterClose` | uncommons/tenantmanager/consumer/multi_tenant.go:1128-1147 | For every tenant, a run whose last state is closed and has a running consumer for it. |
| `TenantOutcomes.EvictedTenantIsStopped` | uncommons/tenantmanager/consumer/multi_tenant.go:666-677 | In every interleaving an evicted tenant is unknown and has no running consumer and no live context afterwards; no other tenant is stopped or forgotten. |
| `TenantOutcomes.SyncStopsExactly` | uncommons/tenantmanager/consumer/multi_tenant.go:432-447 | In every interleaving a sync of an open registry stops exactly the tenants it forgets, keeps every other context as it was, and knows all fetched tenants. |
| `TenantOutcomes.StartedTenantRuns` | uncommons/tenantmanager/consumer/multi_tenant.go:763-780 | In every interleaving a start makes its tenant run on a new live context and touches nobody else. |
| `TenantOutcomes.CloseStopsAll` | uncommons/tenantmanager/consumer/multi_tenant.go:1174-1196 | In every interleaving no consumer and no live context is left right after Close, and no tenant is known. |
| `TenantOutcomes.ConsumerCanStart` | uncommons/tenantmanager/consumer/multi_tenant.go:1091-1148 | While the registry is open a consumer can be started for every tenant from every reachable state, whoever holds its mutex, in at most five steps. |
| `TenantRegistry.Consumer.DiscoverTenants` | uncommons/tenantmanager/consumer/multi_tenant.go:354-359 | The fetched ids become known; nothing else changes. |
| `TenantRegistry.Consumer.ReconcileTenantPresence` | uncommons/tenantmanager/consumer/multi_tenant.go:495-532 | Known afterwards are the fetched tenants and those absent fewer than three times; counts are zeroed, raised or deleted accordingly; the result names exactly the dropped tenants that run. |
| `TenantRegistry.Consumer.CancelRemovedTenantConsumers` | uncommons/tenantmanager/consumer/multi_tenant.go:551-558 | Exactly the contexts of the named running tenants are cancelled and their entries removed. |
| `TenantRegistry.Consumer.SyncTenants` | uncommons/tenantmanager/consumer/multi_tenant.go:432-447 | A sync is refused once closed; otherwise it reconciles and stops exactly the dropped tenants. |
| `TenantRegistry.Consumer.EvictSuspendedTenant` | uncommons/tenantmanager/consumer/multi_tenant.go:666-677 | The tenant is cancelled if it runs and becomes unknown; its absence count stays. |
| `TenantRegistry.Consumer.CloseAll` | uncommons/tenantmanager/consumer/multi_tenant.go:1174-1196 | Every running tenant's context is cancelled and all maps are emptied. |
| `TenantRegistry.Consumer.StartTenantConsumer` | uncommons/tenantmanager/consumer/multi_tenant.go:763-780 | One new live context, filed under the tenant. |
| `RabbitPool.NoConnectionLeaks` | uncommons/tenantmanager/rabbitmq/manager.go:154-345 | In every interleaving each connection opened is closed, cached, or held by exactly one call in flight; whatever is cached or returned for a tenant was dialed for it; connections and lastAccessed have equal key sets. |
| `RabbitPool.HolderMustGiveUp` | uncommons/tenantmanager/rabbitmq/manager.go:213-252 | A call that holds a connection can always take a step, and its only steps are to offer the connection to the pool and to close it. |
| `RabbitPool.HeldStaysOrSettles` | uncommons/tenantmanager/rabbitmq/manager.go:213-252 | Whatever step any call takes, a held connection stays with its holder, is closed or is cached. |
| `RabbitPool.HeldForTwoStepsAtMost` | uncommons/tenantmanager/rabbitmq/manager.go:213-252 | In every run a call has closed or cached a connection at most two steps of its own after it held it. |
| `RabbitPool.CloseShutsEverything` | uncommons/tenantmanager/rabbitmq/manager.go:304-324 | After Close the cache stays empty, and once no call holds a connection everything ever opened is closed. |
| `RabbitPool.ReturnsCached` | uncommons/tenantmanager/rabbitmq/manager.go:105-255 | A call decides to return the connection cached for its tenant at that moment, one it found open or has just cached, and an error only if the manager is closed or the dial failed; except on the second check the access time is set. |
| `RabbitPool.DropReturnsDecided` | uncommons/tenantmanager/rabbitmq/manager.go:216-238 | A call that lost a race closes the connection it dialed and returns what it had decided. |
| `RabbitPool.TenantsAreIsolated` | uncommons/tenantmanager/rabbitmq/manager.go:105-255 | In every run a connection that is cached for or returned to a tenant was dialed for that tenant. |
| `RabbitPool.StoreEffect` | uncommons/tenantmanager/rabbitmq/manager.go:240-284 | Caching a connection drops and closes the victim of the eviction, if any, files the new one and its time, and changes no other entry. |
| `RabbitPool.CloseEffect` | uncommons/tenantmanager/rabbitmq/manager.go:304-345 | CloseConnection closes the connection of its tenant and drops its entry only; Close closes every cached connection. |
| `RabbitPool.CallCanSucceed` | uncommons/tenantmanager/rabbitmq/manager.go:105-255 | From every reachable state of an open manager a call can get an open connection of its tenant, in at most four steps. |
| `MongoPool.NoConnectionLeaks` | uncommons/tenantmanager/mongo/manager.go:169-513 | The same for the MongoDB pool, where a call may also hold connections it took out of the cache to disconnect them. |
| `MongoPool.HolderMustGiveUp` | uncommons/tenantmanager/mongo/manager.go:435-480 | A call that holds a connection can always take a step, and its only steps are to offer it to the pool and to disconnect one. |
| `MongoPool.HeldStaysOrSettles` | uncommons/tenantmanager/mongo/manager.go:435-480 | Whatever step any call takes, a held connection stays with its holder or is closed or cached, and each step of the holder leaves it fewer. |
| `MongoPool.HeldForFewSteps` | uncommons/tenantmanager/mongo/manager.go:593-650 | In every run a call has closed or cached each connection it holds after as many steps of its own as it holds connections. |
| `MongoPool.CloseShutsEverything` | uncommons/tenantmanager/mongo/manager.go:593-650 | After Close the cache stays empty, and once no call holds a connection everything ever opened is disconnected. |
| `MongoPool.ReturnsCached` | uncommons/tenantmanager/mongo/manager.go:169-480 | A call returns an error only if the manager is closed or it could not connect, and otherwise sets the access time. What it returns is cached for its tenant then, except on the fast path, where this is so if and only if the entry was not replaced since the ping. |
| `MongoPool.FastPathReturnsClosed` | uncommons/tenantmanager/mongo/manager.go:209-223 | For every tenant, a run in which the fast path returns a connection that was disconnected before. |
| `MongoPool.TenantsAreIsolated` | uncommons/tenantmanager/mongo/manager.go:169-480 | In every run a connection that is cached for or returned to a tenant was dialed for that tenant. |
| `MongoPool.StoreEffect` | uncommons/tenantmanager/mongo/manager.go:435-513 | Caching a connection drops and disconnects the victim of the eviction, if any, files the new one and its time, and changes no other entry. |
| `MongoPool.CloseConnectionEffect` | uncommons/tenantmanager/mongo/manager.go:628-650 | CloseConnection takes the entry of its tenant, and no other, out of the cache and holds its connection. |
| `MongoPool.CloseEffect` | uncommons/tenantmanager/mongo/manager.go:593-625 | Close empties the cache and holds every connection that was in it. |
| `MongoPool.CallCanSucceed` | uncommons/tenantmanager/mongo/manager.go:169-480 | From every reachable state of an open manager a call can return the connection cached for its tenant, in at most four steps. |
| `ConnectionPool.CaptureKeeps` | uncommons/tenantmanager/mongo/manager.go:595-608 | Taking connections out of the cache hands each to exactly one call. |
| `ConnectionPool.PutKeeps` | uncommons/tenantmanager/rabbitmq/manager.go:240-245 | Caching a connection loses no open one and moves it from the call to the cache. |
| `Eviction.FindLRUEvictionCandidate` | uncommons/tenantmanager/internal/eviction/lru.go:33-88 | A candidate is idle for at least the timeout and accessed no later than any other idle entry; none is returned from a full pool only if no entry is idle. |
| `CircuitBreaker.RefusalIsHistory` | uncommons/tenantmanager/client/client.go:148-200 | With a clock that does not run backwards, a request is refused if and only if at least threshold failures were recorded since the last success and some failure is no older than the timeout, for every order of checks and late results. |
| `CircuitBreaker.HalfOpenAdmitsAll` | uncommons/tenantmanager/client/client.go:156-166 | Once all failures are older than the timeout, every check is admitted until a result arrives. |
| `CircuitBreaker.Breaker.Check` | uncommons/tenantmanager/client/client.go:148-167 | Refuses exactly while open and not timed out; an open breaker that has timed out becomes half-open. |
| `CircuitBreaker.Breaker.RecordSuccess` | uncommons/tenantmanager/client/client.go:171-181 | Closes the breaker and forgets the failures; does nothing when disabled. |
| `CircuitBreaker.Breaker.RecordFailure` | uncommons/tenantmanager/client/client.go:186-200 | Counts the failure and its time and opens the breaker at the threshold; does nothing when disabled. |

## Left out

- SQL text, tenant filters, tenant resolvers, tracing, metrics, logging and error texts: only the WHERE and SET meaning of each statement is kept.
- Validation of new outbox events (ids, payload size and JSON), creation and update times that the caller supplies, and `nil` events: easy checks and defaults before the table is touched.
- Between the transactions of a cycle, other cycles are only known to keep rows, leave terminal rows alone and never lower attempts; that they follow the life cycle is part of the protocol model.
- The order of rows within a layer of a batch: queries return eligible rows in any order.
- OutboxDispatcher.Dispatcher.PublishWithRetry: the retry classifier is taken to answer alike for an error and for the same error wrapped; backoff times are left open.
- Outbox clocks: all cycles read one clock that does not run backwards, and the two readings at the start of a cycle count as one.
- PublisherProtocol and the two pools: critical sections are steps on values and not methods of a class, because the interleaving of steps is what is proved; aliasing of the Go objects is not captured.
- The publisher's health state and callbacks, `nil` receivers and channels, and the capacity of the confirmation buffer; each channel given to `Reconnect` is a new one used by this publisher only, as its documentation requires.
- A publish that returns an error from the channel is taken to have sent nothing.
- `ValidateBalanceEligibility`: a list of independent checks on each balance.
- Domain error texts and field names of the transaction package; decimals of unbounded size are exact.
- CronField.ParseField: fields are strings of Unicode characters, and bounds are far below the largest integer, as all five fields have them.
- The range of Go's `time.Time`: the calendar has no first or last year.
- Fetching tenant ids, filtering invalid ids, closing connections of removed tenants and revalidating settings in the multi-tenant consumer; a second discovery on the same consumer.
- The contexts that callers pass in: a context counts as cancelled when its own cancel function was called.
- A close or disconnect of a connection that returns an error counts as closed.
- What the MongoDB driver does inside `Connect` when it fails, cached entries without a client, and the databaseNames map.
- The PostgreSQL pool, which follows the same pattern as the MongoDB one.
- The breaker's failure counter is unbounded, and durations do not saturate.
- JWT, crypto, cursors, UUID and URL helpers, configuration, HTTP middleware and server shutdown: wrappers or easy members.
