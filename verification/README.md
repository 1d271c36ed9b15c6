# Verified model of the Zhuorui trading service

The service takes order commands from a Kafka log, executes them against a broker that may act
without answering, and publishes account and order snapshots. This project models its hard core
in Dafny and proves what the design relies on. `dafny verify dfyconfig.toml` checks everything.

The pattern is the same throughout. What a component may do is a step machine over plain values,
with crashes, other threads, replies and elapsed time as arbitrary steps; theorems quantify over
every run of it. Where the source is imperative, a class with the source's fields and loops is
proved to take only the machine's steps, so the theorems hold of the code and not of a summary of it.
What a call must do, as opposed to what it may do, is stated apart from the machine: a call that runs
`calm`, with no failing journal write, store, send or report, has an exact outcome, said of the calls
made and the answers on the wire.

| file | models |
|---|---|
| `Decimals`, `Commands` | decimal normal forms, command values and the fingerprint that detects reuse of an ID |
| `Journal`, `BrokerReply`, `CommandProtocol`, `CommandGuarantees`, `CancelGuarantees`, `CancelSelection`, `Outcomes`, `Execution` | durable command execution: the command journal, outcome classification, the protocol with crashes, its guarantees, cancel selection, what a command must leave behind, and the executor with its consume loop |
| `JsonValues`, `JsonContent`, `Canonical`, `CanonicalText`, `JsonReader` | JSON values, canonical text character by character and what it looks like, decoding, and semantic content |
| `OrderPublication`, `OrderJournal`, `OrderTopic`, `Publishing` | the versioned order outbox, series of its calls, the topic with its consumer, and `publish_orders` |
| `SchedulerProtocol`, `SchedulerCadence`, `Scheduler` | the publication scheduler, its periodic cadence and its worker loop |
| `Recovery`, `LoginProtocol`, `LoginHistory`, `ClientProvider` | login recovery: the saved schedule, the provider shared by two threads, which session an episode is about, and the provider class |
| `Amounts`, `Pricing`, `MarketOrders` | decimals and their rounding, order pricing, quote selection, preparation of market orders |
| `DecimalContext`, `Matching`, `Ledger`, `SimulatedBroker`, `BrokerDecisions`, `Charges` | 28-digit decimal arithmetic, greedy matching, what fills do to a balance, the offline matching engine, why it declines an order, and what greedy matching is charged |
| `Mmkv`, `MmkvFormat` | the MMKV log reader, and what its checks accept |

## Assumptions

- One consumer thread runs commands (the instance lock); the order outbox has one writer.
- `emit` and `holdings.request` never raise. `CommandGuarantees.RaisingReportWouldLoseTheTruth` shows
  why this is needed: an exception after the write of "unknown" would turn the row into "rejected".
  Reporting a session error may raise, but not with an `ApiError`.
- Of the broker only this is assumed (`BrokerReply.Honest`): a body with the success code means that
  it acted, a body with any other six-digit code that it did not. Every other answer, and none,
  leaves open what it did. Result codes are ASCII digits.
- A committed offset of the consumer group does not expire. A group that never committed has none,
  and its processes resume at the end of the log (`auto_offset_reset`).
- The command topic has one partition, so the log has one order and one committed offset; the source
  commits per partition and would consume several in one process.
- `sleep(d)` lets the clock advance by at least `d`. The wall clock and the monotonic clock are one
  clock, and a cancellation's due time is not zero.
- A journal or outbox transaction either commits or changes nothing.
- JSON encoding of a fingerprint and SHA-256 are injective.
- `heapq` pops the least entry.

## What the proofs found

- Records can be skipped before the group's first commit. A process that dies holding the first
  record leaves no committed offset, the next one resumes behind that record, and its commit puts it
  below the committed offset without an outcome (`CommandGuarantees.FirstRecordCanBeSkipped`). With a
  committed offset nothing is ever skipped; without one, exactly what a start passed over undecided
  is (`CommandGuarantees.NoRecordIsSkipped`, `CommandGuarantees.SeekSkipsExactlyTheUndecided`).
- `plan_order` does not leave every synthetic price unchanged: it does if and only if the price has
  at most 128 digits, and refuses a longer one (`Pricing.PlanningKeepsTheSyntheticPrice`, with an
  input in `Pricing.LongSyntheticPriceIsRefused`). Ordinary quotes are far below that bound.
- A caller refused during a logout episode holds no client; if it reports only after the login has
  succeeded, the report opens a new episode for a good session
  (`LoginProtocol.LateClientlessReportReopens`). `LoginProtocol.ReportOpensEpisode` gives the exact condition.
- In start-up recovery a clock that passes a due time between its two readings makes the sleep
  negative, which raises and stops the process; no other clock does, and nothing is lost by it
  (`CommandGuarantees.NegativeSleepLosesNothing`).
- The simulated broker does not always move cash by its fills, because sums are rounded to 28 digits:
  with 1000 in cash an ask of 1E-29 is bought for nothing (`SimulatedBroker.ShareForNothing`). All of
  a submission's money is exact if and only if no exact product, partial sum or new balance has more
  than 28 significant digits (`SimulatedBroker.CashMovesExactly`). The cash alone can come out exact
  although its parts were rounded, so for it the condition reads: if the total needs no rounding, cash
  is exact if and only if the new balance needs none (`Ledger.RoundingCanCancel` shows the exception).
  With whole cents, less than 10^26 in cash and orders is never rounded, which a caller can tell
  from the book (`SimulatedBroker.OrdinaryCashMovesExactly`).
- Greedy matching takes the best exact worth, but the simulated broker charges a total rounded to 28
  digits, for which another choice can be cheaper: of the asks 1.0000000000000000000000000006 (one
  share) and 1.0000000000000000000000000007 (two), two shares cost more taken from both than from the
  second, and are refused with cash that pays for those (`Charges.GreedyCanBeChargedMore`). The charge
  is the best whenever neither total needs rounding, so on every book of ordinary prices
  (`Charges.GreedyIsChargedLeast`, `Charges.OrdinaryGreedyIsChargedLeast`), and on any book it misses
  the best by no more than the roundings themselves (`Charges.GreedyIsChargedNearlyLeast`).
- The command fingerprint drops the sign and keeps spellings of zero apart, so it is a normal form
  for positive amounts only, which is all a command may carry (`Decimals.FingerprintTextNeedsPositive`).

## Model

| member | source | states |
|---|---|---|
| `Decimals.SemanticNumber` | zhuorui/api/order_publication.py:40-49 | trimming the local digit list gives the normal form |
| `Decimals.SemanticNormalFormComplete` | zhuorui/api/order_publication.py:36-56 | normal forms are equal exactly when the numbers are, at any digit count, sign and exponent |
| `Decimals.FingerprintTextComplete` | zhuorui/api/commands.py:319-324 | for positive amounts the fingerprint text is equal exactly when the numbers are |
| `Decimals.FingerprintTextNeedsPositive` | zhuorui/api/commands.py:319-324 | concrete numbers on which the text is not a normal form: a sign, a zero |
| `Commands.FingerprintIdentifiesRequest` | zhuorui/api/commands.py:314-327 | two commands have the same fingerprint exactly when they ask for the same thing |
| `Journal.CommandJournal.Claim` | zhuorui/api/journal.py:37-49 | a new ID becomes a received row with nothing else set; the same digest is answered false; any other reuse is refused and changes nothing |
| `Journal.CommandJournal.Update` | zhuorui/api/journal.py:51-57 | overwrites the state and only the given members of one row; nothing without the row |
| `Journal.CommandJournal.HasUnresolved` | zhuorui/api/journal.py:63-64 | some row is dispatching or unknown |
| `Journal.CommandJournal.PendingCancellations` | zhuorui/api/journal.py:66-68 | exactly the submitted timed rows whose cancellation is not settled, each once |
| `Journal.ClaimDetectsReuse` | zhuorui/api/journal.py:42-46 | a numerically equal redelivery is answered false, every other use of the ID is refused |
| `BrokerReply.OnlySettledOutcomesAreDefinite` | zhuorui/api/client.py:218-244 | the client calls an outcome unknown exactly when the answer leaves open what an honest broker did, and a definite outcome is the true one |
| `BrokerReply.ClassifyMeans` | zhuorui/api/client.py:235-244 | each classification by the answer on the wire that it stands for |
| `BrokerReply.UsableReferenceMeans` | zhuorui/api/orders.py:63 | a reference is usable with one to 256 characters, no control character and something but spaces |
| `BrokerReply.ResultCodeIsSixDigits` | zhuorui/api/client.py:241 | a result code is six digits |
| `CommandProtocol.InvStep` | zhuorui/api/execution.py:73-219 | every step of the protocol keeps the invariant between journal, calls, log and phase |
| `CommandProtocol.InvRun` | zhuorui/api/execution.py:73-219 | the invariant holds after every run with crashes and restarts |
| `CommandGuarantees.AtMostOneOrderEntry` | zhuorui/api/execution.py:73-157 | over every run a command ID causes at most one order-entry call, and only a journaled ID any call |
| `CommandGuarantees.CommittedOffsetsAreDecided` | zhuorui/api/listener.py:341-350 | over every run each offset from where reading began up to the committed one has its outcome |
| `CommandGuarantees.CommitPassesADecidedRecord` | zhuorui/api/listener.py:346-350 | a possible commit passes one record, and that one has its outcome |
| `CommandGuarantees.OpenRowsWereInterrupted` | zhuorui/api/execution.py:73-105 | between records a row is received or dispatching only if a crash cut its execution short |
| `CommandGuarantees.StartIsFinal` | zhuorui/api/listener.py:324-326 | once the group has committed no restart moves the beginning of the reading |
| `CommandGuarantees.NoRecordIsSkipped` | zhuorui/api/listener.py:324-350 | with a committed offset no record is skipped in any run; without one exactly the undecided records a start passed over |
| `CommandGuarantees.SeekSkipsExactlyTheUndecided` | zhuorui/api/listener.py:324-326 | a start without a committed offset skips nothing exactly when all records behind the old position are decided |
| `CommandGuarantees.FirstRecordCanBeSkipped` | zhuorui/api/listener.py:324-350 | a legal run after which an undecided record lies below the committed offset |
| `CommandGuarantees.JournalTellsTheTruth` | zhuorui/api/execution.py:86-149 | over every run, what each row state implies about the calls made, the answers on the wire and what the broker did |
| `CommandGuarantees.RaisingReportWouldLoseTheTruth` | zhuorui/api/execution.py:94-105 | in a reachable state with an unknown row, the outer handler's write leaves a true row exactly if the broker had refused the order |
| `CommandGuarantees.LostTruthIsReachable` | zhuorui/api/execution.py:94-105 | a legal run to an unknown row of an order the broker took, which that write would make false |
| `CommandGuarantees.CancelsSelectedOrdersOnce` | zhuorui/api/execution.py:177-201 | over every run a cancel command cancels only open orders it selects from the rows read, each at most once, across redeliveries |
| `CancelGuarantees.CancelRowsTellTheTruth` | zhuorui/api/execution.py:177-201 | over every run, what the row of a cancel command says about each cancellation sent and its answer on the wire |
| `CancelGuarantees.RequestedMeansAllCancelled` | zhuorui/api/execution.py:185-201 | a row recorded as requested means that the broker accepted the cancellation of every open order selected from the rows read |
| `CommandGuarantees.NegativeSleepLosesNothing` | zhuorui/api/execution.py:214-215 | which clocks make the start-up sleep negative, and that the death sends nothing and leaves the cancellation pending |
| `CommandGuarantees.RowStep` | zhuorui/api/journal.py:51-57 | one step moves a cancel state only pending, dispatching, then requested, rejected or unknown |
| `CommandGuarantees.RowsOnlyMoveForward` | zhuorui/api/journal.py:51-57 | over every run a row's digest, reference and due time are final and its cancel state only advances |
| `CommandGuarantees.TimerCancelsOnce` | zhuorui/api/execution.py:150-175 | at most one timer cancellation per order over all restarts, never before the journaled due time, with the acknowledged reference |
| `CommandGuarantees.OpenTimersAreListed` | zhuorui/api/journal.py:63-68 | an acknowledged timed order without a settled cancellation is still pending or unresolved |
| `CommandGuarantees.TimerOutcomesAreReplies` | zhuorui/api/execution.py:159-171 | a cancellation recorded as requested or rejected was answered so by the broker |
| `CommandGuarantees.AtMostOneUnresolved` | zhuorui/api/execution.py:82-85 | at most one row is ever dispatching or unknown |
| `CommandGuarantees.UnresolvedStopsTrading` | zhuorui/api/execution.py:82-102 | once a row is left unresolved no later command causes a broker write in any continuation, across restarts |
| `CommandGuarantees.CrashAnywhere` | zhuorui/api/listener.py:346-348 | a process may die after any number of steps, so every result covers a crash at every point |
| `CancelSelection.CancelReferences` | zhuorui/api/execution.py:33-51 | accepts exactly the replies all of whose selected rows are decidable, and returns the open references in order |
| `CancelSelection.AcceptsExactly` | zhuorui/api/execution.py:33-51 | a command is accepted exactly if each row it selects is over, being cancelled, or open under a usable reference, no two open ones share a reference, and, unless it cancels all, it selects a single row |
| `CancelSelection.CollectReferences` | zhuorui/api/execution.py:39-51 | one unknown state, unusable reference or duplicate refuses the whole command |
| `CancelSelection.CancelsExactlyTheOpenOrders` | zhuorui/api/execution.py:33-51 | an accepted command cancels every open US order it selects and nothing else, each once |
| `Execution.CommandExecutor.Submit` | zhuorui/api/execution.py:107-157 | protocol steps from dispatch to the recorded outcome and the timer. While nothing fails: exactly one entry; an answer that names a reference leaves the row submitted with it, a refusal leaves it rejected, any other answer unknown; an accepted timed order is cancelled once, in its time, with the answer recorded |
| `Execution.CommandExecutor.RecordAnswer` | zhuorui/api/execution.py:124-149 | the reply's handlers record acknowledged, rejected or unknown, or leave the row dispatched; while no write fails, submitted with the reference exactly for a usable acknowledgement, rejected for a refusal, else unknown |
| `Execution.CommandExecutor.TimedCancel` | zhuorui/api/execution.py:159-175 | at most one cancellation, after the due time; while nothing fails exactly one, with requested, rejected or unknown recorded as the wire answered |
| `Execution.CommandExecutor.ExecuteCancel` | zhuorui/api/execution.py:177-201 | cancels the references selected from the orders read, in order, at most once each, and none if the selection is refused; while nothing fails exactly until the first answer that does not accept, which decides the row |
| `Execution.CommandExecutor.SendBatch` | zhuorui/api/execution.py:185-201 | the loop ends at the first answer that is not an acknowledgement; while nothing fails it ends nowhere else, and that answer, or the acceptance of all, decides the row |
| `Execution.CommandExecutor.OuterHandler` | zhuorui/api/execution.py:94-105 | every escape after dispatch leaves the row unknown, every earlier one rejected; while nothing fails the process lives on |
| `Execution.CommandExecutor.Perform` | zhuorui/api/execution.py:86-105 | while nothing fails, the row and the calls of a command past the gates: cancellations of the open references in order, one order entry, or nothing and rejected |
| `Execution.CommandExecutor.ClaimCommand` | zhuorui/api/execution.py:73-79 | a new ID gets a received row and a known one changes nothing; while nothing fails a known ID is refused exactly for another fingerprint |
| `Execution.CommandExecutor.Execute` | zhuorui/api/execution.py:73-105 | a known ID or a closed gate makes no call; a new command's row is decided on return. While nothing fails: disabled without live orders, blocked behind an unresolved row, rejected without a call if it cannot be prepared, else exactly what its kind calls for on the answers it gets |
| `Execution.CommandExecutor.AwaitDue` | zhuorui/api/execution.py:214-215 | the wait ends at or after the due time, or in the negative sleep, which a clock that stands between its two readings rules out |
| `Execution.CommandExecutor.RecoverOne` | zhuorui/api/execution.py:206-219 | one pending cancellation at start-up, waited for and sent by protocol steps; while nothing fails it is sent once, in its time, if it was not begun before and its preflight passes, and otherwise left as it is |
| `Execution.CommandExecutor.RecoverPendingCancellations` | zhuorui/api/execution.py:203-219 | each pending cancellation is handled before the first record; while nothing fails each that was not begun before and whose preflight passes ends with its answer recorded, and every other row is left as it is |
| `Execution.CommandExecutor.HandleRecord` | zhuorui/api/listener.py:233-248 | every record ends executed or locally refused, unless the process dies; while nothing fails an acceptable new command gets exactly its outcome, a repeated one changes nothing, and any other record or reused ID is refused without a call |
| `Execution.CommandExecutor.Position` | zhuorui/api/listener.py:324-326 | a process without a committed offset starts at the end of the log, any other at its offset |
| `Execution.CommandExecutor.ConsumeOne` | zhuorui/api/listener.py:331-350 | the offset advances by one exactly when the record was handled and the commit succeeded |
| `Execution.CommandExecutor.Process` | zhuorui/api/listener.py:278-360 | one process from start-up recovery to its end, however it ends, is a legal run; a committed offset never goes back |
| `Execution.CommandExecutor.Service` | zhuorui/api/listener.py:278-360 | after any number of processes no entry or timer call is doubled and every record committed since reading began is decided |
| `JsonContent.RereadSettles` | zhuorui/api/order_publication.py:144-146 | decoding leaves sorted names and no decimal that prints as an integer |
| `JsonContent.RereadKeepsContent` | zhuorui/api/order_publication.py:121-127 | encoding and decoding never change the semantic normal form |
| `JsonContent.NormIdentifiesContent` | zhuorui/api/order_publication.py:36-56 | the normal form is equal exactly for equal numbers, equal lists and equal dictionaries in any order |
| `JsonReader.NumeralRead` | zhuorui/api/signing.py:10-14 | a printed number is read back part by part |
| `JsonReader.DecimalRead` | zhuorui/api/signing.py:10-14 | a decimal's text has exactly its digits and exponent; only exponent zero turns into an integer |
| `JsonReader.TextRead` | zhuorui/api/signing.py:18-20 | every text survives escaping and reading |
| `CanonicalText.NotationOf` | zhuorui/api/signing.py:10-13 | a decimal is spelled in scientific notation, with one leading digit, exactly when its exponent is positive or its first digit stands more than six places behind the point; otherwise in full |
| `CanonicalText.IntegerText` | zhuorui/api/signing.py:20 | an integer is printed as its digits without leading zeros, with a minus sign exactly if it is negative |
| `CanonicalText.EscapedByCharacter` | zhuorui/api/signing.py:18-20 | text is escaped character by character, and no character but quote, backslash and controls is escaped |
| `CanonicalText.EscapeSequences` | zhuorui/api/signing.py:18-20 | the escape sequences, written out |
| `CanonicalText.MixedText` | zhuorui/api/signing.py:7-23 | the exact text of one nested dictionary: names in code point order, no spaces |
| `JsonReader.ReadValid` | zhuorui/api/order_publication.py:121 | whatever text is decoded, the value has canonical digits and distinct keys |
| `JsonReader.ReadsBack` | zhuorui/api/signing.py:7-23 | decoding a canonical text gives the printed value, every digit and exponent included |
| `JsonReader.DecodedIsFixed` | zhuorui/api/order_publication.py:119-130 | a decoded value encodes and decodes to itself |
| `JsonReader.EncodingIsInjective` | zhuorui/api/signing.py:7-23 | equal canonical texts carry equal values |
| `JsonReader.EncodingIgnoresOrder` | zhuorui/api/signing.py:15-18 | the text of a dictionary depends on its entries, never on insertion order |
| `JsonReader.SemanticTextIdentifiesContent` | zhuorui/api/order_publication.py:114-117 | semantic texts are equal exactly when the contents are |
| `OrderPublication.IdentityNamesOneOrder` | zhuorui/api/order_publication.py:106-112 | a row key belongs to one order of the account |
| `OrderPublication.PayloadDecodes` | zhuorui/api/order_publication.py:144-162 | decoding and re-encoding a stored payload gives the same text |
| `OrderPublication.EqualsIntMeans` | zhuorui/api/order_publication.py:123-124 | a stored sequence equals a decoded value exactly if that is a number of this value, however spelled, or the truth value Python counts as it |
| `OrderPublication.StoredRowRestores` | zhuorui/api/order_publication.py:119-132 | every row `prepare` can store is accepted by `_restore` and restores to the event returned |
| `OrderPublication.PrepareKeepsRows` | zhuorui/api/order_publication.py:134-167 | an accepted call keeps every row restorable, returns exactly the stored event and touches no other order |
| `OrderJournal.PrepareRefusesExactly` | zhuorui/api/order_publication.py:134-167 | on a sound table `prepare` refuses exactly for an unusable account or order identity, a snapshot that carries a sequence, an unusable timestamp, another creation time, or changed content with an earlier update time or a sequence at its limit; otherwise the sequence is 1, the stored one, or one more |
| `OrderJournal.AlteredRowIsRefused` | zhuorui/api/order_publication.py:119-132 | a stored row under another key, or with another sequence or semantic text than its payload has, is refused |
| `OrderJournal.OrderPublicationJournal.Prepare` | zhuorui/api/order_publication.py:134-169 | while the store answers, the method refuses exactly the snapshots so described and else stores the sequence so described; a refusal or a failing transaction leaves the table as it was |
| `OrderJournal.OrderPublicationJournal.Pending` | zhuorui/api/order_publication.py:171-179 | exactly the unacknowledged orders in key order, each with its saved event; fails only on an unusable row |
| `OrderJournal.OrderPublicationJournal.Ack` | zhuorui/api/order_publication.py:181-195 | marks the row exactly when sequence and payload are the stored ones; otherwise changes nothing |
| `OrderJournal.ReachableRowsRestore` | zhuorui/api/order_publication.py:119-168 | after any series of calls every row is accepted by `_restore` |
| `OrderJournal.SequenceCountsVersions` | zhuorui/api/order_publication.py:147-158 | an order's sequence is the number of accepted changes of its content, the first acceptance included |
| `OrderJournal.SemanticTextComparesContent` | zhuorui/api/order_publication.py:114-117 | the compared texts differ exactly when something but sequence and update time differs |
| `OrderJournal.RowsOnlyAdvance` | zhuorui/api/order_publication.py:147-168 | creation text constant, update instants never back, one sequence never two payloads, over any further calls |
| `OrderTopic.InvRun` | zhuorui/api/publishing.py:213-231 | table and topic stay consistent over every run with stops and restarts |
| `OrderTopic.SendsAgree` | zhuorui/api/publishing.py:222-229 | sends of one order and sequence carry identical bytes, and sequences sent never decrease |
| `OrderTopic.OnlyTheStoredVersionIsMarked` | zhuorui/api/order_publication.py:181-193 | an altered or stale acknowledgement never marks a latest version |
| `OrderTopic.StaleAckIsIgnored` | zhuorui/api/order_publication.py:181-193 | acknowledging an older send changes nothing, acknowledging the latest clears it from pending |
| `OrderTopic.ConsumerHoldsTheTable` | zhuorui/api/publishing.py:213-231 | with nothing pending, a consumer keeping the highest sequence holds exactly the stored snapshots, in whatever order and however often messages arrived |
| `Publishing.MergeReads` | zhuorui/api/publishing.py:178-190 | refuses exactly missing or repeated references; a current row replaces the history row of its order |
| `Publishing.OrderPublisher.PrepareBatch` | zhuorui/api/publishing.py:210-217 | the whole batch is persisted before any send, one current event per order; while the store answers it fails only for a refused snapshot |
| `Publishing.OrderPublisher.AddPending` | zhuorui/api/publishing.py:218-220 | if the store answers, every unacknowledged order joins the batch with its saved event, and saved rows are readable |
| `Publishing.OrderPublisher.Acknowledge` | zhuorui/api/publishing.py:230-231 | after a confirmed send the acknowledgement finds its row unless the transaction fails, which changes nothing |
| `Publishing.OrderPublisher.SendBatch` | zhuorui/api/publishing.py:221-231 | ends done only with one confirmed send of each event's stored version and nothing pending; while nothing fails it ends done unless an event exceeds 64 KiB |
| `Publishing.OrderPublisher.PublishSnapshots` | zhuorui/api/publishing.py:207-231 | from the snapshots on, a call without error sends its own and all pending orders once each and leaves nothing pending; while nothing fails, the only errors are a refused snapshot and an event above 64 KiB |
| `Publishing.OrderPublisher.PublishOrders` | zhuorui/api/publishing.py:170-231 | the same of the orders of both reads merged; a refused read changes nothing, and exactly which reads are refused; while nothing fails there is no other error than these |
| `SchedulerProtocol.EveryRequestOnceAndOnTime` | zhuorui/api/publishing.py:268-300 | no request is lost, doubled or early, and periodic due points are at least an interval apart |
| `SchedulerProtocol.ReturnsOnlyWhenDrained` | zhuorui/api/publishing.py:286-296 | the worker returns only after every request queued before the stop marker was published exactly once |
| `SchedulerProtocol.PublishesTheLeast` | zhuorui/api/publishing.py:282-285 | no entry of the heap has an earlier deadline than the published one, nor the same deadline and an earlier arrival |
| `SchedulerProtocol.WaitsOnlyForTheFuture` | zhuorui/api/publishing.py:286-293 | a wait ends at a finite future time and is never begun when drained |
| `SchedulerProtocol.ReadyEntryIsNotStarved` | zhuorui/api/publishing.py:274-285 | a ready entry is never passed over by two periodic publications in a row |
| `SchedulerCadence.PeriodicCadence` | zhuorui/api/publishing.py:268-280 | over every run the next periodic due point is one interval after the last, if that publication ended before then, and otherwise one interval after the second clock reading |
| `SchedulerCadence.DuePublicationBegins` | zhuorui/api/publishing.py:275-280 | a decision begins a periodic publication exactly if its due point has come and the worker is not stopping |
| `SchedulerCadence.WakesAtTheFirstDeadline` | zhuorui/api/publishing.py:288-291 | a wait ends at the earliest deadline: the periodic one, unless stopping, or one of the heap |
| `SchedulerLoop.HoldingsPublisher.Wait` | zhuorui/api/publishing.py:288-300 | waits until that deadline, no longer, or takes the first queued message before it |
| `SchedulerLoop.HoldingsPublisher.Request` | zhuorui/api/publishing.py:98-101 | appends the request with the clock at the call plus its delay as its deadline |
| `SchedulerLoop.HoldingsPublisher.Loop` | zhuorui/api/publishing.py:268-300 | the loop takes only the machine's steps, and its due points follow exactly from the clock readings at the ends of its publications |
| `Recovery.RecoverySchedule.ObserveLogout` | zhuorui/api/recovery.py:88-98 | only the first detection of an episode is recorded: at its time, due after the Beijing delay, with no attempt and no block |
| `Recovery.RecoverySchedule.StartAttempt` | zhuorui/api/recovery.py:109-119 | an attempt is claimed exactly if one is due, none is running and none was rejected, with its next deadline reserved |
| `Recovery.RecoverySchedule.Failed` | zhuorui/api/recovery.py:121-135 | the retry deadline counts from the later of failure and start; a rejected login is blocked |
| `Recovery.RecoverySchedule.FromSaved` | zhuorui/api/recovery.py:155-198 | an accepted saved form is restored as specified |
| `Recovery.RestoreReleasesOnlyTheMarker` | zhuorui/api/recovery.py:148-198 | saving and restoring changes nothing but the in-progress marker; a new interval moves no deadline |
| `Recovery.ReachableSchedulesRestore` | zhuorui/api/recovery.py:85-198 | every schedule reachable by the transitions passes validation and comes back |
| `Recovery.RestoredIsFixed` | zhuorui/api/recovery.py:155-198 | an accepted saved form keeps its deadlines and restores again to itself |
| `Recovery.RestoresExactly` | zhuorui/api/recovery.py:155-198 | validation accepts exactly the saved forms without a contradiction, each of the three kinds written out |
| `Recovery.DelayIsBeijingWindow` | zhuorui/api/recovery.py:53-63 | five minutes exactly from 09:00 up to 16:00 of a Beijing day |
| `Recovery.BlockedIsNeverReady` | zhuorui/api/recovery.py:109-135 | after a rejected login no attempt is due at any time |
| `LoginProtocol.InvRun` | zhuorui/api/listener.py:73-218 | memory, disk and submissions stay consistent under every interleaving, crash and failed save, also after the consumer thread has ended |
| `LoginProtocol.PasswordSubmissionsAreSpaced` | zhuorui/api/listener.py:172-205 | submissions of one episode are an interval apart and the first respects the Beijing delay, whatever happens between |
| `LoginProtocol.NoClientDuringAnEpisode` | zhuorui/api/listener.py:73-106 | over every run whose saves succeed, with crashes and restarts, a client handed out after an episode was open means that a login or a session of another generation came between |
| `LoginProtocol.EpisodeLasts` | zhuorui/api/listener.py:73-127 | without such a step an open episode is the same one at every later point of the run |
| `LoginProtocol.StaleReportChangesNothing` | zhuorui/api/listener.py:108-111 | a report about a replaced client changes nothing |
| `LoginProtocol.SyncedStep` | zhuorui/api/listener.py:49-54 | with successful saves the disk always says what memory says about the episode |
| `LoginProtocol.SyncedRun` | zhuorui/api/listener.py:25-54 | and so at every point of every run whose saves succeed |
| `LoginProtocol.FailedSaveIsUndoneByACrash` | zhuorui/api/listener.py:25-54 | a step whose save failed has never happened after a crash and restart: the episode, deadline, count and block are those before it |
| `LoginProtocol.RestartKeepsEpisode` | zhuorui/api/listener.py:25-47 | a crash and restart keep the episode, its deadline, count and block |
| `LoginProtocol.ReportOpensEpisode` | zhuorui/api/listener.py:108-127 | exactly which reports open an episode |
| `LoginProtocol.LateClientlessReportReopens` | zhuorui/api/listener.py:108-127 | a late report without a client reopens an episode after a good login |
| `LoginHistory.LostSessionIsSaved` | zhuorui/api/listener.py:108-117 | over every run whose saves succeed, the generation saved in an open episode is that of the session that was loaded when it opened, as recorded from the run apart from the saved field |
| `LoginHistory.EpisodeEndsOnlyByAnotherSession` | zhuorui/api/listener.py:73-117 | an open episode ends only by a successful login or a session file of another generation than the one so recorded |
| `LoginHistory.LostSessionIsNotHandedOut` | zhuorui/api/listener.py:73-117 | a client handed out after an episode was open means that such a login or file came between, across crashes and restarts |
| `LoginHistory.RejectedLoginIsNotRepeated` | zhuorui/api/listener.py:172-205 | after a rejected login no password is sent again while that session is the one in the file |
| `LoginHistory.ClientIsHandedOut` | zhuorui/api/listener.py:73-106 | with no episode open a client is handed out exactly if the session file yields one, and the cached one while the file is unchanged |
| `LoginHistory.ImportedSessionIsLoaded` | zhuorui/api/listener.py:147-156 | an imported session is loaded as a new client at the next call, whatever was loaded before |
| `LoginHistory.AnotherSessionEndsTheEpisode` | zhuorui/api/listener.py:73-106 | during an episode a client is handed out exactly for a usable file of another generation that is not the one loaded, and that ends the episode in memory and on disk |
| `LoginHistory.EpisodeOpensAtItsReport` | zhuorui/api/listener.py:108-118 | an episode opens at the time of its report, due after the Beijing delay, with no attempt and no block |
| `LoginHistory.PasswordIsSentWhenDue` | zhuorui/api/listener.py:172-188 | a password is sent exactly when logins are enabled, an episode is due and not blocked, the file still holds the lost session, and the next deadline was reserved on disk first |
| `LoginHistory.LoginOutcomes` | zhuorui/api/listener.py:189-205 | a rejected login blocks, any other failure sets a deadline at least an interval later; the episode stays open |
| `LoginHistory.BadKeyEndsTheLoop` | zhuorui/api/listener.py:172-188 | while nothing fails, exactly a session file with an unusable key ends the consumer's loop where a login is considered |
| `LoginHistory.AnyPointOfARun` | zhuorui/api/listener.py:25-47 | a crash or a new session file is possible after any number of steps, so every result covers them |
| `ClientProviders.ClientProvider.Call` | zhuorui/api/listener.py:93-106 | the locked section takes exactly the protocol's step |
| `ClientProviders.ClientProvider.ReportError` | zhuorui/api/listener.py:108-127 | the locked section takes exactly the protocol's step; the generation it saves is the subject of `LoginHistory` |
| `ClientProviders.ClientProvider.BeginLogin` | zhuorui/api/listener.py:172-188 | the locked section takes exactly the protocol's step, also where it ends the loop; the deadline is persisted before a password is sent |
| `ClientProviders.ClientProvider.LoginSucceeded` | zhuorui/api/listener.py:206-218 | the locked section takes exactly the protocol's step, also where it ends the loop; the new session closes the episode |
| `ClientProviders.ClientProvider.LoginNotSucceeded` | zhuorui/api/listener.py:189-205 | the locked sections take exactly the protocol's step: a rejection blocks, any other failure retries later |
| `ClientProviders.ClientProvider.ImportSession` | zhuorui/api/listener.py:147-156 | the locked section of the import takes the protocol's step, whatever its guards saw before |
| `Amounts.TupleLength` | zhuorui/api/market_data.py:72-74 | the digit count of the model is the length of the digit tuple |
| `Pricing.MarketPriceIsExactCents` | zhuorui/api/market_data.py:126-133 | the chosen precision always suffices: the price is the exactly rounded product under any rounding rule of the ambient context |
| `Pricing.BuyPrice` | zhuorui/api/market_data.py:122-133 | a buy lies in [1.01 ask, 1.01 ask + 0.01) and is never refused |
| `Pricing.SellPrice` | zhuorui/api/market_data.py:122-133 | a sell lies in (0.99 bid - 0.01, 0.99 bid]; refused exactly when that leaves no cent |
| `Pricing.PlannedPrice` | zhuorui/api/orders.py:31-50 | a limit price goes out as the nearest whole cents on its side; refused exactly below one cent |
| `Pricing.PlanningKeepsTheSyntheticPrice` | zhuorui/api/orders.py:37-50 | a synthetic price is planned unchanged if and only if it has at most 128 digits, else refused |
| `Pricing.LongQuoteIsRefused` | zhuorui/api/orders.py:37-39 | the family of quotes whose synthetic price planning refuses |
| `Pricing.LongSyntheticPriceIsRefused` | zhuorui/api/orders.py:37-39 | a concrete supported quote of that family |
| `Pricing.QuantityIsAffordable` | zhuorui/api/market_data.py:136-142 | quantity times price is at most the budget, and one more share is not, for any integer ratios |
| `Pricing.SizingIgnoresReduction` | zhuorui/api/client.py:195-198 | reducing the ratios first changes nothing |
| `Pricing.SizedFromBudget` | zhuorui/api/market_data.py:136-142 | sizing succeeds exactly when the budget pays for one share, and then floors exactly |
| `MarketOrders.PositiveDecimalChecksTheTuple` | zhuorui/api/market_data.py:65-77 | exactly which decoded values are accepted, by text length, sign, digits and exponent |
| `MarketOrders.BestQuote` | zhuorui/api/market_data.py:107-116 | every level must parse; the result is the first of the best opposite prices |
| `MarketOrders.BestIsUnique` | zhuorui/api/market_data.py:116 | that level is determined by the book |
| `MarketOrders.ReadQuote` | zhuorui/api/client.py:138-151 | a session error ends at once, any other unusable read is retried exactly once |
| `MarketOrders.PrepareMarketOrder` | zhuorui/api/client.py:120-202 | exactly when a market or synthetic limit order is handed out, and which; exactly when a lost session ends it, in regular hours by the sizing quote |
| `MarketOrders.BudgetCoversTheOrder` | zhuorui/api/client.py:152-155 | a sized synthetic order costs at most its budget at a price one percent off the quote |
| `MarketOrders.SizedOrderIsPlannedExactly` | zhuorui/api/client.py:152-155 | a sized synthetic price always passes planning unchanged |
| `DecimalContext.FixIsExact` | api_research/simulated_broker.py:116 | a result of the decimal context is the exact one precisely if that has at most 28 significant digits |
| `DecimalContext.RepresentableIsFewSignificant` | api_research/simulated_broker.py:116 | any spelling of a number decides whether it has at most 28 significant digits |
| `SimulatedBroker.SortQuotesSorts` | api_research/simulated_broker.py:53-59 | a side holds exactly the given levels, best price first |
| `Matching.GreedyPlan` | api_research/simulated_broker.py:99-112 | fills are in the book, inside the limit, best first; a remainder means no eligible depth is left |
| `Matching.GreedyIsOptimal` | api_research/simulated_broker.py:99-112 | in exact worth no way of taking that quantity costs a buyer less or brings a seller more |
| `Ledger.ExactlyWhenNothingRounds` | api_research/simulated_broker.py:116-129 | every product, partial sum and the new balance is exact if and only if no exact one has more than 28 significant digits |
| `Ledger.CashIsExactWhenTheBalanceFits` | api_research/simulated_broker.py:116-129 | with an exact total the new balance is exact if and only if the exact one has at most 28 significant digits |
| `Ledger.RoundingCanCancel` | api_research/simulated_broker.py:116-129 | a sale whose product is rounded while the new balance is exact |
| `Ledger.TinyPriceCostsNothing` | api_research/simulated_broker.py:116-126 | a purchase that leaves the balance as it was |
| `Ledger.CoarseAmountsAreExact` | api_research/simulated_broker.py:116-129 | multiples of 10^k that stay together below 10^(28+k) are never rounded |
| `SimulatedBroker.SubmitKeepsSound` | api_research/simulated_broker.py:83-139 | positions and depth stay non-negative and books sorted |
| `SimulatedBroker.SubmitMovesExactlyItsFills` | api_research/simulated_broker.py:116-136 | shares and depth move by exactly the recorded fills, cash by their total as the decimal context computes it, a buy never costs more than there is, and nothing else moves |
| `SimulatedBroker.CashMovesExactly` | api_research/simulated_broker.py:116-129 | a submission's money is exact if and only if nothing in it needs rounding; with an exact total, cash is if and only if the new balance needs none |
| `SimulatedBroker.CoarseCashMovesExactly` | api_research/simulated_broker.py:116-129 | cash moves exactly if it and the recorded fills have no digit below 10^k and stay together below 10^(28+k) |
| `SimulatedBroker.OrdinaryCashMovesExactly` | api_research/simulated_broker.py:116-129 | so it does for a caller who saw no price above a top price or with a digit below 10^k, if cash and the quantity at that price stay below 10^(28+k) |
| `SimulatedBroker.ShareForNothing` | api_research/simulated_broker.py:116-127 | a submission that fills, delivers the share and leaves cash as it was |
| `Charges.GreedyCanBeChargedMore` | api_research/simulated_broker.py:99-119 | a book on which another choice of as many shares is charged less, and cash that pays for it but not for the plan |
| `Charges.GreedyIsChargedLeast` | api_research/simulated_broker.py:99-129 | where neither rounded total needed rounding, no other choice is charged less or paid more |
| `Charges.OrdinaryGreedyIsChargedLeast` | api_research/simulated_broker.py:99-129 | so on every book without a price above a top price or a digit below 10^k, if the quantity at that price stays below 10^(28+k) |
| `Charges.RefusedBuyHasNoAlternative` | api_research/simulated_broker.py:116-119 | on such a book a buy refused for lack of cash has no affordable choice of as many shares |
| `Charges.GreedyIsChargedNearlyLeast` | api_research/simulated_broker.py:99-129 | on any book the charge misses that of any other choice by at most half a unit of the 28th digit per fill, and once more |
| `Ledger.PaidIsNear` | api_research/simulated_broker.py:116 | the rounded total lies within that factor of the exact one |
| `DecimalContext.RoundingError` | api_research/simulated_broker.py:116 | no rounding moves a number by more than 5E-28 of it |
| `SimulatedBroker.UnexecutedWasDeclined` | api_research/simulated_broker.py:96-119 | the recorded status is rejected, or cancelled for an all-or-none order, exactly when the order was not carried out |
| `BrokerDecisions.DecisionsAreExact` | api_research/simulated_broker.py:95-136 | from the positions, the cash and the book: insufficient shares exactly for a sale of more than is held, not fully executable exactly for an all-or-none order beyond the eligible depth, insufficient cash exactly for a charge above the cash; else the order takes the lesser of its quantity and that depth, and is filled exactly if it takes its quantity |
| `BrokerDecisions.GreedyTakesEligibleDepth` | api_research/simulated_broker.py:99-112 | the plan takes the lesser of the wanted quantity and the depth inside the limit |
| `BrokerDecisions.PositionAfterOrder` | api_research/simulated_broker.py:124-130 | the position an executed order leaves: its shares, the unchanged cost after a sale, zero for an emptied one, and after a purchase the average cost |
| `BrokerDecisions.AverageIsNear` | api_research/simulated_broker.py:127 | the average cost is what all shares together cost, per share, but for at most four roundings to 28 digits |
| `DecimalContext.DivisionError` | api_research/simulated_broker.py:127 | no quotient is off by more than 7.5E-28 of it, over the two steps of the division |
| `SimulatedBroker.DeclinedOrdersChangeNothing` | api_research/simulated_broker.py:96-119 | an order recorded rejected, or all-or-none and cancelled, has changed no balance and no book |
| `SimulatedBroker.AllOrNone` | api_research/simulated_broker.py:113-115 | an all-or-none order fills completely or not at all |
| `SimulatedBroker.OperatedSound` | api_research/simulated_broker.py:53-148 | every operation keeps the state sound |
| `SimulatedBroker.RecordedOrdersAreFinal` | api_research/simulated_broker.py:83-148 | over any series a recorded order keeps its spec, number and fills |
| `SimulatedBroker.RepeatedIdChangesNothing` | api_research/simulated_broker.py:87-91 | repeating a command ID changes nothing at any later point |
| `SimulatedBroker.Broker.SetBook` | api_research/simulated_broker.py:53-59 | invalid levels change nothing; valid ones become the book, asks cheapest first and bids dearest first, and no other book changes |
| `SimulatedBroker.Broker.PlanFills` | api_research/simulated_broker.py:100-112 | the planning loop computes the greedy plan |
| `SimulatedBroker.Broker.Submit` | api_research/simulated_broker.py:83-139 | the method refines the specified submission, with its errors, whose decisions `BrokerDecisions` states; returns the stored order object itself, and loses an acknowledgement exactly for an executed new order |
| `SimulatedBroker.Broker.Cancel` | api_research/simulated_broker.py:144-148 | changes in place the stored order, which it returns: only open and partly filled ones become cancelled; an unknown ID is an error that changes nothing |
| `Mmkv.Varint` | zhuorui/api/mmkv.py:14-26 | the accumulating loop reads the varint at a position, at most five bytes |
| `Mmkv.DisjointBitsAdd` | zhuorui/api/mmkv.py:23 | or-ing a septet into the accumulated bits is addition |
| `Mmkv.VarintBelowLimit` | zhuorui/api/mmkv.py:14-26 | no accepted varint exceeds 32 bits |
| `Mmkv.VarintRoundTrip` | zhuorui/api/mmkv.py:14-26 | every value below 2^32 is read back from its encoding |
| `Mmkv.Field` | zhuorui/api/mmkv.py:29-34 | a field lies inside the region |
| `Mmkv.DecodeBody` | zhuorui/api/mmkv.py:50-64 | the loop advances with every record and equals replaying the records it reads |
| `Mmkv.Decode` | zhuorui/api/mmkv.py:37-66 | a file is decoded exactly when its header, sizes and checksum hold and its region parses |
| `Mmkv.RegionRoundTrip` | zhuorui/api/mmkv.py:47-64 | decoding a written log is replaying it, whatever container length it starts with |
| `Mmkv.AppendedLogIsApplied` | zhuorui/api/mmkv.py:52-64 | decoding a concatenation applies the second log to the first's table |
| `Mmkv.LastWriteWins` | zhuorui/api/mmkv.py:59-63 | the last write of a key wins and an empty value deletes it |
| `Mmkv.DecodedTablesAreClean` | zhuorui/api/mmkv.py:54-63 | decoded keys are non-empty valid UTF-8 and no value is empty |
| `Mmkv.FileRoundTrip` | zhuorui/api/mmkv.py:37-64 | a sealed file around a written log decodes to that log's last writes |
| `MmkvFormat.ValidExactlyWhenEncoded` | zhuorui/api/mmkv.py:56-58 | the bytes accepted in a key are exactly the UTF-8 encodings of sequences of scalar values, by the encoding of section 3 of RFC 3629 |
| `MmkvFormat.SealedExactlyWhenWritten` | zhuorui/api/mmkv.py:39-49 | the accepted files are exactly those laid out field after field: size, region and rest; checksum, version 3 or 4, sequence, sixteen zeros, size, 72 bytes, eight zeros and rest |
| `MmkvFormat.WrittenFileIsRead` | zhuorui/api/mmkv.py:37-64 | a file so laid out around a written log is read as the last writes of the log |

## Left out

- HTTP, TLS, signing keys, password hashes and the other cryptography: foreign calls; a reply is one of the broker answers.
- SQLite and Kafka internals: an atomic durable map and an at-least-once log.
- `zhuorui/ui`, emulator and capture helpers, the monitor and the CLI: foreign calls and heuristics.
- Configuration, reading an imported session, header building, account and order field mapping: field-by-field validation that one reading settles.
- `parse_command` and its aliases: a command is taken as parsed.
- `TradeAuthorizer`, market-session parsing and time zones: an abstract preflight, and a session value, that may refuse.
- The account and holdings publication itself (`publish`), `find_signing_key` and the simulated timed cancel: one send, a search, and the executor's strategy without persistence.
- Error texts, log lines, status files, timestamps and the execution details column: they carry no decision.
- Floating point: times are integers or reals, and JSON numbers are integers and decimals.
- `Pricing.MarketPriceIsExactCents`: the ambient context varies in its rounding rule; its exponent limits and traps are taken to be Python's defaults.
- `JsonReader.ReadsBack`: reads compact text only; white space, `NaN`, `Infinity`, surrogate escapes and Python's limit on digits of an integer are not modelled.
- `OrderPublication.StoredRowRestores`: RFC 3339 parsing is a parameter that maps a text to an instant or refuses it.
- `Publishing.OrderPublisher.PublishOrders`: converting broker rows and order details into snapshots is a parameter that may refuse, and the two date checks are one flag.
- `OrderJournal.OrderPublicationJournal.Prepare`: values without an encoding (floats, non-finite numbers, non-text keys) are excluded by the value type.
- `SimulatedBroker.SubmitMovesExactlyItsFills`: the decimal context is Python's default one, without its exponent limits and traps; results are those of the context by value, and the spelling of a zero sum is not followed.
- `LoginProtocol.PasswordSubmissionsAreSpaced`: a submission's time is the claimed attempt time; a slow send may reach the server later.
- `Recovery.RecoverySchedule.FromSaved`: members of the wrong JSON type are not modelled.
