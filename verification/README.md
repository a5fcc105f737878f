# Verified model of the settlement, inbox and event-store core

This project models six stateful components of the repository and proves what they keep over whole runs. Paths below are
relative to the root of that repository. `dafny verify dfyconfig.toml` checks everything.

- **Delegations** (`Delegation*.dfy`): the graph of live agreement delegations, its two indexes, the upward settlement walk,
  the downward unwind search, and the execution of a plan against the rows.
- **Inbox** (`Inbox.dfy`, `InboxRuns.dfy`): per-channel logs with idempotent publishing, cursor paging and per-consumer
  acknowledgements, as a class over channel and checkpoint tables that represents a simple model of logs.
- **Event store** (`Store.dfy`, `Recovery.dfy`, `StoreRuns.dfy`, `StoreHistory.dfy`, with `AgentRuns.dfy`, `Emergency.dfy`,
  `Ledger.dfy`): commit, outbox, replay, hash-linked streams, run snapshots, emergency controls and the journal.
- **Money** (`Wallets.dfy`, `Settlements.dfy`, `Escrow.dfy`): escrow arithmetic, the settlement and dispute state machine, and
  runs that pair the two.
- **Reports** (`Receipts.dfy`, `Lineage.dfy`, `Reputation.dfy`): receipt paging under two id orders, self-verifying lineage
  pages, and windowed scores.
- `Basics.dfy` holds options and results, sequence functions, a stable sort and integer bounds.

Code that updates things step by step is a method with a loop or a class, proved against a specification function; the
properties are lemmas about those functions. A hash is an injective constructor, an id or name a code with only equality and
a collation passed in as a parameter, a time an integer, and a thrown error a failure result.

## Where the code falls short of what it promises

The code is modelled as it is. Each case has an exact condition.

- Repeating `cascadeUnwindExecute` applies a parallel delegation of the same pair that the first call left alone
  (`CascadeUnwindRepeatIdleIff`, `ParallelDelegationIsTakenUp`).
- Validation, the ledger and plans trim a delegation's status, resolution and indexing do not
  (`src/core/agreement-delegation.js:213`, `233`). An active row whose status is padded with white space is reported as applied
  and comes back unchanged, still active (`PlanLedgerMoves`, `PaddedRowIsReportedApplied`).
- A record is logged before it is applied (`src/api/store.js:597-598`), so a commit that throws makes every later restart
  throw (`RestartSucceedsIff`, `UnknownOpBlocksRestart`); run events are stored before they are reduced, so a run stream can be
  poisoned (`PoisonedStreamStaysPoisoned`, `StartWithoutCreationPoisons`).
- Entries are deduplicated by id (`src/core/ledger.js:51`), and a restart applies all direct entries before any queued one. The
  ledgers agree exactly when nothing queued was overtaken (`LedgersAgreeIff`), and the balances differ by exactly what overtook
  (`RestartBalanceDifference`, `OvertakenEntryChangesBalance`). A direct entry is a `LEDGER_ENTRY_APPLIED` operation, which
  `src/api/persistence.js:1615` handles and no call site in the repository emits.
- Plain objects are used as tables. A fresh idempotency key named like an inherited property is a conflict, and such channel or
  consumer names are refused (`PublishSucceedsIff`); a record kind with such a name makes `verifyAuditLineageV1` reject what
  `buildAuditLineageV1` produced (`VerifyAcceptsBuiltIff`, `CountsAddUpIff`).
- The summary check adds up the count of every key and then keeps the last one of the keys that trim to one kind
  (`src/core/audit-lineage.js:143-151`). Lineages with different counts can verify under one hash (`SameHashDifferentCounts`),
  not when kinds stay distinct (`SameHashSameCounts`); the hashed counts may miss the total (`VerifiedCountsAddUpIff`).
- Receipts are sorted by collation and resumed by code units; where the two disagree paging is complete only
  if the sorted rows happen to be strictly ordered for the cursor (`PagingCompleteIff`, `DisagreementLosesReceipt`).
- A release or transfer within one wallet returns two records of it, and its amount appears or disappears with the order in
  which the caller writes them back (`TwoSidedKeepsTotalIff`, `SelfReleaseChangesTotal`). `Apply`, like the gate routes, writes
  the payer first; the run-terminal route writes the payee first (`src/api/app.js:73073`). The gate routes refuse equal parties
  (`src/api/app.js:54385`), and the paired runs do too.
- An emergency event without an effective time conflicts with itself when it is delivered again in a record of another time
  (`RedeliveryIsNoopIff`, `PauseConflictsWithItself`).
- Refunding with only a released part given is refused unless that part is zero (`SplitWithoutRefundIff`).
- The delegation ledger's unknown-status code is always overridden by its imbalance code (`SummarizeLedger`).

## Model

| member | source | states |
|---|---|---|
| `Delegations.BuildSucceedsIff` | src/core/agreement-delegation.js:104-166 | exactly when a delegation is built: id, two different agreements, budget, depth and ancestor chain; it then is active at revision 0, valid and unresolved |
| `Delegations.BuiltResolvesOnce` | src/core/agreement-delegation.js:104-226 | what is built resolves once to settled or revoked, is still valid with its hash, and is left as it is by every later resolution |
| `Delegations.ResolvedOnceForGood` | src/core/agreement-delegation.js:207-226 | resolving a valid row to settled or revoked succeeds and changes it exactly when it is pending, to the target status with its times, metadata and one revision more; the result is valid unless the revision has run out of safe integers, and then no later resolution changes it |
| `Delegations.ChainContinues` | src/core/agreement-delegation.js:71-88 | below an acceptable delegation, one that continues its ancestor chain is acceptable exactly when it does not come back to an agreement of the chain and the depth allows it |
| `Delegations.CountsCoverKnown` | src/core/agreement-delegation.js:275-327 | active, settled and revoked counts add up to the row count exactly when no row has an unknown status |
| `Delegations.SummarizeLedger` | src/core/agreement-delegation.js:275-327 | the counting loop returns the number of rows by status, and the imbalance code exactly when an unknown status occurs |
| `Delegations.LedgerAddsUpIff` | src/core/agreement-delegation.js:275-327 | terminal and unresolved rows make up the total exactly when every status is known, and the code says whether they do |
| `DelegationGraph.ConflictFreeIffUniqueParents` | src/core/agreement-delegation.js:228-256 | the index check finds no conflict exactly when no child has two different parents |
| `DelegationGraph.ConflictIsFirst` | src/core/agreement-delegation.js:240-246 | the child reported is the first to be given a second parent |
| `DelegationGraph.LinksExactly` | src/core/agreement-delegation.js:231-239 | the graph has a link exactly for each row with that parent and child that is not plainly revoked |
| `DelegationGraph.IndexDelegations` | src/core/agreement-delegation.js:228-256 | both indexes of one pass stand for the live links: the last link naming each child, and every parent's links in ascending collation of their children; failure names the first child with two parents |
| `DelegationGraph.IndexListsAscend` | src/core/agreement-delegation.js:251-254 | each list of an index ascends, holds exactly the live links of its parent, and keeps row order among children that collate alike |
| `DelegationGraph.CascadeSettlementCheck` | src/core/agreement-delegation.js:428-460 | the upward walk ends on every input; it succeeds exactly when parents are unique and following them from the start revisits nothing, and a cycle error names the first agreement that comes round again |
| `DelegationGraph.CascadePlanIsAncestry` | src/core/agreement-delegation.js:428-460 | the plan lists the k-th ancestor at place k and there is no ancestor beyond the last |
| `DelegationGraph.CascadePlanFollowsLastLinks` | src/core/agreement-delegation.js:440-455 | each step of the walk follows the last live link that names the agreement it stands at |
| `DelegationGraph.CascadePlanNeverRevisits` | src/core/agreement-delegation.js:428-460 | a finished walk means that following parents never meets an agreement twice |
| `DelegationGraph.CascadePlanUnique` | src/core/agreement-delegation.js:428-460 | there is only one finished walk from a start |
| `DelegationGraph.RefundUnwindCheck` | src/core/agreement-delegation.js:463-492 | the downward search ends on every graph, cyclic ones included, and fails exactly when some child has two parents |
| `DelegationGraph.UnwindReachesExactly` | src/core/agreement-delegation.js:463-492 | the children listed are exactly the agreements reachable from the start other than the start, each once |
| `DelegationGraph.UnwindNearestFirst` | src/core/agreement-delegation.js:463-492 | children are listed in non-decreasing distance from the start |
| `DelegationGraph.UnwindEdgesExactly` | src/core/agreement-delegation.js:463-492 | the edges are, as a multiset, every live link leaving the start or a reached agreement and no other |
| `DelegationGraph.UnwindEdgesInOrder` | src/core/agreement-delegation.js:463-492 | the edges come agreement by agreement in the order in which these are listed, and those of one agreement in ascending collation of their children |
| `DelegationGraph.SiblingsKeepRowOrder` | src/core/agreement-delegation.js:251-254 | links of one parent whose children collate alike are followed in row order |
| `DelegationGraph.ChildrenInEdgeOrder` | src/core/agreement-delegation.js:463-492 | the children are listed in the order in which the edges first lead to them |
| `DelegationGraph.TraversalsAreDual` | src/core/agreement-delegation.js:428-492 | p is among the parents walked from c exactly when c is among the children found from p |
| `DelegationPlans.IndexDelegationsById` | src/core/agreement-delegation.js:258-273 | rows are indexed by id unless two share one, and then the first repeated id is named |
| `DelegationPlans.ApplyEdge` | src/core/agreement-delegation.js:347-394 | one edge decided from the updates made so far is decided as from the original rows |
| `DelegationPlans.ApplyDelegationResolutionPlan` | src/core/agreement-delegation.js:329-425 | executing a plan is the plan's meaning against the original rows: the first problem, or the operations, rows and ledger |
| `DelegationPlans.PlanChangesExactly` | src/core/agreement-delegation.js:329-425 | on success exactly the plan's active rows without a padded status change: target status, times, the metadata given or else their own, one revision more, a hash that still matches; every other row keeps its place unchanged, and a named row has the target status exactly when it is not an active row with a padded status |
| `DelegationPlans.OperationsExplained` | src/core/agreement-delegation.js:347-394 | one operation is reported for each edge, in the order of the edges, for the row the edge names: applied from active to the target at the first edge that names a pending row or at any that names one with a padded status, and otherwise a no-op within the target status |
| `DelegationPlans.PlanSucceedsIff` | src/core/agreement-delegation.js:329-394 | an execution succeeds exactly when the target is terminal, no two rows share an id, and every edge names a row that has the target status or is an acceptable active one |
| `DelegationPlans.FailureIsFirst` | src/core/agreement-delegation.js:347-378 | a failure over rows with distinct ids is explained, reason by reason, by the first edge that cannot be executed |
| `DelegationPlans.NoDuplicateIff` | src/core/agreement-delegation.js:258-273 | the id check passes exactly for distinct ids, and otherwise names the first id to be repeated |
| `DelegationPlans.PlanLedgerMoves` | src/core/agreement-delegation.js:329-425 | the active count falls and the target count rises by the number applied less the edges that name an active row with a padded status, so by exactly the number applied if and only if no edge names one; applied and no-op operations are all edges |
| `DelegationPlans.AppliedCountsIds` | src/core/agreement-delegation.js:347-394 | the number applied is the number of distinct active delegations the plan changes plus the edges that name an active row with a padded status |
| `DelegationExecutes.CascadeSettlementExecute` | src/core/agreement-delegation.js:494-511 | check and execution compose: success means a full walk and its plan applied; a failure is the graph's or the plan's own |
| `DelegationExecutes.CascadeUnwindExecute` | src/core/agreement-delegation.js:513-530 | the same walk, revoking |
| `DelegationExecutes.RefundUnwindExecute` | src/core/agreement-delegation.js:532-549 | the downward search and its plan applied |
| `DelegationExecutes.RefundRevokesReachable` | src/core/agreement-delegation.js:532-549 | a refund unwind revokes exactly the active rows without padding whose parent is the start or can be reached from it |
| `DelegationExecutes.CascadeResolvesChain` | src/core/agreement-delegation.js:494-530 | a cascade settles or revokes exactly the active rows without padding that are the last live ones to give the start or one of its ancestors a parent |
| `DelegationExecutes.SettlementRepeatIsIdle` | src/core/agreement-delegation.js:494-511 | repeating a settlement follows the same chain and leaves every row as it is; it applies nothing exactly when no link of the chain names an active row with a padded status |
| `DelegationExecutes.RefundRepeatKeepsRows` | src/core/agreement-delegation.js:532-549 | repeating a refund unwind succeeds and leaves every row as it is; without padded statuses it finds no link left |
| `DelegationExecutes.RefundRepeatIsIdleIff` | src/core/agreement-delegation.js:532-549 | it reports nothing as applied exactly when no active row with a padded status is reachable from the start through padded rows |
| `DelegationExecutes.CascadeUnwindRepeatIdleIff` | src/core/agreement-delegation.js:513-530 | repeating a cascade unwind applies nothing exactly when every delegation it follows is already revoked; without padded revoked rows, exactly when at most one live row with an id was below the start and its status was not padded |
| `DelegationExecutes.ParallelDelegationIsTakenUp` | src/core/agreement-delegation.js:513-530 | two active delegations of one pair: the first cascade unwind succeeds and applies one, and its repeat is not idle |
| `DelegationExecutes.PaddedRowIsReportedApplied` | src/core/agreement-delegation.js:207-226 | a valid row whose active status is padded is reported as applied and comes back as it was |
| `Inbox.AgentInbox.constructor` | src/core/agent-inbox.js:197-206 | an empty inbox |
| `Inbox.AgentInbox.EnsureChannel` | src/core/agent-inbox.js:131-142 | a missing channel comes into being empty; nothing else is visible |
| `Inbox.AgentInbox.PublishMessage` | src/core/agent-inbox.js:208-299 | outcome and new logs of a publish: a new message at the end, the original for a repeated key and payload, or a refusal that changes nothing |
| `Inbox.AgentInbox.ListMessages` | src/core/agent-inbox.js:301-375 | the page after the cursor, its next cursor and whether more is left; the logs do not change |
| `Inbox.AgentInbox.ReadForConsumer` | src/core/agent-inbox.js:377-423 | the page after the consumer's checkpoint, or the refusal of the first bad name in the order of the checks |
| `Inbox.AgentInbox.AckCursor` | src/core/agent-inbox.js:425-558 | only the next message can be acknowledged; no-op, regression, out-of-order and refused outcomes, a refused token for its own reason, and exactly one checkpoint changes |
| `Inbox.IndexFindsKey` | src/core/agent-inbox.js:216-250 | the idempotency table finds exactly the message that carries a key |
| `InboxRuns.EveryReachableStateIsValid` | src/core/agent-inbox.js:131-299 | over every run message i has seq i + 1, keys and messages are in bijection, and every checkpoint stands in its log |
| `InboxRuns.RunKeepsValid` | src/core/agent-inbox.js:208-558 | the old log is a prefix of the new one and no checkpoint regresses, over every run |
| `InboxRuns.PublishSucceedsIff` | src/core/agent-inbox.js:208-299 | publishing succeeds exactly for plain names whose key is new or carries an equal payload |
| `InboxRuns.PublishExactly` | src/core/agent-inbox.js:208-299 | a new key appends one message with the next seq, its content and time, and returns its cursor; a used one returns the message that carries it, or is a conflict for another payload |
| `InboxRuns.RefusedForNames` | src/core/agent-inbox.js:208-223 | calls are refused for their names first, an unusable channel before an unusable key or consumer |
| `InboxRuns.InheritedKeyAlwaysConflicts` | src/core/agent-inbox.js:216-228 | in every channel a key named like an inherited object property is refused as a conflict although no message carries it |
| `InboxRuns.RepublishReturnsOriginal` | src/core/agent-inbox.js:208-299 | after any run, republishing a key returns the original for an equal payload and conflicts for another, changing nothing |
| `InboxRuns.AcksHaveNoGaps` | src/core/agent-inbox.js:425-558 | a consumer's acknowledgements over any run are exactly 1, 2, ..., k, where k is its checkpoint and within the log |
| `InboxRuns.AckExactly` | src/core/agent-inbox.js:510-558 | what acknowledging message i does after k: the next one succeeds, stores its cursor and expects k + 2; the current one is a no-op that returns the stored cursor; an earlier one is a regression and a later one out of order |
| `InboxRuns.AckMissing` | src/core/agent-inbox.js:488-509 | a cursor that does not stand in the log is not found |
| `InboxRuns.CanAcknowledgeAll` | src/core/agent-inbox.js:425-558 | from every reachable state a consumer can acknowledge on, one by one, up to the head of the log |
| `InboxRuns.RefusedForCursor` | src/core/agent-inbox.js:301-345 | then calls are refused for their limit and their cursor, each for its own reason |
| `InboxRuns.CallsAreIndependent` | src/core/agent-inbox.js:208-558 | no call moves another channel's log or another consumer's checkpoint |
| `InboxRuns.ReadResumesAfterAck` | src/core/agent-inbox.js:405-423 | a consumer read starts at exactly message k + 1 |
| `InboxRuns.ReadExactly` | src/core/agent-inbox.js:405-423 | and is the whole page from there: its messages, next cursor, head, and whether more is left |
| `InboxRuns.ListExactly` | src/core/agent-inbox.js:301-375 | listing succeeds exactly for a plain channel, a limit of 1 to 1000 and no cursor or one that stands in the log; the page starts at the first message or after the cursor's |
| `InboxRuns.PagesAreAPrefix` | src/core/agent-inbox.js:301-375 | pages read by following the cursor concatenate to a prefix of the current log, whatever is published in between and for any limits |
| `InboxRuns.PagingFinishes` | src/core/agent-inbox.js:301-375 | once publishing stops, as many pages as messages are left read the log to its end |
| `InboxRuns.HasMoreUntilEnd` | src/core/agent-inbox.js:301-375 | a page says that more is left exactly while the end has not been read |
| `InboxRuns.CursorOrderIsLogOrder` | src/core/agent-inbox-cursor.js:136-157 | comparing the cursors of two messages of a log compares their positions |
| `InboxRuns.CursorsCompareBothWays` | src/core/agent-inbox-cursor.js:136-157 | cursors compare exactly within one channel, both ways alike, by seq and then by message id |
| `InboxRuns.CheckpointIgnoresPublishedAt` | src/core/agent-inbox.js:154-160 | a cursor with another publication time is the same checkpoint |
| `AgentRuns.ReduceAgentRun` | src/core/agent-runs.js:107-196 | the loop that assigns the run's fields computes the fold of the events |
| `AgentRuns.ReduceConcat` | src/core/agent-runs.js:107-196 | reducing a concatenation continues the fold from the prefix's result |
| `AgentRuns.TerminalRejectsEverything` | src/core/agent-runs.js:107-196 | after a completed or failed run no further event reduces |
| `AgentRuns.ReducedRunsHaveShape` | src/core/agent-runs.js:107-196 | revision is the stream length less one; start, completion and failure times are those of their events and set exactly in their statuses; evidence is sorted, without duplicates and exactly what was added |
| `AgentRuns.ReducesIff` | src/core/agent-runs.js:107-196 | a stream reduces exactly when it begins with the creation of its own run, goes on with valid events of that run and ends with the first that completes or fails it; the run then carries what the creation says, the metrics or failure of the end, and the last event id and hash given |
| `AgentRuns.RejectionReason` | src/core/agent-runs.js:107-150 | the reason for which the first event too many is rejected, whatever follows it |
| `AgentRuns.StartedWhen` | src/core/agent-runs.js:160-185 | a run is started by the first event that starts it, keeps it alive, completes it or fails it |
| `Emergency.RecordEvent` | src/api/persistence.js:379-477 | one stored event updates the table row by row, an equal one is ignored and a different one with the same id is a conflict |
| `Emergency.ControlsFollowHistory` | src/api/persistence.js:379-477 | over any history a control is exactly what the accepted events touching it make it |
| `Emergency.ActiveIffLastIsNotResume` | src/api/persistence.js:439-466 | a control is active exactly when the last accepted event touching it was not a resume; its times, event and action are those of that event, it was activated by the last activation, and its revision is their number |
| `Emergency.RedeliveryIsNoopIff` | src/api/persistence.js:405-435 | after any further deliveries, delivering a stored event again changes nothing if it carries its own effective time or comes with the same record time, and is a conflict otherwise |
| `Emergency.DeliveryIsStored` | src/api/persistence.js:425-435 | a delivery that succeeds on a history has its normal form stored under its id |
| `Emergency.PauseConflictsWithItself` | src/api/persistence.js:405-435 | a pause without an effective time, delivered at time 1 and again at time 2, is a conflict |
| `Emergency.FindBlock` | src/api/store.js:4774-4827 | a block is found exactly when an active control of an allowed type covers the tenant or a listed agent or adapter, and it is first in the search order |
| `Emergency.BlockIsMostSevere` | src/api/store.js:4785-4826 | what comes before what in the search: kill switches, then revocations, quarantines and pauses; within a type an agent's, then an adapter's, then the tenant's; then the latest update and the lesser event id |
| `Emergency.CoversIff` | src/api/store.js:4800-4816 | after any history a control blocks a query exactly when the query is about its tenant, type and scope and the last accepted event that touched it was not a resume |
| `Emergency.NormalFormIs` | src/api/persistence.js:390-412 | which control types an event touches, and what its times default to |
| `Emergency.StoredIsFirst` | src/api/persistence.js:425-436 | what is stored under an event id is the first event delivered under it |
| `Ledgers.ApplyJournalEntry` | src/core/ledger.js:48-59 | an entry is applied at most once per id, posting by posting |
| `Ledgers.LedgerHoldsWinners` | src/core/ledger.js:48-59 | after any attempts the ledger holds exactly the first entry attempted under each id |
| `Ledgers.BalanceIsSum` | src/core/ledger.js:48-59 | every balance is the sum of the postings of the entries held |
| `Ledgers.SameEntriesIffSameWinners` | src/core/ledger.js:48-59 | two orders of attempts leave the same entries exactly when every id has the same first entry |
| `Ledgers.SameEntriesSameBalances` | src/core/ledger.js:48-59 | the same entries in any order give the same balances |
| `Store.CheckLinks` | src/api/persistence.js:739-750 | the loop accepts exactly the batches linked from the stream's head |
| `Store.EventStore.AppendToStream` | src/api/persistence.js:838-883 | a batch built on the head is stored, then reduced; a failing reduction throws after the events are stored |
| `Store.EventStore.ApplyTxRecord` | src/api/persistence.js:165-180 | operations are applied in order; one that throws leaves what came before it |
| `Store.EventStore.ProcessOutbox` | src/api/outbox.js:5-93 | the cursor loop delivers the next messages up to the limit; a ledger message without an id throws after the cursor has moved |
| `Store.EventStore.CommitTx` | src/api/store.js:584-600 | a record is logged before it is applied, then the outbox is drained |
| `Store.EventStore.Recover` | src/api/store.js:5363-5377 | start-up applies every record and drains once |
| `Recovery.RestartEqualsLive` | src/api/store.js:5363-5377 | after successful commits a restart succeeds and gives the same streams, snapshots, controls, tables, outbox, cursor and notifications |
| `Recovery.RestartSucceedsIff` | src/api/store.js:597-599 | a log restarts exactly when every commit that wrote it succeeded |
| `Recovery.UnknownOpBlocksRestart` | src/api/store.js:597-599 | a commit with an unknown operation throws, and so does every restart from then on |
| `Recovery.LedgersAgreeIff` | src/api/outbox.js:24-29 | the restarted ledger holds the live ledger's entries exactly when no queued entry was overtaken by a different direct entry under its id |
| `Recovery.RestartReplacesOvertaken` | src/api/outbox.js:24-29 | in general the restarted ledger holds the live ledger's entries with each overtaken one replaced by the entry that overtook it |
| `Recovery.RestartBalanceDifference` | src/api/outbox.js:24-29 | a restarted balance differs from the live one by exactly the sum, over overtaken entries, of the direct entry's postings less those of the queued one |
| `Recovery.BalancesAgree` | src/api/outbox.js:24-29 | so every balance is the same when nothing queued was overtaken |
| `Recovery.OvertakenEntryChangesBalance` | src/core/ledger.js:16-59 | two records with balanced two-posting entries of 5 and 7 cents under one id: the live balance is 5, the restarted one 7 |
| `Recovery.BatchesDrainAlike` | src/api/outbox.js:5-93 | draining in two bounded batches is draining once |
| `Recovery.LiveWinner` | src/api/store.js:584-600 | live, an id goes to whichever of its first direct and first queued entry is in the earlier record |
| `StoreRuns.CommitMovesCore` | src/api/store.js:584-600 | one commit, successful or not, changes what operations read only as its operations do |
| `StoreRuns.StreamsStayLinked` | src/api/persistence.js:712-926 | over any history, failing records included, every stream is linked from a null head |
| `StoreHistory.StreamsAreChained` | src/api/persistence.js:739-750 | over any history every event of a stream names the hash of the one before it, and the first names none |
| `StoreRuns.SecondAppendOnSameHeadFails` | src/api/persistence.js:720-750 | of two batches built on one head, once the first is stored the second is refused, whatever happens in between, as long as no stored batch ends with that head's hash |
| `StoreRuns.SnapshotsAreReductions` | src/api/persistence.js:838-883 | over any history a run whose stored stream reduces is stored as exactly that reduction |
| `StoreRuns.LiveSnapshotsAreReductions` | src/api/persistence.js:838-883 | after successful commits every stored run is the reduction of its stream, live and restarted alike |
| `StoreRuns.AppendContinuesFold` | src/api/persistence.js:879-881 | an append succeeds exactly when the new events continue the fold from the stored run, and stores that continuation |
| `StoreRuns.PoisonedStreamStaysPoisoned` | src/api/persistence.js:879-881 | once a batch that does not reduce has been stored, every later append to that run throws and its snapshot stays |
| `StoreRuns.StartWithoutCreationPoisons` | src/api/persistence.js:879-881 | a run started before it is created: the commit throws, the event stays stored and the stream does not reduce |
| `StoreHistory.OpSucceedsIff` | src/api/persistence.js:165-180 | exactly when each operation succeeds |
| `StoreHistory.OpFails` | src/api/persistence.js:838-883 | why an operation fails, and that a failure leaves nothing but a run batch stored before it is reduced |
| `StoreHistory.EffectiveIsPrefix` | src/api/persistence.js:165-180 | the operations of a record that take effect are all of them, or all up to the first that fails |
| `StoreHistory.StateFollowsHistory` | src/api/store.js:584-600 | over any history of records, failing ones included: the emergency state is that of the events applied, each delivered at its record's time; a table row holds the value last put; the outbox is the messages in the order enqueued; a stream is its batches one after the other |
| `StoreHistory.CommittedBlocksIff` | src/api/store.js:4774-4827 | what blocks a query after any history of records is decided by the last accepted event of each control |
| `StoreHistory.CommittedActivationIsActive` | src/api/persistence.js:439-466 | committing an activation under a new event id leaves its control active |
| `Wallets.RunKeepsNormal` | src/core/agent-wallets.js:417-543 | over every run all amounts stay nonnegative safe integers |
| `Wallets.MoneyIsConserved` | src/core/agent-wallets.js:417-543 | over every run on distinct wallets the total held is what was there plus what credits paid in |
| `Wallets.WalletEquation` | src/core/agent-wallets.js:487-511 | per wallet, available plus escrow is credited minus debited minus refunds |
| `Wallets.FromCreatedWallets` | src/core/agent-wallets.js:382-543 | the three together, from newly created wallets |
| `Wallets.TwoSidedKeepsTotalIff` | src/core/agent-wallets.js:462-543 | a release or transfer keeps the total exactly when its two wallets differ; within one wallet the amount appears when the giver is written back first and disappears when the receiver is |
| `Wallets.SelfReleaseChangesTotal` | src/core/agent-wallets.js:462-489 | a release of 5 from a wallet holding 5 to itself leaves 10, or nothing in the other write order |
| `Wallets.MoveSucceedsIff` | src/core/agent-wallets.js:417-543 | exactly when each operation succeeds: the balances it takes from suffice, a transfer keeps to one currency and tenant, and all results are safe integers |
| `Wallets.MoveFlows` | src/core/agent-wallets.js:417-543 | what each operation moves on either side; every other wallet is untouched |
| `Wallets.RefusedForLack` | src/core/agent-wallets.js:417-543 | without a proper amount, the balance or the escrow, one currency and one tenant, a move is refused for exactly that |
| `Settlements.NormalizeDisputeEvidenceRefs` | src/core/agent-wallets.js:119-135 | the loop keeps the first occurrence of each reference and fails on an invalid one |
| `Settlements.NormalEvidenceIs` | src/core/agent-wallets.js:119-135 | evidence is accepted exactly when every item is given, and is then each reference once in the order of first mention |
| `Settlements.MergeEvidence` | src/core/agent-wallets.js:1181-1206 | three loops over one seen-set merge stored, patched and appended references |
| `Settlements.MergeKeepsStored` | src/core/agent-wallets.js:1181-1206 | the merged list starts with the stored one, has no duplicates, and loses and invents nothing |
| `Settlements.PatchAgentRunSettlementDisputeContext` | src/core/agent-wallets.js:1161-1223 | the patch loops compute the patched settlement |
| `Settlements.CreatedShape` | src/core/agent-wallets.js:714-773 | creation succeeds exactly for a safe amount and window; the result is locked with nothing paid, no dispute and a pending decision |
| `Settlements.ResolveSucceedsIff` | src/core/agent-wallets.js:775-879 | exactly when a settlement can be resolved: locked, parts that make up the amount, a rate of 0 to 100, a window that fits, a run status and a revision to spare |
| `Settlements.ReconcileSucceedsIff` | src/core/agent-wallets.js:945-1045 | exactly when a resolved settlement can be reconciled |
| `Settlements.ResolutionRecords` | src/core/agent-wallets.js:775-879 | a resolution records its target, the released part, the refund that makes up the amount, the rate asked for or the nearest percentage, the end of the window, its run status, event and decision |
| `Settlements.ReconciliationRecords` | src/core/agent-wallets.js:945-1045 | a reconciliation records the same, leaves the window alone and keeps the stored run status, event and trace where none is given |
| `Settlements.SplitWithoutRefundIff` | src/core/agent-wallets.js:800-813 | with no refund given, releasing accepts any part of the amount while refunding accepts only zero |
| `Settlements.RateInRange` | src/core/agent-wallets.js:814-822 | the rounded rate of a part lies in 0..100, and is 0 or 100 at the ends |
| `Settlements.RefundReleasedIsGood` | src/core/agent-wallets.js:881-943 | exactly a released settlement with a run status and a revision to spare can be refunded afterwards: then nothing is released, the whole amount is refunded at rate 0, and terms and window stay |
| `Settlements.DecideIsGood` | src/core/agent-wallets.js:1047-1103 | exactly a locked settlement takes a decision update; what is given replaces what is stored, nothing else changes |
| `Settlements.OpenIsGood` | src/core/agent-wallets.js:1117-1137 | exactly when a dispute can be opened: then it is fresh and open, with the given id, the last one, or one made from the run, and the given context with its defaults |
| `Settlements.CloseIsGood` | src/core/agent-wallets.js:1138-1159 | exactly when a dispute can be closed, rates that fit the outcome included: its id, opening time and context stay and the given resolution is added with its defaults |
| `Settlements.PatchIsGood` | src/core/agent-wallets.js:1161-1223 | exactly an open dispute with valid evidence is patched: each field of the context stays, falls back or takes the value given, and the stored evidence stays in front of a duplicate-free list |
| `Settlements.RefusedForStatus` | src/core/agent-wallets.js:775-1223 | a step that the settlement's or its dispute's status or a missing run status forbids is refused for that |
| `Settlements.EveryStepIsGood` | src/core/agent-wallets.js:775-1223 | every step keeps the terms, adds one revision and never locks again |
| `Settlements.CreatedRunKeepsShape` | src/core/agent-wallets.js:714-1223 | every reachable settlement is locked with nothing paid or resolved with the whole amount split, its dispute fields agree with its dispute status, and its revision counts the steps |
| `Settlements.ResolvesOnce` | src/core/agent-wallets.js:791-796 | after one resolution every later one is refused |
| `Escrow.RunKeepsBalance` | src/api/store.js:1702-1712 | over every run that pairs holds with settlements and resolutions with payouts, each wallet's escrow is the sum of its locked settlements |
| `Escrow.FreshBookBalanced` | src/core/agent-wallets.js:387-406 | newly created wallets of different owners with no settlements start balanced |
| `Escrow.DealKeepsBalance` | src/core/agent-wallets.js:442-511 | each single deal keeps that balance |
| `Escrow.DealMoves` | src/core/agent-wallets.js:417-543 | what funding, paying and holding add to each wallet's free and escrowed amounts |
| `Escrow.DealSettles` | src/core/agent-wallets.js:714-1223 | holding adds a locked settlement of its terms, amending takes one a step further, and funding and paying change none |
| `Escrow.ResolutionNeverLacksEscrow` | src/core/agent-wallets.js:462-511 | the payout of a valid resolution never lacks escrow; it succeeds exactly when no amount leaves the safe integers |
| `Escrow.SettlePays` | src/core/agent-wallets.js:462-511 | a resolution pays the released part to the payee and the refunded part back to the payer, out of the payer's escrow |
| `Escrow.DealsConserveMoney` | src/core/agent-wallets.js:417-543 | over such runs the wallets hold together what was funded |
| `Receipts.AfterIsRest` | src/api/store.js:3263-3273 | in a listing strictly ordered for the cursor test the rows after row k are exactly the rest |
| `Receipts.FollowReadsRest` | src/api/store.js:3404-3410 | following the cursor with any limits then reads consecutive rows, and ends exactly at the end |
| `Receipts.RequestsFollow` | src/api/store.js:3349-3411 | reading request by request is reading slices of one sorted listing |
| `Receipts.ListedIff` | src/api/store.js:3378-3400 | a receipt is listed exactly when it is stored and meets every condition the query states |
| `Receipts.ListingNewestFirst` | src/api/store.js:3237-3250 | the latest settlement comes first, and of one time the earlier id in collation |
| `Receipts.ListingIsStable` | src/api/store.js:3237-3250 | rows that the order cannot tell apart are listed as stored |
| `Receipts.PageSize` | src/api/store.js:3404-3406 | a request is refused exactly for a limit that is not positive; a page holds at most its limit and at most 1000 |
| `Receipts.OffsetSkipsRows` | src/api/store.js:3404-3410 | a page with an offset skips that many rows after the cursor, and has a next cursor exactly when it has rows and more are left |
| `Receipts.PagingCompleteIff` | src/api/store.js:3404-3410 | every reading that ends is the whole listing, each row once and in order, exactly when the sorted rows are strictly ordered for the cursor test |
| `Receipts.StrictlyOrderedIffOrdersAgree` | src/api/store.js:3237-3273 | that is the case exactly when collation and code-unit order agree on the ids of rows settled at the same time |
| `Receipts.PagingIsExactWhenOrdersAgree` | src/api/store.js:3349-3411 | with agreeing orders the pages are the sorted matching receipts exactly once each |
| `Receipts.DisagreementLosesReceipt` | src/api/store.js:3241-3272 | two receipts, one of which paging never returns |
| `Lineage.NormalizeStringArray` | src/core/audit-lineage.js:30-44 | the loop keeps the first occurrence of each present string, then sorts |
| `Lineage.NormalAgain` | src/core/audit-lineage.js:60-88 | normalising a normalised record changes nothing |
| `Lineage.ArrangedNewestFirst` | src/core/audit-lineage.js:51-88 | the records are those sent, each with its ids listed once in collation order, newest first and then by kind and id |
| `Lineage.IsDeterministicallySorted` | src/core/audit-lineage.js:169-174 | comparing neighbours decides whether the whole list is sorted |
| `Lineage.CountKinds` | src/core/audit-lineage.js:192-196 | the counting loop on a plain object leaves one entry for each kind that can be set |
| `Lineage.CountsAddUpIff` | src/core/audit-lineage.js:192-196 | the counts the loop leaves are all numbers and add up to the records exactly when no kind is an inherited property name |
| `Lineage.CountsPerKind` | src/core/audit-lineage.js:189-196 | for plain kinds each kind of the records is counted once, in collation order, with the number of its records |
| `Lineage.BuildAuditLineage` | src/core/audit-lineage.js:176-233 | the build computes the sorted page, its summary and its hash |
| `Lineage.BuildSucceedsIff` | src/core/audit-lineage.js:176-233 | exactly when a build succeeds, and the total, page size and more-to-come of its summary |
| `Lineage.NormalizeSummary` | src/core/audit-lineage.js:105-167 | the summary check accepts exactly consistent numbers and valid counts that add up to the total, and keeps the last count of each kind |
| `Lineage.VerifiedCountsAddUpIff` | src/core/audit-lineage.js:143-155 | the counts kept and hashed add up to the total exactly when no nonzero count was overwritten by a later one of its kind or set on `__proto__` |
| `Lineage.VerifyAuditLineage` | src/core/audit-lineage.js:235-330 | the verdict, in the order of the checks |
| `Lineage.VerifiedIff` | src/core/audit-lineage.js:235-330 | a lineage is verified exactly when its records are acceptable and newest first, its summary is consistent with them and its counts, and its hash is of that content |
| `Lineage.VerifyAcceptsBuiltIff` | src/core/audit-lineage.js:176-330 | every built lineage is accepted exactly when no record kind is a property name that plain objects inherit; otherwise its summary is rejected |
| `Lineage.ArrangedPlain` | src/core/audit-lineage.js:189-196 | that condition in terms of the records sent |
| `Lineage.SameHashSameContent` | src/core/audit-lineage.js:295-315 | verified lineages with one hash agree in tenant, filters, records and in the summary that is hashed, the last count of each kind included |
| `Lineage.SameHashSameCounts` | src/core/audit-lineage.js:143-155 | and in the counts as they were sent, when in neither of them two kinds trim alike |
| `Lineage.SameHashDifferentCounts` | src/core/audit-lineage.js:143-155 | two verified lineages with one hash and different counts |
| `Lineage.PagesConcatenate` | src/core/audit-lineage.js:201-202 | consecutive pages concatenate to the stretch of the sorted list they span |
| `Lineage.PagesAreWhole` | src/core/audit-lineage.js:201-202 | pages from the start that span everything are everything, once |
| `Lineage.InputOrderIrrelevant` | src/core/audit-lineage.js:51-58 | the built lineage does not depend on the order of the input when time, kind and record id together are distinct |
| `Reputation.CountRunRows` | src/core/agent-reputation.js:125-162 | the loop over the runs computes the eight counters |
| `Reputation.CountSettlementRows` | src/core/agent-reputation.js:164-178 | the loop over the settlements computes the three counters |
| `Reputation.ComputeReputationSummary` | src/core/agent-reputation.js:109-219 | the summary is the scores of those counters |
| `Reputation.RunObserved` | src/core/agent-reputation.js:86-92 | a run is observed at its end, or else at its update, start or creation, whichever is given first |
| `Reputation.SettlementObserved` | src/core/agent-reputation.js:94-99 | a settlement is observed when resolved, or when locked if it still is or no time is given |
| `Reputation.WindowTakes` | src/core/agent-reputation.js:102-107 | which rows a window of 7 or 30 days or of all time takes in |
| `Reputation.CountersCount` | src/core/agent-reputation.js:125-178 | the counters count the rows of the scope by status, those with evidence and those timed, and sum the durations |
| `Reputation.TimedIff` | src/core/agent-reputation.js:145-162 | a run is timed from its start to its completion or failure, when both are dates in that order |
| `Reputation.SummaryIs` | src/core/agent-reputation.js:180-219 | which rate is of what and feeds which part of the trust score, what stands in for a missing rate, where the risk tiers begin, and the average duration |
| `Reputation.HeadedBy` | src/core/agent-reputation.js:276-313 | the three windows, and the scores of the one asked for or else of thirty days at the head |
| `Reputation.ScoresInRange` | src/core/agent-reputation.js:51-62 | every score and every given rate lies in 0..100 |
| `Reputation.RatioIsNearest` | src/core/agent-reputation.js:59-62 | a rate is the nearest percentage, half upwards, and 100 when the numerator exceeds the denominator |
| `Reputation.TrustBetweenParts` | src/core/agent-reputation.js:185-192 | the trust score never leaves the range of its four parts |
| `Reputation.TrustIsWeightedMean` | src/core/agent-reputation.js:192-192 | the trust score is the mean of the four parts with weights 55, 30, 10 and 5, to the nearest integer, half upwards |
| `Reputation.RowOrderIrrelevant` | src/core/agent-reputation.js:276-313 | the whole reputation is the same for every order of the rows |
| `Reputation.WindowsNested` | src/core/agent-reputation.js:102-107 | every counter of seven days is at most that of thirty days, and that at most the one of all time |
| `Reputation.CompletingNeverHurts` | src/core/agent-reputation.js:109-219 | turning a failed run into one completed at the same times never lowers the trust score |

## Left out

- Text handling: ids, names, currencies and statuses are taken after trimming and lower-casing; a blank or malformed one is one
  case. A delegation status keeps whether it was padded, a lineage count is taken after conversion to a number, and agreement
  hashes are taken to have no surrounding white space, which the delegation index would not trim. Only inherited property names
  are told apart, and the inbox lookup of a channel named `__proto__` is not modelled.
- Dates: times are integers or, where the code branches on it, missing or unparseable; receipts and emergency rows with
  unparseable times are outside the model, because their comparators are not transitive there.
- Floating point: percentages and scores are exact ratios rounded half upwards; amounts are integers checked against the safe
  range, as the code does.
- Hashing, canonical JSON, base64url cursors and signatures: injective constructors, or values passed through.
- Field validators that only reject a bad value, the dispute verdict fields, federation jurisdictions (one opaque value) and the
  whitelist of decision fields.
- Streams other than runs: stored and linked alike, but their reducers (job, robot, operator, month close) are not part of this
  model, nor are their snapshots; run heartbeats and evidence follow the run reducer in full.
- Operations that write one table row: one operation, `PutRow`, stands for them. Maps changed without a logged operation, ledger
  allocations, correlation side effects, audit operations and notification timestamps are outside replay.
- Revisions and sequence numbers in the inbox, the emergency table and agent runs are unbounded; in wallets, settlements and
  delegations the safe-integer bound is modelled.
- Escrow runs: the x402 refund reserve, holdbacks and the transfers that accompany a reconciliation are not part of the paired
  runs; each is a wallet operation covered by the wallet theorems.
- Receipts: building the candidate rows from receipts and gates; rows have distinct ids.
- Lineage filters are one opaque value; object key order is immaterial because the hash sorts keys.
- Reputation: rows that are not objects, and reputation version 1, which is the all-time window.
- File, HTTP, S3, Postgres and timer code, agent cards, billing, access control and the dashboard.
