# Durable workflow store: protocols and state machines

A Dafny model of a durable-workflow store built from single-writer cells, with proofs about its
protocols. A cell's transaction is one step; a call from one cell to another, or from a client to a
cell, is another step whose request or reply may be late, repeated or lost. The clock never goes
backwards, and generated claim ids are distinct.

- **Hook tokens.** `HookToken` has the token shard's transactions on one token, `HookCell` what a run
  cell knows about hooks on it, `HookProtocol` both together with the clients and a growing set of
  messages. `HookInvariant`, `HookPreservation` and `HookAttempts` carry the invariant, `HookTheorems`
  the results, `HookHalfDone` a run that ends half done. `HookEffects` says what each transaction brings
  about, `HookProgress` and `HookRecovery` that a token never gets stuck. `HookTokenShard` is the shard as
  a class with its deadline rows and alarm. `HookLink` and `HookHistory` show that the protocol's run cell is the run
  cell of the event log.
- **Event log.** `RunEvents` has events, their meaning and the decision on each request; `RunEffects` when
  each request is accepted and what the log and the rows are then; `RunLog` what every history keeps,
  `RunMeaning` that the rows say what the log says; `RunPages` event pages and stale replay; `RunCell` the
  transaction as a class.
- **Streams.** `StreamBytes` and `StreamCodec` the wire format, `StreamLayout` the bytes on the wire,
  `StreamSegments` stored segments,
  `StreamRows` reads of both row layouts, `StreamExpiry` paged deletion, `StreamCell` the cell as a
  class, `Streamer` the client's loops.
- **Retention.** `RunRetention` the record, its fence and its transactions, `RetentionCell` the same as
  a class, `CleanupSweep` cleanup across the run cell, the stream registry and the streams.
- **Catalog and listing.** `RunCatalog` publication and expiry fences, `KeyOrder` byte order,
  `RunListing` the merged listing over shards, `RunList` the filtered listing over stale metadata.
- **Queue claims.** `QueueClaims` the specification, `QueueStores` the two stores as classes.

Requests are taken as well-formed, serialized payloads as opaque strings, and 128-key storage batching
is dropped. Times, proposed ids, listings of other cells and the answers of remote calls are
parameters. `@workflow/world` is not part of this model: its status predicates and
`isChildEntityCreationEvent` are small defined functions here.

## Model

| member | source | states |
|---|---|---|
| `HookTheorems.TokenCoverage` | src/worker/durable-objects/HookTokenDO.ts:169-464 | over every interleaving of reservations, commits, publications, releases, lease expiries, repairs and takeovers, with lost, late and repeated messages, an active run's committed hook on the token owns the record, owns the claim, or claims the pending takeover; clients give back only claims under which nothing was sent |
| `HookTheorems.SharedOnlyDuringTakeover` | src/worker/durable-objects/HookTokenDO.ts:253-408 | two active hooks hold the token only as the victim and the claimer of a pending takeover |
| `HookTheorems.TakeoverIsAllOrNothing` | src/worker/durable-objects/HookTokenDO.ts:367-408 | a takeover that ended either moved the record after the claimer's log held the forced creation and the victim was gone, or left the record alone; then its reservation can never commit later, exactly unless the claimer had expired with the creation in its log |
| `HookTheorems.TakeoverEnds` | src/worker/durable-objects/HookTokenDO.ts:637-664 | the same for the single step that ends a pending takeover |
| `HookTheorems.RecordMovesOnlyByTakeover` | src/worker/durable-objects/HookTokenDO.ts:637-664 | a record passes from one owner directly to another only by rolling forward a takeover of exactly that owner |
| `HookTheorems.FenceIsBacked` | src/apply-event.ts:1335-1373 | a delivery fence in any run cell is backed by a forced creation in the fencing run's log against that very hook |
| `HookTheorems.ForeclosedForever` | src/apply-event.ts:1382-1415 | a reservation that was fenced before it committed never commits |
| `HookTheorems.ReachableInv` | src/worker/durable-objects/HookTokenDO.ts:169-464 | every reachable state satisfies the protocol's invariant |
| `HookTheorems.AbandonSafeExactlyWhenUnused` | src/indexes.ts:351-371 | giving a reservation back keeps coverage exactly when its hook is not live and no creation that would still commit is on its way; otherwise coverage is lost at once or by one delivery |
| `HookTheorems.RetriedReservationLosesToken` | src/indexes.ts:351-371 | a concrete run of sequential attempts in which a claim is given back after a creation was sent under it, and two active runs end up holding the token |
| `HookAttempts.UnsentIsUnused` | src/indexes.ts:328-371 | giving back a claim under which nothing was sent is harmless in every reachable state |
| `HookAttempts.FreshClaimIsUnsent` | src/indexes.ts:333-371 | a claim that an attempt just proposed and got is one under which nothing was sent |
| `HookAttempts.UnsentUntilSent` | src/storage.ts:632-681 | it stays so exactly until an attempt of the same owner sends a creation under it |
| `HookHalfDone.TakeoverEndsHalfDone` | src/worker/durable-objects/WorkflowRunDO.ts:571-574 | a concrete run in which the claimer expires before the settlement: the victim's hook is disposed and fenced, the claimer's log holds the forced creation, and the token never moved |
| `HookProgress.TakeoverGoesThrough` | src/worker/durable-objects/HookTokenDO.ts:367-408 | beside it, a concrete run that goes through: the running victim's hook is disposed and the claimer's hook owns the token |
| `HookProgress.RollForwardEnds` | src/worker/durable-objects/HookTokenDO.ts:637-664 | in every state of the invariant, an enabled roll-forward of the pending takeover ends it at once, with the record it brings and nothing else moved |
| `HookProgress.TakeoverCanSettle` | src/worker/durable-objects/HookTokenDO.ts:367-408 | from every state a pending takeover can be settled by whoever asks: the token moves exactly if the claimer's log holds the forced creation and its run has not expired, and then a running victim's hook is gone |
| `HookProgress.ClaimCanSettle` | src/worker/durable-objects/HookTokenDO.ts:697-744 | from every state a claim can be resolved once its lease has passed; a hook that committed under it becomes the record |
| `HookProgress.FreeTokenCanBeTaken` | src/worker/durable-objects/HookTokenDO.ts:169-244 | a token that nobody has can be taken by any hook that an active run has not created yet, up to its published record |
| `HookRecovery.TokenCanBeFreed` | src/worker/durable-objects/HookTokenDO.ts:367-512 | from every state of the invariant in which no active run holds the token, it can be freed by settlements alone, without a step of any run |
| `HookRecovery.NoTokenIsStuck` | src/worker/durable-objects/HookTokenDO.ts:169-512 | no token is stuck: from every reachable state in which no active run holds it, it can be brought to any hook that an active run has not created yet |
| `HookRecovery.ClaimCanBePublished` | src/worker/durable-objects/hook-index-shared.ts:116-142 | a claim whose hook committed can be published at once |
| `HookRecovery.ClaimCanBePreempted` | src/worker/durable-objects/HookTokenDO.ts:617-630 | a forced claimant does not wait for another's lease: the claim is fenced, or its hook recorded, at once |
| `HookRecovery.StaleRecordIsWithdrawn` | src/worker/durable-objects/hook-index-shared.ts:149-165 | a record published for another run is withdrawn exactly if that run no longer has the hook |
| `HookRecovery.EndedRunKeepsToken` | src/worker/durable-objects/HookTokenDO.ts:746-762 | a run that ends with a retained hook keeps its token exactly until the retention is over |
| `HookRecovery.RefusedClaimIsReleased` | src/storage.ts:671-719 | a creation that is refused, and one whose answer was lost and that did not commit, give the token back, and nothing can commit under that key any more |
| `HookRecovery.ExpiredHookIdIsFenced` | src/worker/durable-objects/WorkflowRunDO.ts:429-458 | once the hook-ID shard had its expired claim resolved as not committed, no creation under it can commit |
| `HookRecovery.EndedHookIsRetained` | src/worker/durable-objects/HookTokenDO.ts:410-454 | a hook whose run ended before its publication is published as a retained one |
| `HookRecovery.RetainedTokenCanBeClaimed` | src/worker/durable-objects/HookTokenDO.ts:281-356 | a token that an ended run retains can be taken over by force, without anything to dispose |
| `HookRecovery.TakeoverCanBeJoined` | src/worker/durable-objects/HookTokenDO.ts:253-279 | the claimer of a pending takeover that asks again gets its reservation back |
| `HookEffects.RollForwardSettles` | src/worker/durable-objects/HookTokenDO.ts:637-664 | a settlement of the pending takeover leaves no takeover and no retention, the record it brings and the claim as it was; any other changes nothing |
| `HookEffects.DropUndoesOpen` | src/worker/durable-objects/HookTokenDO.ts:253-408 | opening a takeover writes its intent alone, and dropping the intent undoes it |
| `HookEffects.OpenWithoutTakeover` | src/worker/durable-objects/HookTokenDO.ts:253-356 | a record that may go at once goes without a takeover, one that moved is left alone |
| `HookEffects.FirstClaimantWins` | src/worker/durable-objects/HookTokenDO.ts:169-244 | a free token goes to its first claimant; within the lease its retry gets the same claim, others are refused, and giving exactly that claim back frees the token |
| `HookEffects.LeaseEnds` | src/worker/durable-objects/HookTokenDO.ts:697-744 | after the lease nobody gets the token before the claimant's run was asked; a committed hook keeps it, otherwise it is free |
| `HookEffects.OtherClaimsStay` | src/worker/durable-objects/HookTokenDO.ts:697-744 | an alarm pass leaves alone a claim that is not due, or was renewed or replaced since it was listed |
| `HookEffects.ClaimsResolve` | src/worker/durable-objects/hook-index-shared.ts:116-142 | a publication and a preemption write the committed hook in the place of exactly the observed claim |
| `HookEffects.TokenChangesHands` | src/worker/durable-objects/HookTokenDO.ts:410-512 | reserved, published, held against others, released and reserved by the next: the whole life of a record |
| `HookEffects.PublicationNeedsItsClaim` | src/worker/durable-objects/HookTokenDO.ts:410-454 | a publication without its own unexpired claim or record is refused, each case with its answer |
| `HookEffects.RetentionEnds` | src/worker/durable-objects/HookTokenDO.ts:746-762 | a finished run's hook keeps its token exactly until its retention ends, however it came to be retained |
| `HookEffects.EndedHookIsReleased` | src/worker/durable-objects/HookTokenDO.ts:410-512 | a finished run's hook without retention ahead is not published: its claim and its record go |
| `HookEffects.ReleaseFrees` | src/worker/durable-objects/HookTokenDO.ts:466-512 | on any state, a released owner has no claim left, and a record only as a finished run's retained one; nothing of another owner moves |
| `HookTokenShard.Shard.Reserve` | src/worker/durable-objects/HookTokenDO.ts:169-244 | on rows, deadline rows and alarm it is the reservation of the protocol; no other token moves; no deadline is slept through |
| `HookTokenShard.Shard.OpenTakeover` | src/worker/durable-objects/HookTokenDO.ts:253-356 | opening a takeover, likewise |
| `HookTokenShard.Shard.RollForward` | src/worker/durable-objects/HookTokenDO.ts:637-664 | rolling a takeover forward, likewise |
| `HookTokenShard.Shard.DropIntent` | src/worker/durable-objects/HookTokenDO.ts:367-408 | dropping an intent, likewise |
| `HookTokenShard.Shard.Finalize` | src/worker/durable-objects/HookTokenDO.ts:410-454 | publishing a hook, with every refusal in order |
| `HookTokenShard.Shard.ReleaseClaim` | src/worker/durable-objects/HookTokenDO.ts:456-464 | releasing exactly the named claim |
| `HookTokenShard.Shard.ReleaseBatch` | src/worker/durable-objects/HookTokenDO.ts:466-512 | releasing a batch is releasing its entries in order |
| `HookTokenShard.Shard.PublishClaim` | src/worker/durable-objects/hook-index-shared.ts:116-142 | publishing a committed hook unless the claim or the record moved meanwhile |
| `HookTokenShard.Shard.Withdraw` | src/worker/durable-objects/hook-index-shared.ts:149-165 | withdrawing a republished record whose owner lost the hook |
| `HookTokenShard.Shard.PreemptClaim` | src/worker/durable-objects/HookTokenDO.ts:617-630 | fencing or publishing another hook's creation in flight |
| `HookTokenShard.Shard.BeginPass` | src/worker/durable-objects/HookTokenDO.ts:514-530 | an alarm pass starts without losing a deadline, also when the runtime reports the running alarm as unset |
| `HookTokenShard.Shard.CompactClaims` | src/worker/durable-objects/HookTokenDO.ts:697-744 | a pass resolves exactly the due claims that are still those it listed; claims stored while it waited stay |
| `HookTokenShard.Shard.CompactRetained` | src/worker/durable-objects/HookTokenDO.ts:746-762 | a pass frees exactly the tokens whose listed retention deadline is still theirs, unless a takeover is pending or another owner holds the record |
| `HookTokenShard.Shard.DropStaleTakeovers` | src/worker/durable-objects/HookTokenDO.ts:764-784 | afterwards every listed takeover row left belongs to a stored takeover |
| `HookTokenShard.Shard.EndPass` | src/worker/durable-objects/HookTokenDO.ts:543-570 | when a pass ends, or fails, an alarm is armed for every deadline row |
| `HookTokenShard.Shard.NoLostWakeUp` | src/worker/durable-objects/HookTokenDO.ts:514-570 | between passes every stored claim and takeover has its own deadline row, and an alarm is armed no later than it, or than one retry delay past the shard's clock |
| `HookLink.RequestsAgree` | src/apply-event.ts:1162-1266 | every request to the event store is the protocol cell's transaction for each token, and a creation on the token is answered as the protocol answers it, with the same hook; only a known hook whose request names it as the token's holder is a conflict instead |
| `HookLink.ResolversAgree` | src/worker/durable-objects/WorkflowRunDO.ts:403-458 | so are the claim resolvers: the fences they leave and the answers they give |
| `HookLink.ForcedResolutionAgrees` | src/apply-event.ts:1382-1415 | a takeover is answered as journaled, with the hook left of it, exactly when it is in the cell, and fenced otherwise |
| `HookLink.ForcedDisposalAgrees` | src/apply-event.ts:1335-1373 | forced disposal, with a row on an active run and without one on a finished run |
| `HookLink.TerminalCleanupAgrees` | src/worker/durable-objects/WorkflowRunDO.ts:1079-1114 | a page of terminal cleanup |
| `HookHistory.HistorySimulates` | src/worker/durable-objects/WorkflowRunDO.ts:311-576 | every history of a run cell, with requests, resolvers, takeovers of this and other tokens, cleanup and expiry, is a history of the protocol's cell |
| `HookHistory.HistoryAnswers` | src/worker/durable-objects/WorkflowRunDO.ts:311-576 | along any such history every creation and every claim resolution on the token gets the protocol's answer, also behind the expiry fence |
| `RunLog.TablesAreFoldOfLog` | src/apply-event.ts:493-1373 | after any history the event slots are exactly 1..sequence, the stored run and steps are the fold of the log up to the retention stamp, and so are hooks and waits until the run has ended |
| `RunLog.StepCommits` | src/apply-event.ts:493-1326 | a transaction changes nothing that counts, or its one or two appended events are its whole effect: a refusal is silent |
| `RunLog.NoEventTwice` | src/apply-event.ts:627-1324 | never two creations of one hook or step, two ends of one step, two recorded deliveries with one resume id, two workflow-authored attribute events with one correlation id, nor two starts of the run; two events that end the run are two cancellations |
| `RunLog.HistoryOnlyAdvances` | src/apply-event.ts:627-664 | whatever happens later, the log keeps its events, the status only moves pending, running, ended, an ended run keeps its outcome, and a forced hook its fence |
| `RunLog.ResumeIsIdempotent` | src/apply-event.ts:707-742 | a recorded resume id answers the event it recorded, and conflicts exactly with another hook or another payload digest |
| `RunLog.ForcedHookRefusesDeliveries` | src/apply-event.ts:744-778 | a hook taken over by force accepts no delivery ever again |
| `RunLog.EmptyResumeRecordsAgain` | src/apply-event.ts:707-742 | a delivery with an empty resume id is recorded every time it is sent |
| `RunMeaning.RowsTellTheLog` | src/apply-event.ts:493-1326 | after any history every row says what the logged events say: a step is there, done or broken exactly as logged, with its outcome and its count of attempts; the run has the status its events moved it to, with its outcome; hooks and waits stand exactly as logged until the run has ended |
| `RunEffects.OtherVersionsRefused` | src/apply-event.ts:613-622 | requests of another version, or against a run of another version, are refused |
| `RunEffects.CreateRunEffect` | src/apply-event.ts:791-834 | a missing run becomes pending with what it was given, under a run_created event; a stored one only answers |
| `RunEffects.StartRunEffect` | src/apply-event.ts:835-899 | a pending run runs, keeping its first start; a running one only answers; an ended one is refused |
| `RunEffects.ResilientStartEffect` | src/apply-event.ts:554-611 | a start with input creates and starts a missing run, with both events |
| `RunEffects.EndRunEffect` | src/apply-event.ts:900-967 | a run that has not ended completes with its output, fails with its error and no output, or is cancelled with neither, each at its time; an ended one refuses all but a cancellation of a cancelled run |
| `RunEffects.SetAttributesEffect` | src/apply-event.ts:968-996 | attributes change as listed, and nothing else of the run but its update time |
| `RunEffects.SetAttributesRefused` | src/apply-event.ts:657-982 | a missing run, an ended one and a correlation that was recorded refuse |
| `RunEffects.LastChangeCounts` | src/apply-event.ts:968-996 | of the changes to one attribute the last counts |
| `RunEffects.OthersUnchanged` | src/apply-event.ts:968-996 | an attribute that no change names keeps its value |
| `RunEffects.CreateStepEffect` | src/apply-event.ts:997-1032 | a created step waits with its input, not yet attempted; a known one conflicts |
| `RunEffects.StartStepEffect` | src/apply-event.ts:1033-1101 | a stored step becomes active with one attempt more and no wait left, keeping its first start; it is refused before its retry time, after its end, and on an ended run unless it was active |
| `RunEffects.LazyStartEffect` | src/apply-event.ts:1033-1101 | a start that carries the input creates and starts a missing step; a step that is there conflicts |
| `RunEffects.CompleteStepEffect` | src/apply-event.ts:1103-1123 | a step succeeds with its result, whatever its run did meanwhile, unless it has ended |
| `RunEffects.RetryStepEffect` | src/apply-event.ts:1144-1161 | a step waits until its retry time with its error, unless it has ended |
| `RunEffects.FailStepEffect` | src/apply-event.ts:1124-1143 | a step fails for good with its error, but not for an ended run unless it was active |
| `RunEffects.RetryComesBack` | src/apply-event.ts:1033-1161 | a step that was put off is refused before its retry time and starts from then on |
| `RunEffects.CreateHookEffect` | src/apply-event.ts:1162-1245 | a hook the log does not know, on a free token, is created as asked |
| `RunEffects.CreateHookOtherwise` | src/apply-event.ts:1162-1245 | a cancelled reservation and an ended run refuse; a token held by another leaves a logged conflict alone; a known hook answers if it stands as admitted and conflicts otherwise |
| `RunEffects.DisposeHookEffect` | src/apply-event.ts:1246-1267 | the hook's row goes and its token is on record as released; a second disposal only answers |
| `RunEffects.ReceiveHookEffect` | src/apply-event.ts:1309-1324 | a first delivery to a live hook is recorded with its resume id |
| `RunEffects.ReceiveHookRefused` | src/apply-event.ts:744-785 | a hook that is not stored, was taken over, or whose run has ended accepts no first delivery |
| `RunEffects.ReportConflictEffect` | src/apply-event.ts:1309-1324 | a reported conflict is only logged |
| `RunEffects.CreateWaitEffect` | src/apply-event.ts:1268-1287 | a created wait is open until its time; a known one conflicts |
| `RunEffects.CompleteWaitEffect` | src/apply-event.ts:1288-1306 | an open wait completes once |
| `RunEffects.ForcedDisposalEffect` | src/apply-event.ts:1335-1373 | a forced disposal takes the hook's row, releases its token and fences it against deliveries, logged with the claimer on a run that has not ended |
| `RunEffects.TokenResolutionEffect` | src/worker/durable-objects/WorkflowRunDO.ts:403-423 | asked about a reservation, a cell finds its hook on the token or fences exactly this reservation |
| `RunEffects.ExpiredResolutionEffect` | src/worker/durable-objects/WorkflowRunDO.ts:429-458 | asked about an expired claim, it answers the hook that stands or fences both forms; an ended run does neither |
| `RunEffects.JournaledExactly` | src/apply-event.ts:1382-1415 | a takeover counts as journaled exactly if the log holds its forced creation |
| `RunEffects.ForcedResolutionEffect` | src/apply-event.ts:1382-1415 | the settler's question is answered from the log, and fences both forms if it holds no such creation |
| `RunEffects.FencedCreationRefused` | src/apply-event.ts:1162-1244 | a fenced reservation refuses later creations |
| `RunEffects.CleanupEffect` | src/worker/durable-objects/WorkflowRunDO.ts:1079-1114 | terminal cleanup takes rows of ended runs alone |
| `RunPages.PageIsExact` | src/apply-event.ts:398-419 | a page of the event log holds exactly the next slots, says whether more follow and where to go on |
| `RunPages.StaleReplayIsComplete` | src/apply-event.ts:1423-1471 | a writer that is behind gets exactly the slots between its event count and its own event, with nothing more to come |
| `RunPages.FreshReplayIsPlain` | src/apply-event.ts:1423-1471 | a writer that is not behind gets no events |
| `RunPages.SinceCursorIsExact` | src/apply-event.ts:1423-1471 | a reader that names a cursor gets up to 100 events after it, and whether more follow |
| `RunPages.CursorsEnumerateLog` | src/apply-event.ts:398-419 | pages of any positive size, followed to the end, enumerate the log once and in order |
| `RunCell.RunCell.Transact` | src/worker/durable-objects/WorkflowRunDO.ts:311-396 | the transaction on rows and sequence counter is the decided step; a refusal leaves every row and the counter as they were |
| `RunCell.RunCell.ApplyEvent` | src/apply-event.ts:493-1326 | direct row writes, guard by guard, are what replaying the appended events gives |
| `RunCell.RunCell.CheckGuards` | src/apply-event.ts:624-785 | the guards in the source's order |
| `RunCell.RunCell.BootRun` | src/apply-event.ts:554-611 | resilient start creates and starts the run in one transaction |
| `RunCell.RunCell.StartStep` | src/apply-event.ts:1033-1101 | starting a step, lazily creating it when its input comes along |
| `RunCell.RunCell.CreateHook` | src/apply-event.ts:1162-1244 | hook creation with its cancelled, conflicting, known and duplicate outcomes |
| `RunCell.RunCell.ForceDispose` | src/apply-event.ts:1335-1373 | hook, release marker, delivery fence and event row change together or not at all |
| `RunCell.RunCell.ResolveForcedHookClaim` | src/apply-event.ts:1382-1415 | the log decides; otherwise both forms of the reservation are fenced |
| `StreamCodec.BatchRoundTrip` | src/stream-protocol.ts:152-192 | a write batch survives the wire |
| `StreamCodec.BatchDecoderIsStrict` | src/stream-protocol.ts:170-192 | the batch decoder accepts only byte strings the encoder can produce |
| `StreamCodec.AckRoundTrip` | src/stream-protocol.ts:194-236 | an acknowledgement survives the wire exactly when its offsets are consistent |
| `StreamCodec.ReadRoundTrip` | src/stream-protocol.ts:238-339 | a read result survives the wire exactly when its payload is within 8 MiB and its error, if any, is not empty |
| `StreamLayout.StatesOnTheWire` | src/stream-protocol.ts:238-284 | the byte of each stream state, and no other byte is one |
| `StreamLayout.BatchLayout` | src/stream-protocol.ts:152-168 | the write frame holds the count and then every chunk behind its length, in network order, and ends with the last |
| `StreamLayout.FrameIsChunk` | src/stream-protocol.ts:152-168 | a frame is a length of four bytes, high one first, and that many bytes |
| `StreamLayout.BatchChunkLayout` | src/stream-protocol.ts:152-168 | each chunk stands at the offset that the lengths before it give |
| `StreamLayout.AckLayout` | src/stream-protocol.ts:194-212 | the acknowledgement holds its start index, count and next index at their offsets |
| `StreamLayout.ReadLayout` | src/stream-protocol.ts:238-284 | the read frame holds start index, tail index and count at their offsets |
| `StreamLayout.ReadFlagsLayout` | src/stream-protocol.ts:238-284 | and the state and flag bytes |
| `StreamLayout.ReadFramesLayout` | src/stream-protocol.ts:238-284 | the chunks follow the header one behind the other |
| `StreamLayout.ReadErrorLayout` | src/stream-protocol.ts:238-284 | and the error follows them |
| `StreamCodec.ValidateStreamWriteChunks` | src/stream-protocol.ts:98-116 | accepts exactly the batches within the chunk and byte limits |
| `StreamCodec.EncodeStreamWriteBatch` | src/stream-protocol.ts:152-168 | filling the buffer writes the frame, or refuses |
| `StreamCodec.DecodeStreamWriteBatch` | src/stream-protocol.ts:170-192 | the decoding loop is the frame parser, with every refusal |
| `StreamCodec.EncodeStreamWriteResult` | src/stream-protocol.ts:194-212 | filling the acknowledgement's buffer, or refusing |
| `StreamCodec.EncodeStreamReadResult` | src/stream-protocol.ts:238-284 | filling the read result's buffer, or refusing |
| `StreamCodec.DecodeStreamReadResult` | src/stream-protocol.ts:286-339 | the decoding loop is the frame parser, with every refusal |
| `StreamSegments.EncodeSegment` | src/worker/durable-objects/StreamDO.ts:165-178 | the stored bytes hold exactly these chunks |
| `StreamSegments.DecodeSegment` | src/worker/durable-objects/StreamDO.ts:180-204 | gives back the chunks that are stored, and refuses exactly when the value stores none under its size row |
| `StreamSegments.PackedOnce` | src/worker/durable-objects/StreamDO.ts:180-204 | a stored value holds at most one list of chunks, so decoding undoes encoding |
| `StreamSegments.PackSegments` | src/worker/durable-objects/StreamDO.ts:207-227 | the segments follow each other, none is empty or too large unless it is one chunk, and together they are the input |
| `StreamRows.ReadChunkRows` | src/worker/durable-objects/StreamDO.ts:430-460 | on intact rows the read is the longest prefix of the log that fits the limits |
| `StreamRows.ReadSegmentRows` | src/worker/durable-objects/StreamDO.ts:467-546 | on intact rows the read is a prefix of the log within the limits, non-empty when data is available; it stops where everything available is read, where the next chunk exceeds the budget, or at the end of a segment with which the segments it loads use the budget up |
| `StreamExpiry.ExpireChunkPage` | src/worker/durable-objects/StreamDO.ts:748-796 | on any rows an unfinished page deletes a row and a finished one leaves none; on intact rows it takes exactly the chunks and bytes it reports off the front: one, or as many as fit both limits |
| `StreamExpiry.ExpireSegmentPage` | src/worker/durable-objects/StreamDO.ts:803-849 | the same for segment rows, segment by segment |
| `StreamCell.StreamCell.WriteChunks` | src/worker/durable-objects/StreamDO.ts:549-608 | a batch is appended whole or refused whole, with the acknowledgement of its place, in either layout |
| `StreamCell.StreamCell.Close` | src/worker/durable-objects/StreamDO.ts:632-648 | closes an open stream; the first terminal state wins |
| `StreamCell.StreamCell.Fail` | src/worker/durable-objects/StreamDO.ts:651-673 | likewise with an error |
| `StreamCell.StreamCell.ReadSnapshot` | src/worker/durable-objects/StreamDO.ts:401-428 | a read answers a prefix of the log from its start index, empty only when there is nothing to read, and stops only where it should |
| `StreamCell.StreamCell.ExpireStream` | src/worker/durable-objects/StreamDO.ts:855-910 | the fence is permanent and keeps owner, date and count; each page takes its reported chunks and bytes off the front, as many as the limits allow; done is reported exactly when no row remains |
| `StreamCell.StreamCell.ExpireAll` | src/worker/durable-objects/StreamDO.ts:855-910 | the chunk counts of all pages sum to the count at the first fence, and paging ends |
| `Streamer.NextBatch` | src/streamer.ts:187-197 | a batch is within the chunk and byte limits and as long as both allow |
| `Streamer.WriteChunksToStream` | src/streamer.ts:167-210 | what was written is a prefix of the input, once and in order; all of it exactly when the chunks are small enough, the stream takes them and the index has room |
| `Streamer.ReadFromStream` | src/streamer.ts:234-300 | a reader pulling between any appends receives the log from its start index, also a negative one or one ahead of the log: every chunk once, in order |
| `RunRetention.ExpiryIsPermanent` | src/worker/durable-objects/WorkflowRunDO.ts:261-285 | once a run reads as expired it does so at every later time, through cleanup, operator cleanup, retention enforcement, failures and delayed writers, and its rows only become fewer |
| `RunRetention.LateWritesAreSilent` | src/worker/durable-objects/WorkflowRunDO.ts:311-396 | no guarded write changes an expired run's cell |
| `RunRetention.GenerationNamesRecord` | src/worker/durable-objects/WorkflowRunDO.ts:829-854 | generations only grow, and a record that kept its generation was not touched |
| `RunRetention.EndsWithTombstoneAlone` | src/worker/durable-objects/WorkflowRunDO.ts:1295-1331 | a tombstone without a cleanup record is the cell's only row |
| `RunRetention.ExpiredExactly` | src/worker/durable-objects/WorkflowRunDO.ts:261-285 | a run reads as expired behind a tombstone, from its due date on, or while cleanup is under way, and under which date |
| `RunRetention.ScheduledExpiry` | src/worker/durable-objects/WorkflowRunDO.ts:662-690 | a finished run that is scheduled expires exactly when its retention after its completion has passed |
| `RunRetention.NothingToSchedule` | src/worker/durable-objects/WorkflowRunDO.ts:662-690 | whatever is scheduled or gone, a run that has not ended and a date out of range are left alone |
| `RunRetention.EnforcedExpiry` | src/worker/durable-objects/WorkflowRunDO.ts:699-768 | a run of the maximum age reads as expired from that age on and no later than before; a younger one is not touched |
| `RunRetention.CleanedUpNow` | src/worker/durable-objects/WorkflowRunDO.ts:770-790 | operator cleanup of a finished or scheduled run: it reads as expired from now on |
| `RunRetention.FinishMovesOn` | src/worker/durable-objects/WorkflowRunDO.ts:829-854 | the end of a page moves to the next phase, or stays for another page, under its own generation; exactly the listed rows go and are counted |
| `RunRetention.PayloadMovesOn` | src/worker/durable-objects/WorkflowRunDO.ts:1295-1331 | a payload batch removes and counts its rows under the tombstone, which keeps date and counts |
| `RunRetention.FailureCounts` | src/worker/durable-objects/WorkflowRunDO.ts:1333-1355 | a failure counts one attempt against the record it happened to |
| `RunRetention.WriteLands` | src/worker/durable-objects/WorkflowRunDO.ts:311-396 | before its expiry a run takes every write as given, and the retention that ends it is scheduled once |
| `RetentionCell.RetentionCell.ScheduleCleanup` | src/worker/durable-objects/WorkflowRunDO.ts:662-690 | a finished run is due at its completion plus its retention, if that is a date; an existing record is kept |
| `RetentionCell.RetentionCell.EnforceRetention` | src/worker/durable-objects/WorkflowRunDO.ts:699-768 | exactly a run whose creation plus the retention has been reached becomes due at that date, or keeps an earlier one; the answer says which |
| `RetentionCell.RetentionCell.CleanupNow` | src/worker/durable-objects/WorkflowRunDO.ts:770-790 | afterwards the run reads as expired if it has a record |
| `RetentionCell.RetentionCell.SetCleanupPhase` | src/worker/durable-objects/WorkflowRunDO.ts:829-854 | the phase moves exactly when the record is the one the pass read |
| `RetentionCell.RetentionCell.FinishIndexPage` | src/worker/durable-objects/WorkflowRunDO.ts:1188-1222 | deletes the listed markers and moves on only under the generation that was read |
| `RetentionCell.RetentionCell.FinishStreamPage` | src/worker/durable-objects/WorkflowRunDO.ts:1224-1260 | likewise for the stream phase |
| `RetentionCell.RetentionCell.ListQueuePage` | src/worker/durable-objects/WorkflowRunDO.ts:1262-1293 | lists registrations up to the page size and says exactly whether others remain |
| `RetentionCell.RetentionCell.FinishQueuePage` | src/worker/durable-objects/WorkflowRunDO.ts:1262-1293 | likewise for the queue phase |
| `RetentionCell.RetentionCell.DeletePayloadBatch` | src/worker/durable-objects/WorkflowRunDO.ts:1295-1331 | deletes one batch under the tombstone, or leaves the tombstone alone when no row is left |
| `RetentionCell.RetentionCell.DeletePayload` | src/worker/durable-objects/WorkflowRunDO.ts:1295-1331 | run to its end it leaves no row, and its final count is the number of rows deleted |
| `RetentionCell.RetentionCell.RecordCleanupFailure` | src/worker/durable-objects/WorkflowRunDO.ts:1333-1355 | a failure is recorded only against the record that was read |
| `CleanupSweep.StepKeepsMeasure` | src/worker/durable-objects/WorkflowRunDO.ts:1188-1355 | no step of a writer, of another pass or of a failure raises the measure (phase, registry open, registered streams or remaining rows, unfenced streams, rows behind fences) |
| `CleanupSweep.PageLowersMeasure` | src/worker/durable-objects/WorkflowRunDO.ts:1188-1331 | every page that commits strictly lowers it, whatever happened between its calls |
| `CleanupSweep.PageAvailable` | src/worker/durable-objects/WorkflowRunDO.ts:970-998 | as long as a due record is stored a page can run to a successful end |
| `CleanupSweep.CleanupTerminates` | src/worker/durable-objects/WorkflowRunDO.ts:970-998 | successful pages cannot follow each other for ever |
| `CleanupSweep.CleanupEndsClean` | src/worker/durable-objects/WorkflowRunDO.ts:1224-1260 | when cleanup has ended the tombstone is the only row, the registry is closed and empty, and every stream ever registered is fenced and without rows |
| `CleanupSweep.RegistersUntilClosed` | src/worker/durable-objects/StreamDO.ts:676-688 | an open registry takes a new name with an empty stream, a closed one takes none |
| `CleanupSweep.ExpiryLands` | src/worker/durable-objects/StreamDO.ts:725-745 | a page of expiry fences its stream and takes its rows; finished names leave the registry and no others |
| `CleanupSweep.Closes` | src/worker/durable-objects/StreamDO.ts:699-723 | the first page of the streams phase closes the registry, and so does any other pass's |
| `CleanupSweep.AppendsUntilFenced` | src/worker/durable-objects/StreamDO.ts:549-608 | a stream takes rows until it is fenced, and none afterwards |
| `RunCatalog.NoResurrection` | src/worker/durable-objects/RunCatalogDO.ts:73-218 | once a recorded run is expired, no publication whose lease was issued by then is ever stored again, before or after its fence is compacted |
| `RunCatalog.BehaviourKeepsInv` | src/worker/durable-objects/RunCatalogDO.ts:157-218 | a fenced run has no entries recorded, every fence has its compaction row, and an alarm is armed for every row |
| `RunCatalog.ExpiryFencesExactlyRecordedRuns` | src/worker/durable-objects/RunCatalogDO.ts:157-173 | an expiry keeps a fresh publication out exactly when the run was recorded or already fenced |
| `RunCatalog.PublicationStores` | src/worker/durable-objects/RunCatalogDO.ts:73-115 | a publication under a live lease, unfenced, stores exactly its metadata under both keys and the pair as the run's record; nothing else moves, and any other stores nothing |
| `RunCatalog.RecordedIsListed` | src/worker/durable-objects/RunCatalogDO.ts:73-173 | over every run of a shard, a recorded run is stored under its workflow, and under the global order exactly unless a reader took that entry as stale since its last publication |
| `RunCatalog.ExpiryRemoves` | src/worker/durable-objects/RunCatalogDO.ts:157-173 | the expiry of a recorded run takes both entries and the record, leaves fence, compaction row and alarm, and touches no other run's |
| `RunCatalog.CompactionLifts` | src/worker/durable-objects/RunCatalogDO.ts:190-218 | a page of due rows takes exactly the fences whose own row it holds |
| `RunCatalog.StaleEntryGoes` | src/worker/durable-objects/RunCatalogDO.ts:143-155 | a stale entry goes exactly if it still holds what was expected |
| `RunCatalog.FenceLifts` | src/worker/durable-objects/RunCatalogDO.ts:73-218 | once its fence is compacted a run that is published under a live lease is stored again |
| `RunCatalog.Catalog.UpsertRun` | src/worker/durable-objects/RunCatalogDO.ts:73-115 | stores exactly what the specification stores, both keys included, and says whether it did |
| `RunCatalog.Catalog.ExpireRun` | src/worker/durable-objects/RunCatalogDO.ts:157-173 | fence, compaction row, alarm and entries change as specified; the count is that of the entries that went |
| `RunCatalog.Catalog.DeleteStaleGlobalRun` | src/worker/durable-objects/RunCatalogDO.ts:143-155 | compare-and-delete of one entry |
| `RunCatalog.Catalog.CompactExpiryFences` | src/worker/durable-objects/RunCatalogDO.ts:190-218 | removes a page of due fences and arms for the next |
| `KeyOrder.CompareBytes` | src/indexes.ts:268-275 | the sign of the result is the lexicographic order |
| `KeyOrder.FirstsUnique` | src/indexes.ts:411-421 | the first keys of a set in order are determined, so listings that meet the same contract are equal |
| `RunListing.ListShard` | src/worker/durable-objects/RunCatalogDO.ts:117-140 | a shard's page is the first keys in its bounds, and complete exactly when none remain |
| `RunListing.ListRuns` | src/indexes.ts:396-429 | the merged page is the first keys of the union in byte order, forward or reversed, complete exactly when nothing remains |
| `RunListing.FollowCursors` | src/indexes.ts:396-429 | following cursors enumerates the union once, in order, without gaps |
| `RunListing.BoundsAreWantedExactly` | src/worker/durable-objects/RunCatalogDO.ts:125-132 | whatever the shards hold, a listing leaves out nothing that was asked for, and is exactly that if and only if no reversed cursor lies past the end |
| `RunListing.CursorReplacesEnd` | src/worker/durable-objects/RunCatalogDO.ts:125-132 | a concrete reversed listing that holds a key past its end |
| `RunListing.UnboundedIsByPrefix` | src/worker/durable-objects/RunCatalogDO.ts:117-140 | a listing without bounds holds exactly the keys that begin with its prefix, or with `run` when it has none |
| `RunList.ExcludesExactly` | src/run-list.ts:39-49 | the metadata filter drops a requested status exactly when no run can have moved to it |
| `RunList.Candidates` | src/run-list.ts:87-97 | the filter keeps order and drops no run that was asked for |
| `RunList.ListRunsPage` | src/run-list.ts:61-129 | over stale metadata the page is the first `limit` runs whose authoritative status passes, `hasMore` exactly when another exists, with their statuses; the scan ends |
| `RunList.FollowPages` | src/run-list.ts:61-129 | following cursors yields every matching run once, in order |
| `QueueClaims.ClaimIsExclusive` | src/worker/durable-objects/WorkflowRunDO.ts:1859-1893 | until a delivery's claim expires, no other message is delivered unless the holder yields, whatever is dropped or attempted |
| `QueueClaims.ReservationIsExclusive` | src/worker/durable-objects/WorkflowRunDO.ts:1749-1790 | while an unexpired reservation stands, every other message is refused and told the holder |
| `QueueClaims.ClaimedIsExclusive` | src/worker/durable-objects/WorkflowRunDO.ts:1859-1893 | from the answer on: after a delivery was answered as claimed, no step within its lease is answered so unless the holder yields |
| `QueueClaims.AdmittedIsExclusive` | src/worker/durable-objects/WorkflowRunDO.ts:1749-1790 | from the answer on: after a message was admitted, every other message is refused and told of it until its reservation expires, unless it gives the reservation up |
| `QueueClaims.LapseShowsExactly` | src/worker/durable-objects/WorkflowRunDO.ts:914-936 | whether expired entries are kept or dropped shows exactly when an operation revives one of its own message |
| `QueueClaims.StoresAgreeUntilRevival` | src/worker/durable-objects/WorkflowRunDO.ts:1403-1644 | two stores with the same unexpired entries answer alike at every step of any run, however they drop what expired, as long as no step revives an entry |
| `QueueClaims.KeptClaimIsRevived` | src/worker/durable-objects/WorkflowRunDO.ts:1549-1590 | a concrete run on which the two stores answer differently |
| `QueueClaims.CompletionPassesOn` | src/worker/durable-objects/WorkflowRunDO.ts:1818-1841 | over every run of either store: once a message completed the next one is admitted and its delivery claimed, provided no third message holds an entry |
| `QueueClaims.CompleteLetsGo` | src/worker/durable-objects/WorkflowRunDO.ts:1818-1841 | a completed message has neither entry left, and entries of others are as they were |
| `QueueClaims.ReleaseAndAbandonLetGo` | src/worker/durable-objects/WorkflowRunDO.ts:1844-1941 | a released message has no claim and an abandoned one no reservation left |
| `QueueClaims.AdmittedExactly` | src/worker/durable-objects/WorkflowRunDO.ts:1749-1790 | when a message is admitted, what is then stored, and whom a refusal names |
| `QueueClaims.ClaimedExactly` | src/worker/durable-objects/WorkflowRunDO.ts:1859-1893 | when a delivery is claimed, for how long, and what a refused one is told |
| `QueueClaims.HeldExactly` | src/worker/durable-objects/WorkflowRunDO.ts:1895-1929 | a hold suspends exactly its own claim, and no entry expires earlier than before |
| `QueueClaims.ConfirmedExactly` | src/worker/durable-objects/WorkflowRunDO.ts:1792-1816 | a confirmation takes the pending mark off its own reservation and never shortens it |
| `QueueClaims.ExpiryPassesOn` | src/worker/durable-objects/WorkflowRunDO.ts:1749-1893 | an expired entry refuses nobody |
| `QueueClaims.SuspensionEnds` | src/worker/durable-objects/WorkflowRunDO.ts:1859-1929 | a suspended message is refused until its retry time, told that time, and claimed from then on |
| `QueueStores.ClaimCell.ReserveQueueMessage` | src/worker/durable-objects/WorkflowRunDO.ts:1749-1790 | rows and answer are the specification's; an alarm stays armed no later than the first expiry |
| `QueueStores.ClaimCell.ConfirmQueueMessagePublication` | src/worker/durable-objects/WorkflowRunDO.ts:1792-1816 | likewise |
| `QueueStores.ClaimCell.CompleteQueueMessage` | src/worker/durable-objects/WorkflowRunDO.ts:1818-1841 | likewise |
| `QueueStores.ClaimCell.AbandonQueueMessageReservation` | src/worker/durable-objects/WorkflowRunDO.ts:1844-1857 | likewise |
| `QueueStores.ClaimCell.ClaimInflight` | src/worker/durable-objects/WorkflowRunDO.ts:1859-1893 | likewise |
| `QueueStores.ClaimCell.HoldInflight` | src/worker/durable-objects/WorkflowRunDO.ts:1895-1929 | likewise |
| `QueueStores.ClaimCell.ReleaseInflight` | src/worker/durable-objects/WorkflowRunDO.ts:1931-1941 | likewise |
| `QueueStores.ClaimCell.Alarm` | src/worker/durable-objects/WorkflowRunDO.ts:914-936 | drops exactly the expired rows and arms for the rest |
| `QueueStores.RunClaims.ReserveRunQueueMessage` | src/worker/durable-objects/WorkflowRunDO.ts:1403-1460 | behind the expiry fence or outside the run's scope it changes nothing; otherwise entry and answer are the specification's and no other entry moves |
| `QueueStores.RunClaims.ConfirmRunQueueMessagePublication` | src/worker/durable-objects/WorkflowRunDO.ts:1462-1487 | likewise, adding no entry |
| `QueueStores.RunClaims.ClaimRunQueueMessage` | src/worker/durable-objects/WorkflowRunDO.ts:1490-1547 | likewise, behind the expiry fence |
| `QueueStores.RunClaims.HoldRunQueueMessage` | src/worker/durable-objects/WorkflowRunDO.ts:1549-1590 | likewise, adding no entry |
| `QueueStores.RunClaims.ReleaseRunQueueMessage` | src/worker/durable-objects/WorkflowRunDO.ts:1592-1604 | likewise, adding no entry |
| `QueueStores.RunClaims.CompleteRunQueueMessage` | src/worker/durable-objects/WorkflowRunDO.ts:1606-1622 | likewise, adding no entry |
| `QueueStores.RunClaims.AbandonRunQueueMessageReservation` | src/worker/durable-objects/WorkflowRunDO.ts:1625-1644 | likewise, adding no entry |

## Findings

Properties that the code does not have as stated. The model follows the code; each has a concrete input and the
exact condition under which the property holds.

| property | input that breaks it | when it holds |
|---|---|---|
| token coverage when the hook-ID shard refuses a retried reservation (src/indexes.ts:351-371) | `HookTheorems.RetriedReservationLosesToken` | `HookTheorems.AbandonSafeExactlyWhenUnused`; a client that gives back only a freshly proposed claim is safe: `HookAttempts.FreshClaimIsUnsent`, `HookAttempts.UnsentIsUnused` |
| a forced takeover is all or nothing (src/worker/durable-objects/WorkflowRunDO.ts:571-574) | `HookHalfDone.TakeoverEndsHalfDone`: an expired claimer answers without reading its log | `HookTheorems.TakeoverIsAllOrNothing`: exactly unless the claimer had expired with the forced creation in its log |
| one record per delivery (src/apply-event.ts:707-742) | `RunLog.EmptyResumeRecordsAgain`: an empty resume id leaves no marker | `RunLog.NoEventTwice`, `RunLog.ResumeIsIdempotent`: whenever the resume id is not empty; an empty correlation id of an attribute event is treated alike |
| the two queue-claim stores answer alike (src/worker/durable-objects/WorkflowRunDO.ts:914-936) | `QueueClaims.KeptClaimIsRevived`: a hold after its own claim expired | `QueueClaims.LapseShowsExactly`, `QueueClaims.StoresAgreeUntilRevival`: until an operation revives an expired entry |
| a listing stays below its end (src/worker/durable-objects/RunCatalogDO.ts:125-132) | `RunListing.CursorReplacesEnd`: reversed, a cursor takes the place of the end | `RunListing.BoundsAreWantedExactly`: exactly unless a reversed cursor lies past the end; an iteration that starts without a cursor is never affected |
| an expired run stays out of the catalog (src/worker/durable-objects/RunCatalogDO.ts:157-173) | any expiry of a run without a recorded key pair installs no fence | `RunCatalog.ExpiryFencesExactlyRecordedRuns`, `RunCatalog.NoResurrection`: when the pair was recorded |
| read results round-trip (src/stream-protocol.ts:238-339) | a payload between 8 MiB and what the frame allows, or an empty error | `StreamCodec.ReadRoundTrip` |
| write acknowledgements round-trip (src/stream-protocol.ts:194-236) | offsets that disagree with the count; the encoder does not look | `StreamCodec.AckRoundTrip` |

Two smaller ones. A run listing with limit 0 answers `hasMore` without a cursor, as `RunList.ListRunsPage` states.
`step_completed` and `step_retrying` skip the run, so an ended run accepts them also for a step that is not running,
unlike the comment at src/apply-event.ts:540-544.

## Left out

- The hook-ID shard's own records, claims and alarm (src/worker/durable-objects/HookIdDO.ts): it appears as replayed creations, refused reservations and the fences of its expired claims; lookups by hook id are not modelled.
- HTTP routing, authentication, request parsing, body limits, retries and backoff: messages that are lost, late or repeated stand for them.
- Schema validation, tagged JSON, key encoding and payload contents: requests are well-formed values and keys are injective.
- Creation-time indexes and `listByCreationTime`: ordered views of the tables without further state.
- Long-poll waiters, abort signals and timers of a stream read: a pull that finds nothing simply returns nothing.
- `RunCell.RunCell.Transact`: token retention marks, terminal-cleanup scheduling and index publication times written beside an accepted event are not part of its state; `RunRetention` has the retention record.
- The run cell's own alarm and the order in which one alarm serves retention and terminal cleanup: cleanup passes may start at any time.
- `lastError`, timestamps of attempts and the stream deletion count in the cleanup record: only the generation, the attempts and the counts of deleted rows are kept.
- `CleanupSweep.PageLowersMeasure`: assumes that registered streams are unowned or owned by this run, so that expiring them does not throw; a stream is its remaining row count and its fence.
- `RunList.ListRunsPage`: index and run cells stand still during one listing; reads within a batch are sequential.
- `RunListing.ListRuns`: the shards stand still during one listing; entry values are looked up by key.
- `Streamer.WriteChunksToStream`: the advertised chunk limit changes only through this writer's own responses, which is what ends the loop.
- `HookTheorems.TokenCoverage`: runs exist before they create hooks, a hook has at most one creation attempt in flight, so that giving a claim back takes it from every attempt of its owner, and a client gives back only a claim under which nothing was sent; `HookTheorems.RetriedReservationLosesToken` shows what happens otherwise.
- Token retention past a run's end, beyond its part as a reason for a record to survive.
- Configuration, deployment routing, the queue pump, payload objects and their orphans, and the example application.
