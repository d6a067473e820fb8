# A verified model of the multiplayer server's core

The repository is a rhythm-game multiplayer server with a companion process, the Agent. This
project models four of its components in Dafny and proves what they promise over every input,
every run and every failure of the file system.

**The event pipeline.** The server appends sequenced envelopes to a checksummed log (outbox) and serves the
unacknowledged tail. The Agent writes each envelope durably into its own log (inbox), runs processors with
durable cursors (statistics, webhooks), and only then acknowledges; the server then moves its checkpoint and
compacts its log. `RecordLog` is the record format and recovery shared by all logs; `Outbox`, `Inbox`,
`Stats`, `Ledger` and `Webhook` are the parts, each with its store or processor as a class; `OutboxSafety`,
`InboxSafety` and `WebhookSafety` prove what each part keeps, and `OutboxRuns` shows where the outbox's
promises end; `OutboxAnswers` and `InboxAnswers` say which requests the two stores grant. `Pipeline`
composes them into one state machine with crashes and restarts of either side and lost, late and repeated
requests, and `PipelineSafety` proves end-to-end safety of its runs, `PipelineProgress` that every run can
go on to an acknowledged history, and `PipelineLimits` exactly when. `Poll` is one round of the Agent's loop
over the classes themselves, `Ipc` the server's single-consumer lease.

**Rooms.** `Rooms` gives every command and timer callback as a function of the room, `LiveRoom` is the
mutable room proved to compute them, `RoomSafety` proves what every step and run keeps, `RoomAnswers` what
each is answered and leaves behind; `Hub`, `HubSafety` and `HubAnswers` do the same for the table of rooms
and the users' pointers into it; `Disbanding` says when disbanding a room meets its own settlement;
`HostRotation` proves that handing the host on is fair.

**The wire.** `Wire`, `HalfFloat`, `Commands`, `Framing`, `StreamReader`, `BinaryIO`: primitives, binary16
coordinates, the three tagged unions, length-prefixed frames (in a fresh buffer and in place), the reading
loop over arbitrary chunks; `Decoding` says what the decoders refuse, `Connection` joins them end to end.

**The connection limiter.** `ConnLimiter`: who is admitted, its exact admission bound and invisible clean-up.

Source that works by assignment is a class or a loop proved equal to a function of the old state; the
properties are lemmas about those functions. Main theorems first: `PipelineSafety.NothingLost`,
`PipelineSafety.CountedOnce`, `PipelineSafety.NotifiedOnce`, `PipelineLimits.AcknowledgeableExactly`,
`OutboxSafety.AckCrashAtomic`, `HubSafety.MonitorFreeRun`, `RoomSafety.RoundKept`,
`RoomAnswers.PlayedExactly`, `Ipc.WindowExactly`, `StreamReader.ChunkingIrrelevant`,
`Commands.ClientRoundTrip`, `HalfFloat.NearestEven`, `ConnLimiter.AdmissionBound`.

## Assumptions

- JSON is an encoding that decodes to what was encoded and is never empty; the checksum is any
  32-bit function (`RecordLog.Lawful`). Nothing is assumed about collisions, except where
  `WebhookSafety.MarkSurvivesExactly` says so.
- A crash keeps all synced bytes and any prefix of the bytes written after them. Replacing a file is
  atomic; a failed replacement may or may not have happened.
- Event IDs are never reused and contain no NUL character; each mark they make fits a record.
- One Agent, with a fixed configuration and both processors present.
- Commands and timer callbacks of rooms are single steps, the serialisation that
  `internal/core/server/hub.go:13-17` describes. A room admits at least one player.
- Every outcome of the file system, the network, the clock and webhook targets is an argument.

## Findings

Where a promise or a comment does not hold of the code, the code is modelled as it is, the failure is
shown by a lemma with its input, and the condition under which the promise does hold is proved.

- A fresh Agent that meets a server with acknowledged events stalls until it is restarted, because its
  processors are opened before the baseline is known (`PipelineSafety.FreshAgentStalls`). Safety is not affected.
- A match event whose payload does not decode, an event that does not convert, and an inbox that is full, which
  is never compacted, stop acknowledgement for good: the history can be acknowledged to its end if and only if
  there is none of them (`PipelineLimits.AcknowledgeableExactly`).
- A webhook mark that is accepted and synced behind a torn one is gone after a restart, so its target
  is notified again (`WebhookSafety.NotifiedTwice`): `Mark` does not stop after a failed write, as the two
  stores do. A rewrite of the file before the crash heals it (`WebhookSafety.MarkSurvivesExactly`, `RewriteHeals`).
- When compaction replaces the log and then fails, the outbox goes on counting the old size. A critical
  event can then be refused although the log is empty (`OutboxSafety.StaleCounterRefuses`). The reserve is
  there in every run without such a failure, and exactly while what is counted beyond the critical records
  is within three quarters.
- The checkpoint file may name a later sequence than the running outbox has acknowledged, after an
  acknowledgement whose checkpoint write failed late. It is set back by an acknowledgement of a sequence
  in between (`OutboxSafety.CheckpointGoesBack`), and a crash in that one makes the outbox reopen at the
  later sequence, neither the pair before nor the pair after (`OutboxSafety.ThirdPair`). The acknowledged
  sequence that the server shows never goes back.
- `acked <= lastDelivered` can fail when handlers interleave between their locks. What is acknowledged
  was still always delivered before. `Ipc.WindowExactly` says for which orders it holds.
- The countdown's forced start leaves a round that nobody can finish exactly when no present player
  is ready (`RoomSafety.ForcedStartWedges`); the host asking to start and leaving is enough (`WedgeReached`).
- A host who leaves a room that otherwise holds only monitors drops it while they still point at it.
  When the last of them leaves, another room that has taken the same ID meanwhile disappears from the
  table (`HubSafety.NamesakeRun`). Table and users agree after a leave exactly when it is not such a one
  (`HubSafety.ExitExactly`).
- The comment at `internal/core/server/room_lifecycle.go:210` says that "drop" and "disband" exclude each
  other. Both are true if and only if the leave takes the last member, not the host, out of a running
  auto-disband contest (`HubSafety.BothExactly`); never for a listed room, but for an abandoned one.
- The comment at `internal/core/server/hub_room_ops.go:219` says that a room being disbanded is
  always choosing a chart, so that no leave asks for it again. An administrator's disbanding also meets
  running rounds (`HubSafety.DisbandMeetsRound`). Some leave then asks if and only if an auto-disband
  contest is running and the last to leave is not a player the round still waits for
  (`Disbanding.DisbandAsksExactly`); a room that is not playing, or not such a contest, never does.
  The answer is ignored, and membership stays in order.
- A user who was a monitor, left, and opens a room keeps the monitor role and cannot leave it as a player:
  the room keeps them as host and only player (`HubSafety.PhantomRun`). Opening a room keeps table and users
  in agreement exactly when the user has not kept that role (`HubSafety.CreateKeeps`).
- The limiter's bound is twice the limit less one, and it is reached for every limit (with a window of a
  single time unit it is the limit): `ConnLimiter.AdmissionBound`, `BoundReached`, `UnitWindowBound`.
- A frame whose body is 4 GiB or longer carries a wrapped length and does not decode to its body (`Framing.FrameRoundTrip`).

## Model

| member | source | states |
|---|---|---|
| `RecordLog.ParseRecord` | internal/agent/outbox/store.go:224-237 | a record followed by anything reads as exactly its own body and size |
| `RecordLog.ParsePartial` | internal/agent/outbox/store.go:247-290 | no strict prefix of a record ever reads as a record |
| `RecordLog.RecoveryExact` | internal/agent/outbox/store.go:239-321 | any admitted records followed by any unreadable tail come back exactly, and exactly their bytes are kept |
| `RecordLog.RecoveryAfterTornAppend` | internal/agent/inbox/store.go:202-251 | after a crash inside an append, recovery returns exactly the list before it and truncates to its byte length |
| `RecordLog.RecoveryIdempotent` | internal/agent/outbox/store.go:323-328 | recovering a recovered file changes nothing, whatever bytes it held |
| `RecordLog.CutPoint` | internal/agent/webhook_processor/ledger.go:133-167 | any cut of a file of whole records is some of the records and a strict prefix of the next |
| `RecordLog.ReadRecords` | internal/agent/inbox/store.go:208-250 | the recovery loop over an offset computes the records and the kept length that the recursive scan defines |
| `RecordLog.ReadSome` | internal/agent/inbox/store.go:116-146 | the bounded read loop returns the first wanted records, and an error exactly when a record does not read before the limit is met |
| `RecordLog.SelectWhole` | internal/agent/inbox/store.go:102-146 | on a file of whole records, reading back gives exactly the wanted ones in order, cut at the limit |
| `Outbox.OpenStore` | internal/agent/outbox/store.go:75-108 | refuses a capacity below one record, otherwise checkpoint and recovered log together determine the whole store |
| `Outbox.Store.RecoverLog` | internal/agent/outbox/store.go:239-328 | memory and truncated file are those of the recovery function |
| `Outbox.ReadLog` | internal/agent/outbox/store.go:247-316 | the loop finds the pending events, the latest sequence and the offset of the first unreadable record |
| `Outbox.Store.AppendEvent` | internal/agent/outbox/store.go:110-156 | whole new state of an append under every outcome: refused, too large, full by priority, short write, failed sync, success; `OutboxAnswers` says which of them it is |
| `Outbox.Store.AckUpTo` | internal/agent/outbox/store.go:172-197 | whole new state of an acknowledgement when the checkpoint or the compaction fails before or after taking effect |
| `Outbox.Encode` | internal/agent/outbox/store.go:354-413 | compaction writes exactly the records of the pending events |
| `Outbox.FindIndex` | internal/agent/outbox/store.go:181-190 | finds the first pending event with the sequence, or reports that there is none |
| `Outbox.Store.EventsAfter` | internal/agent/outbox/store.go:158-170 | serves the head of the tail only to a caller that names the acknowledged sequence |
| `OutboxAnswers.OpenAnyFile` | internal/agent/outbox/store.go:239-321 | whatever bytes the log holds, the store opens at its checkpoint with a gapless, identified tail behind it, and the rest of the file is cut off |
| `OutboxAnswers.AppendRefused` | internal/agent/outbox/store.go:110-130 | refused exactly when closed or failed, too large exactly when an open store is given more than a record holds; both change nothing |
| `OutboxAnswers.AppendFull` | internal/agent/outbox/store.go:131-140 | otherwise full exactly when counted bytes and record exceed max - max/4 for a normal event and max for a critical one; then nothing changes but the count of dropped events, which grows exactly for normal ones |
| `OutboxAnswers.AppendStores` | internal/agent/outbox/store.go:141-156 | otherwise, when the file system does its part, the event is stored as latest + 1, pending, at the end of the log |
| `OutboxAnswers.RunStores` | internal/agent/outbox/store.go:131-156 | in every run without a compaction that failed after replacing the file, an event is stored exactly when log and record are within three quarters, or all, of the capacity |
| `OutboxAnswers.AckRepeated` | internal/agent/outbox/store.go:172-180 | what was acknowledged is acknowledged again without effect, what does not exist is refused without effect |
| `OutboxAnswers.AckTakes` | internal/agent/outbox/store.go:181-197 | a pending sequence is acknowledged exactly when nothing fails; memory, checkpoint and log then stand at it |
| `OutboxAnswers.EventsServed` | internal/agent/outbox/store.go:158-170 | who names the acknowledged sequence gets that much of the history behind it, anybody else the two sequences |
| `OutboxSafety.Meaning` | internal/agent/outbox/store.go:60-73 | what the store's invariant says to a caller: pending is acked+1..latest; while not failed the file is whole records covered by the counted bytes, which never exceed the maximum; normal records never take more than three quarters |
| `OutboxSafety.RunInv` | internal/agent/outbox/store.go:75-197 | every state of every run from an empty directory, with every fault, crash and restart, satisfies that invariant |
| `OutboxSafety.RunMeaning` | internal/agent/outbox/store.go:75-197 | hence in every state of every run pending is acked+1..latest of what was appended, the log is whole records within the counted bytes, and normal records leave a quarter free |
| `OutboxSafety.AppendKeeps` | internal/agent/outbox/store.go:110-156 | appending keeps all of that under every write fault |
| `OutboxSafety.AckKeeps` | internal/agent/outbox/store.go:172-197 | so does acknowledging under every fault, and a pending sequence leaves exactly the history behind it |
| `OutboxSafety.CompactKeeps` | internal/agent/outbox/store.go:354-413 | replacing the log by the records after the sequence keeps files and history in agreement and never grows the file |
| `OutboxSafety.RestartKeeps` | internal/agent/outbox/store.go:239-321 | a crash and a reopening bring back exactly the history after the checkpoint, and an event being appended exactly when all of it survived |
| `OutboxSafety.AckCrashAtomic` | internal/agent/outbox/store.go:172-197 | a crash anywhere in an acknowledgement, also of a store whose last append failed, then opening, gives the running (acked, pending) pair from before it or the pair after it, if and only if the checkpoint was replaced by then or the file stood at one of the two before |
| `OutboxSafety.AckCrash` | internal/agent/outbox/store.go:172-197 | in any case the reopened store is at the checkpoint from before or at the new one, with exactly the history behind it |
| `OutboxSafety.RunAckAtomic` | internal/agent/outbox/store.go:172-197 | in every run without an acknowledgement whose checkpoint failed after taking effect, it is the pair before or the pair after |
| `OutboxSafety.ThirdPair` | internal/agent/outbox/store.go:191-196 | after such an acknowledgement a crash in the next one gives a third pair |
| `OutboxSafety.CheckpointSetBack` | internal/agent/outbox/store.go:172-197 | the checkpoint file goes back exactly when an acknowledgement lies between the acknowledged sequence and the file's, and is written |
| `OutboxSafety.CheckpointGoesBack` | internal/agent/outbox/store.go:191-196 | it happens: a later sequence reaches the file by a failed acknowledgement, an earlier one is acknowledged after it |
| `OutboxRuns.CheckpointBackRun` | internal/agent/outbox/store.go:172-197 | a run from an empty directory in which the checkpoint file goes from 2 to 1 |
| `OutboxRuns.ThirdPairRun` | internal/agent/outbox/store.go:172-197 | a run from an empty directory in which the outbox shows 0, crashes while acknowledging 1, and reopens at 2 |
| `OutboxSafety.CriticalReserve` | internal/agent/outbox/store.go:131-140 | while the counted bytes are the size of the log, a critical event is refused for space only when critical records alone would outgrow the reserved quarter |
| `OutboxSafety.ReserveExactly` | internal/agent/outbox/store.go:131-140 | the reserve is there for every record size exactly when the counted bytes beyond the critical records are within three quarters |
| `OutboxSafety.RunReserve` | internal/agent/outbox/store.go:131-140 | in every run without a compaction that failed after replacing the file, the reserve is there |
| `OutboxSafety.RunCounts` | internal/agent/outbox/store.go:354-413 | because in every such run the counted bytes of a store that accepts events are the size of its log |
| `OutboxSafety.StaleCounterRefuses` | internal/agent/outbox/store.go:403-412 | after such a compaction a critical event within the reserve is refused although the log is empty |
| `OutboxRuns.StaleCounterRun` | internal/agent/outbox/store.go:403-412 | a run from an empty directory to such a refusal |
| `Inbox.OpenStore` | internal/agent/inbox/store.go:44-73 | opening gives the store that baseline and recovered log determine |
| `Inbox.Store.Recover` | internal/agent/inbox/store.go:202-251 | last sequence, identities, byte count and truncated file are those of the recovery function |
| `Inbox.Store.AcceptEvent` | internal/agent/inbox/store.go:157-187 | one envelope: replayed with its identity checked, gap, too large, full, failed write, or durable; `InboxAnswers` says which of them it is |
| `Inbox.Store.AcceptBatch` | internal/agent/inbox/store.go:150-189 | a batch stops at the first refusal with the earlier envelopes kept, and reports the last durable sequence |
| `Inbox.Store.InitBaseline` | internal/agent/inbox/store.go:77-93 | the baseline moves only forward and only in an empty inbox, under every write outcome |
| `Inbox.Store.Read` | internal/agent/inbox/store.go:102-146 | reads behind a cursor within [baseline, last], and is an error outside it |
| `InboxAnswers.OpenAnyFile` | internal/agent/inbox/store.go:202-251 | whatever bytes the log holds, the inbox opens with an identity for exactly the sequences from baseline to last, and the rest of the file is cut off |
| `InboxAnswers.ReplayAnswered` | internal/agent/inbox/store.go:157-162 | a sequence the inbox has is accepted again under the ID of the history and refused under any other, without effect |
| `InboxAnswers.ForgottenAnswered` | internal/agent/inbox/store.go:157-162 | a sequence from before the baseline is refused without effect, unless the envelope has no ID |
| `InboxAnswers.GapAnswered` | internal/agent/inbox/store.go:163-165 | a sequence beyond the next one is refused without effect |
| `InboxAnswers.NextAnswered` | internal/agent/inbox/store.go:166-187 | the next one is too large, full or accepted exactly by its size, the counted bytes and the write; refused without effect, accepted at the end of the log |
| `InboxAnswers.FailedAnswered` | internal/agent/inbox/store.go:150-156 | an inbox that has failed refuses every batch without effect |
| `InboxAnswers.BatchAccepted` | internal/agent/inbox/store.go:150-189 | a stretch of the history that continues the inbox and fits it is accepted to its end when no write fails |
| `InboxAnswers.BaselineAnswered` | internal/agent/inbox/store.go:77-93 | a known sequence is no baseline to take over, an inbox with records refuses, an empty one moves |
| `InboxSafety.AcceptOneKeeps` | internal/agent/inbox/store.go:150-189 | an event of a batch from the history is taken or refused for space or I/O only, never for a gap, a changed identity or its size, and the log stays the slice baseline+1..last |
| `InboxSafety.RestartKeeps` | internal/agent/inbox/store.go:202-251 | recovery keeps every durable event, and the one being written exactly when all of it survived |
| `InboxSafety.ReadAfterExact` | internal/agent/inbox/store.go:102-146 | reading behind a cursor gives exactly the next events of the server's history |
| `Stats.Processor.HandleEvent` | internal/agent/stats_processor/processor.go:53-80 | transaction, cursor file, cursor, in that order, under every failure |
| `Stats.Processor.Process` | internal/agent/stats_processor/processor.go:45-83 | a call handles the events it read in order and stops at the first error |
| `Stats.HandleAnswers` | internal/agent/stats_processor/processor.go:53-80 | an event is handled exactly when it is no match or decodes and commits, and the cursor is written; a new match then stands in the database |
| `Poll.OpensExactly` | internal/agent/stats_processor/processor.go:29-43 | a processor opens exactly where the inbox lets it read |
| `Stats.RecordFolds` | internal/agent/stats_store/store.go:77-98 | claiming the event ID in the same transaction makes an event count when the fold stops before it and not when the fold includes it |
| `Stats.HandleKeeps` | internal/agent/stats_processor/processor.go:45-83 | whatever fails, the database stays the ordered fold up to the durable cursor or one event beyond |
| `Ledger.KeyInjective` | internal/agent/webhook_processor/ledger.go:86-99 | keys of different (event, target) pairs differ when IDs hold no NUL |
| `Ledger.PrefixSelectsEvent` | internal/agent/webhook_processor/ledger.go:67-82 | deleting by prefix hits exactly the marks of that event |
| `Ledger.Store.Recover` | internal/agent/webhook_processor/ledger.go:133-167 | entries and truncated file are those of the recovery function |
| `Ledger.Store.MarkDone` | internal/agent/webhook_processor/ledger.go:93-120 | a mark enters memory only after a complete write and sync; a failed write leaves its bytes in the file and the ledger in use |
| `Ledger.Store.CompleteEvent` | internal/agent/webhook_processor/ledger.go:67-82 | forgets the event's marks and rewrites the file when there were any, whatever the rewrite does |
| `Ledger.Rewrite` | internal/agent/webhook_processor/ledger.go:176-230 | writes every entry once, in whatever order the map yields them |
| `Ledger.CompleteAnswers` | internal/agent/webhook_processor/ledger.go:67-82 | completing an event forgets its marks and no others, and a rewritten file opens to what is left |
| `Ledger.RewriteExact` | internal/agent/webhook_processor/ledger.go:176-230 | a file rewritten in any order loads as exactly the same entries |
| `Ledger.OpenExact` | internal/agent/webhook_processor/ledger.go:133-167 | a file of sound marks and an unreadable tail loads as exactly those marks |
| `Ledger.MarksBehindTornWriteAreLost` | internal/agent/webhook_processor/ledger.go:93-120 | behind a write that broke off after its header, bytes are swallowed until the missing length is made up |
| `Ledger.RepeatedMarkUnread` | internal/agent/webhook_processor/ledger.go:93-120 | a short mark written again behind its own first one to three bytes does not read as a record, whatever the checksum |
| `Webhook.Processor.DeliverOne` | internal/agent/webhook_processor/processor.go:69-82 | skipped when done, retried later when retryable, otherwise marked with the outcome |
| `Webhook.DeliverAnswers` | internal/agent/webhook_processor/processor.go:66-83 | a target is done afterwards exactly when it was before, or its outcome is final and its mark written and synced; no other mark changes |
| `Webhook.Processor.DeliverAll` | internal/agent/webhook_processor/processor.go:66-83 | the target loop is a run of delivery steps, and its success means that every planned target is done |
| `Webhook.Processor.HandleEvent` | internal/agent/webhook_processor/processor.go:61-96 | convert, deliver, pass: a run of enabled steps that moves on exactly on success; it fails only for a broken conversion, a target not done before that is to be retried or cannot be marked, or a cursor that is not written; an ignored event is passed by the cursor step alone |
| `Webhook.Processor.Process` | internal/agent/webhook_processor/processor.go:53-98 | a whole call is a run of enabled steps over the events it read; it succeeds exactly when all of them were handled, the cursor then stands at the last one, and otherwise something named keeps the next one |
| `WebhookSafety.DeliverKeeps` | internal/agent/webhook_processor/processor.go:66-83 | delivering keeps: no mark in memory that a crash could lose, no delivery to a marked target |
| `WebhookSafety.PassKeeps` | internal/agent/webhook_processor/processor.go:88-95 | passing an event and forgetting its marks keeps every target behind the durable cursor marked |
| `WebhookSafety.RestartKeeps` | internal/agent/webhook_processor/ledger.go:133-167 | a crash and a reopening lose no durable mark and bring in none that was not settled |
| `WebhookSafety.OpenCut` | internal/agent/webhook_processor/ledger.go:133-174 | opening any crash image gives the durable marks and perhaps some unsynced ones, nothing else |
| `WebhookSafety.StepKeeps` | internal/agent/webhook_processor/processor.go:53-98 | every step keeps the invariant, and the durable cursor never goes back and advances by one |
| `WebhookSafety.RunKeeps` | internal/agent/webhook_processor/processor.go:53-98 | so does a whole call of Process, whatever happens in it |
| `WebhookSafety.DeliveredOnce` | internal/agent/webhook_processor/processor.go:53-98 | unless a crash fell between a mark behind a torn one and the next rewrite: behind the durable cursor every planned target is marked and had a final outcome; a marked target is never delivered to again |
| `WebhookSafety.OnlyTornWritesMatter` | internal/agent/webhook_processor/ledger.go:93-120 | a mark comes to stand behind a torn one only through a partly written mark |
| `WebhookSafety.RewriteHeals` | internal/agent/webhook_processor/ledger.go:176-230 | a rewrite of the file heals that, whatever stands in it |
| `WebhookSafety.MarkSurvivesExactly` | internal/agent/webhook_processor/ledger.go:93-120 | a synced mark is found by the next opening exactly when no torn write stood before it |
| `WebhookSafety.NotifiedTwice` | internal/agent/webhook_processor/processor.go:66-83 | the run that breaks it: torn mark, repeated delivery marked and synced behind it, restart, and the marked target is delivered to again |
| `PipelineSafety.StepKeeps` | cmd/agent/main.go:217-389 | every step of server, network and Agent, with every fault, keeps the global invariant |
| `PipelineSafety.RunInv` | cmd/agent/main.go:217-389 | hence every state of every run from a fresh Agent satisfies it |
| `PipelineSafety.NothingLost` | cmd/agent/main.go:318-372 | in every state of every run, each event between the Agent's start and what the server has acknowledged is in the inbox, durably, under its own ID, and behind every durable cursor |
| `PipelineSafety.CountedOnce` | internal/agent/stats_processor/processor.go:45-83 | in every state of every run the database is the ordered fold of the match events up to the durable cursor, or one event further |
| `PipelineSafety.NotifiedOnce` | internal/agent/webhook_processor/processor.go:53-98 | in every run in which no crash of the Agent falls between a mark behind a torn one and the next rewrite, no marked target is delivered to again, and every acknowledged event was delivered to all its targets |
| `PipelineSafety.StepMonotone` | internal/agent/outbox/store.go:110-197 | acknowledged and latest sequence never go back and the history only grows, through restarts too |
| `PipelineSafety.ServedStretch` | internal/agent/outbox/store.go:158-170 | a served batch is the stretch of the history right behind the acknowledged sequence |
| `PipelineSafety.AcceptInbox` | internal/agent/inbox/store.go:150-189 | under polling the inbox never meets a gap, a changed identity or an oversized event |
| `PipelineSafety.FinishKeeps` | cmd/agent/main.go:354-362 | an acknowledgement is sent only for a sequence behind every durable cursor |
| `PipelineSafety.ReopenTracking` | cmd/agent/main.go:101-124 | after any crash the Agent comes up again: no processor finds its cursor outside the inbox |
| `PipelineSafety.GreetKeeps` | cmd/agent/main.go:262-267 | taking over the baseline keeps the invariant, and an Agent that has one is never behind the server |
| `PipelineSafety.FreshAgentStalls` | cmd/agent/main.go:262-267 | a handshake stalls the Agent exactly when its inbox is behind the server, which is exactly when it is fresh |
| `PipelineSafety.StallLasts` | internal/agent/inbox/store.go:105-107 | a stalled Agent acknowledges nothing, whatever happens, until it is restarted |
| `PipelineSafety.RestartEndsStall` | cmd/agent/main.go:101-124 | a restart puts every processor at its durable cursor, not below the baseline |
| `PipelineProgress.RoundAcknowledges` | cmd/agent/main.go:318-389 | an Agent about to be served n events it has space for sends acked + n, and the server takes it, by steps in which nothing fails |
| `PipelineProgress.EverythingAcknowledged` | cmd/agent/main.go:318-389 | round by round a polling Agent gets the whole history acknowledged, if the processors can handle it and the inbox has space for it |
| `PipelineProgress.AwakeAcknowledges` | cmd/agent/main.go:217-286 | so does any settled Agent whose inbox works and whose processors are not below it, wherever it is, by connecting anew |
| `PipelineProgress.Recovers` | cmd/agent/main.go:101-124 | and any other state, fresh or stalled or failed, by restarts of the Agent alone |
| `PipelineProgress.EveryRunRecovers` | cmd/agent/main.go:217-389 | hence every run can go on to one in which all of the history is acknowledged |
| `PipelineLimits.InboxWithinCapacity` | internal/agent/inbox/store.go:166-187 | in every run the inbox's counted bytes and its file, an unfinished record included, are within the capacity |
| `PipelineLimits.AcknowledgeableExactly` | cmd/agent/main.go:217-389 | from the last state of any run the whole history can still be acknowledged, by restarts of the Agent and steps in which nothing fails, if and only if every match in it decodes, every event converts, and the inbox has space for it; if not, by no steps at all |
| `Poll.RunStats` | cmd/agent/main.go:343-353 | running the processor until it handles nothing terminates, keeps the fold, and ends at the inbox's last event unless the cursor is outside the inbox, a match does not decode or something fails |
| `Poll.RunWebhook` | cmd/agent/main.go:343-353 | running the processor until it handles nothing terminates, keeps the delivery invariant, and ends at the inbox's last event unless the cursor is outside the inbox, an event does not convert, a target is to be retried or something fails |
| `Poll.TakeIn` | internal/agent/inbox/store.go:150-189 | a batch that the inbox can take is taken |
| `Poll.ProcessBatch` | cmd/agent/main.go:343-362 | with the batch in the inbox its last sequence is handed out, unless a processor is kept from getting there |
| `Poll.PollRound` | cmd/agent/main.go:318-372 | over the real stores: a sequence is handed out for acknowledgement only when it is the batch's last, durable, and behind both durable cursors, and then always, unless the inbox has no space, a processor stands outside it, or something fails; otherwise all stays in order |
| `Poll.AcceptFromKeeps` | internal/agent/inbox/store.go:150-189 | a whole batch from the history keeps the inbox in order and, if accepted, reaches its last event |
| `Poll.HandleFromKeeps` | internal/agent/stats_processor/processor.go:45-83 | a whole call keeps the fold and moves the cursor by the number handled |
| `Ipc.Service.HandleHandshake` | internal/agent/ipc/server.go:242-267 | refused for a bad ID or while another consumer's lease runs; otherwise the lease passes and the window starts at the acknowledged sequence |
| `Ipc.Service.TouchConsumer` | internal/agent/ipc/server.go:346-357 | only the lease holder within the TTL is accepted, and that renews the lease |
| `Ipc.Service.HandleEvents` | internal/agent/ipc/server.go:269-308 | serves the tail and notes how far it went |
| `Ipc.Service.HandleAck` | internal/agent/ipc/server.go:310-344 | only delivered sequences reach the outbox; a refused request changes nothing there |
| `Ipc.NextAccepted` | internal/agent/ipc/server.go:242-357 | consecutive accepted requests come from one consumer or lie more than the TTL apart |
| `Ipc.Exclusive` | internal/agent/ipc/server.go:242-357 | between accepted requests of two different consumers there is always a silent gap longer than the TTL |
| `Ipc.AcceptedExactly` | internal/agent/ipc/server.go:242-357 | after an accepted request the next handshake with a proper ID is accepted exactly when it is the same consumer's or more than the TTL later, the next other request exactly when it is the same consumer's within the TTL |
| `Ipc.FirstAccepted` | internal/agent/ipc/server.go:242-267 | before that, exactly the handshakes with a proper ID |
| `Ipc.WindowKept` | internal/agent/ipc/server.go:242-344 | with handlers as single steps, acked <= lastDelivered <= latest from the handshake on |
| `Ipc.FetchedConfirms` | internal/agent/ipc/server.go:269-344 | what the lease holder fetched it can confirm: the last sequence of the batch is noted and then taken by the outbox |
| `Ipc.NeverAcksUndelivered` | internal/agent/ipc/server.go:269-344 | over every interleaving between the locks, nothing is acknowledged that was not delivered at some time |
| `Ipc.WindowExactly` | internal/agent/ipc/server.go:294-334 | over every interleaving, the window holds in every state of a run if and only if no batch is overtaken by an acknowledgement between its reading and its noting, and no acknowledgement is undercut by a handshake or a shorter batch between its check and its application |
| `Ipc.HandshakeMoves` | internal/agent/ipc/server.go:242-267 | an accepted handshake of the service is one move of the interleaved machine |
| `Ipc.FetchReads` | internal/agent/ipc/server.go:269-294 | so is the half of serving events that reads the outbox |
| `Ipc.FetchNotes` | internal/agent/ipc/server.go:299-305 | and the half that notes how far the batch went |
| `Ipc.ConfirmChecks` | internal/agent/ipc/server.go:310-333 | and the half of confirming that compares with what was delivered |
| `Ipc.ConfirmApplies` | internal/agent/ipc/server.go:334-341 | and the half that tells the outbox, whatever its files do |
| `Ipc.AppendPublishes` | internal/agent/outbox/store.go:110-156 | and an append; one that fails is none |
| `Ipc.LateNote` | internal/agent/ipc/server.go:294-305 | two overlapping fetches can leave the delivered sequence below the acknowledged one |
| `Ipc.HandshakeBetween` | internal/agent/ipc/server.go:327-334 | so can a handshake between the check and the application of an acknowledgement |
| `HostRotation.PickNextHost` | internal/core/server/hub_broadcast.go:11-23 | the loop over the sorted copy computes the pick |
| `HostRotation.PickIsSuccessor` | internal/core/server/hub_broadcast.go:11-23 | the pick is the one and only cyclic successor, missing exactly when there is nobody |
| `HostRotation.Fair` | internal/core/server/room_lifecycle.go:547-596 | n rotations among n members visit each exactly once and return to the start |
| `LiveRoom.Room.AddUser` | internal/core/server/room_lifecycle.go:47-65 | whole new membership, or refusal of a new player in a full room |
| `LiveRoom.Room.OnUserLeave` | internal/core/server/room_lifecycle.go:211-255 | removal, hand-over, settlement check and both flags, as the leave function gives them |
| `LiveRoom.Room.CheckWaitForReady` | internal/core/server/room_lifecycle.go:317-337 | starts exactly when all participants are ready and no manual start is set |
| `LiveRoom.Room.CheckPlaying` | internal/core/server/room_lifecycle.go:398-448 | ends the round exactly when all players are settled, then disbands or rotates |
| `LiveRoom.Room.BeginPlaying` | internal/core/server/room_lifecycle.go:343-396 | a fresh round with both timers cancelled |
| `LiveRoom.Room.RotateCycleHost` | internal/core/server/room_lifecycle.go:547-596 | a usable designated host, else the successor; the designation is used up |
| `LiveRoom.Room.HandleJoinRequest` | internal/core/server/hub_room_ops.go:144-216 | validation, capacity, and a player joining a running round counted as aborted |
| `LiveRoom.Room.HandleSelectChart` | internal/core/server/dispatch_room.go:36-54 | only the host, only while choosing, only a chart that was found |
| `LiveRoom.Room.HandleRequestStart` | internal/core/server/dispatch_room.go:56-91 | host ready at once, immediate start when alone, countdown armed otherwise |
| `LiveRoom.Room.HandleReady` | internal/core/server/dispatch_room.go:93-115 | readiness once, and the start when it was the last |
| `LiveRoom.Room.HandleCancelReady` | internal/core/server/dispatch_room.go:117-144 | withdrawn readiness; by the host, back to choosing with the countdown cancelled |
| `LiveRoom.Room.HandlePlayed` | internal/core/server/dispatch_play.go:57-137 | a result is stored only for an unsettled player's own record of the room's chart; the first that does not end the round arms the deadline; `RoomAnswers.PlayedExactly` says that it is then stored |
| `LiveRoom.Room.HandleAbort` | internal/core/server/dispatch_room.go:146-168 | an unsettled player aborts, which may end the round |
| `LiveRoom.Room.OnReadyTimeout` | internal/core/server/timer_ready_countdown.go:77-130 | the forced start marks exactly the players who are not ready as aborted |
| `LiveRoom.Room.OnDeadline` | internal/core/server/timer_play_deadline.go:48-92 | the deadline aborts exactly the unsettled players and runs the settlement |
| `LiveRoom.Room.ForceContest` | internal/core/server/room_contest.go:54-76 | an administrator's start needs contest, waiting state, chart and, unless forced, everybody ready |
| `LiveRoom.Room.ChangeHost` | internal/core/server/admin_room.go:52-77 | only to another current player, clearing the designation |
| `LiveRoom.Room.BuildWhitelist` | internal/core/server/room_contest.go:9-24 | the two loops collect the given IDs and all participants |
| `LiveRoom.Room.Perform` | internal/core/server/hub.go:13-17 | any command, timer or administrative step on the object computes its function |
| `LiveRoom.Room.PerformAll` | internal/core/server/hub.go:13-17 | performed step by step, the object goes through the states of any run of the room and is in order after it |
| `LiveRoom.RemoveInt` | internal/core/server/room_lifecycle.go:39-44 | removes the first occurrence and nothing else |
| `RoomSafety.StepKeeps` | internal/core/server/room_lifecycle.go:211-448 | every step keeps: distinct members matching the maps and the snapshot, host among the players, starts minus ends one exactly in Playing, chart present, results by their owners for the chart, and a running round waiting for somebody present |
| `RoomSafety.LeaveKeeps` | internal/core/server/room_lifecycle.go:211-255 | in particular a leave that does not drop the room |
| `RoomSafety.JoinKeeps` | internal/core/server/room_validate.go:17-48 | and a join in the middle of a round |
| `RoomSafety.SnapshotExact` | internal/core/server/room_lifecycle.go:70-79 | the snapshot names every participant exactly once and nobody else |
| `RoomSafety.RotateKeeps` | internal/core/server/room_lifecycle.go:547-596 | rotation hands the room to a current player and changes nothing else but the designation |
| `RoomSafety.ForcedStartWedges` | internal/core/server/timer_ready_countdown.go:77-130 | a forced start gives a round somebody can finish exactly when some present player is ready |
| `RoomSafety.WedgeReached` | internal/core/server/timer_ready_countdown.go:93-107 | a run from the opening of a room leads to a forced start of a round that nobody can finish |
| `RoomSafety.DeadlineStepKeeps` | internal/core/server/timer_play_deadline.go:17-93 | in a room that is no contest, the deadline is armed exactly while the round holds a result, once per round |
| `RoomSafety.DeadlineRun` | internal/core/server/dispatch_play.go:97-135 | the same in every state of every run |
| `RoomSafety.DeadlineEndsRound` | internal/core/server/timer_play_deadline.go:48-92 | its firing always ends the round with everybody present settled |
| `RoomSafety.StepGrows` | internal/core/server/dispatch_play.go:57-112 | in a round results and aborts only grow, no result is replaced or taken from an aborted player, the chart is fixed from request-start on |
| `RoomSafety.RunInv` | internal/core/server/room_lifecycle.go:307-448 | every state of every run of a room is in order |
| `RoomSafety.RoundKept` | internal/core/server/dispatch_play.go:57-112 | the growth and the chart hold between any two moments of one round, however many steps apart |
| `RoomSafety.ChartKept` | internal/core/server/dispatch_room.go:36-91 | from request-start to game end the chart is there and fixed, in every run |
| `RoomAnswers.EndAnswered` | internal/core/server/room_lifecycle.go:427-448 | an ended round chooses a chart again; a contest asks to be disbanded, any other cycle room of several hands the host to the usable designation or else to the successor and uses the designation up |
| `RoomAnswers.PlayedExactly` | internal/core/server/dispatch_play.go:57-137 | an unsettled player's own record of the chart is stored, and the round goes on if and only if somebody else here has not settled; then the first result of a normal room arms the deadline, otherwise the round ends |
| `RoomAnswers.PlayedIgnored` | internal/core/server/dispatch_play.go:57-100 | a settled player, a foreign or missing record and another chart's change nothing |
| `RoomAnswers.ResultStored` | internal/core/server/dispatch_play.go:97-101 | in every run such a result is there in every later moment of that round |
| `RoomAnswers.AbortAnswered` | internal/core/server/dispatch_room.go:146-168 | an unsettled player aborts, and the round goes on if and only if somebody else here has not settled |
| `RoomAnswers.DeadlineAnswered` | internal/core/server/timer_play_deadline.go:48-92 | the deadline ends the round it fires in |
| `RoomAnswers.RequestStartAnswered` | internal/core/server/dispatch_room.go:56-91 | only the host of a room that is choosing and has a chart; play starts at once exactly when nobody else is to get ready and no administrator has to start |
| `RoomAnswers.ReadyAnswered` | internal/core/server/dispatch_room.go:93-115 | readiness counts once, and the last one starts the round exactly when no administrator has to |
| `RoomAnswers.CancelReadyAnswered` | internal/core/server/dispatch_room.go:117-144 | withdrawn readiness is gone and no other; the host's withdrawal goes back to choosing |
| `RoomAnswers.CancelUndoesReady` | internal/core/server/dispatch_room.go:93-144 | readiness that did not start the round, withdrawn, leaves the room as it was |
| `RoomAnswers.ReadyFiresAnswered` | internal/core/server/timer_ready_countdown.go:77-130 | the countdown starts the round with exactly the players who are not ready as aborted |
| `RoomAnswers.JoinAnswered` | internal/core/server/room_validate.go:17-48 | a newcomer is admitted exactly when listed, the room open, and a place free or watching permitted, comes last, and counts as aborted in a running round unless watching |
| `RoomAnswers.LeaveAnswered` | internal/core/server/room_lifecycle.go:211-255 | the others stay, the successor follows a host, and the round starts or ends exactly when the others are all ready or settled |
| `RoomAnswers.ChooseChartAnswered` | internal/core/server/dispatch_room.go:36-54 | the chart is set exactly by the host, while choosing, when it was found |
| `RoomAnswers.TransferAnswered` | internal/core/server/admin_room.go:52-77 | the host changes exactly to another player who is here |
| `RoomAnswers.ContestStarts` | internal/core/server/room_contest.go:54-76 | a contest starts exactly when it waits, has a chart, and everybody is ready or it is forced |
| `RoomAnswers.ContestEnabled` | internal/core/server/room_contest.go:9-31 | the whitelist holds exactly the given IDs and everybody who is here |
| `HubSafety.CreateKeeps` | internal/core/server/hub_room_ops.go:13-56 | opening a room keeps table and pointers in agreement exactly when the user is not still in the monitor role |
| `HubSafety.EnterKeeps` | internal/core/server/hub_room_ops.go:144-216 | joining keeps them in agreement |
| `HubSafety.ExitExactly` | internal/core/server/dispatch_room.go:185-206 | leaving keeps them in agreement exactly when no monitors are left behind in a dropped room |
| `HubSafety.DropExactly` | internal/core/server/room_lifecycle.go:211-255 | a listed room is dropped exactly when its last player, the host, leaves, and so never dropped and disbanded at once |
| `HubSafety.BothExactly` | internal/core/server/room_lifecycle.go:204-255 | for every room: a leave answers both drop and disband if and only if it takes the last member, not the host, out of a running auto-disband contest |
| `HubSafety.EvictEffect` | internal/core/server/hub_room_ops.go:228-233 | disbanding makes exactly the listed members of a room of that ID leave, and touches no other room or user |
| `HubSafety.DisbandKeeps` | internal/core/server/hub_room_ops.go:221-237 | disbanding keeps table and pointers in agreement |
| `HubSafety.LeaveRoomKeeps` | internal/server/network/session_dangle.go:135-156 | so does leaving, by command or by removal of the user |
| `HubSafety.StepKeeps` | internal/core/server/hub_room_ops.go:13-237 | so does every step, under the stated conditions |
| `HubAnswers.CreateAnswered` | internal/core/server/hub_room_ops.go:13-56 | a user in no room opens exactly a room whose ID is free, as its only member and host; nothing else changes |
| `HubAnswers.JoinAnswered` | internal/core/server/hub_room_ops.go:144-216 | a user in no room joins exactly a listed room that admits them, in the asked role; nothing else changes |
| `HubAnswers.DisbandAnswered` | internal/core/server/hub_room_ops.go:221-237 | disbanding unlists the room and takes everybody out of it; no other room or user changes |
| `HubAnswers.CommandAnswered` | internal/core/server/dispatch_room.go:146-168 | a command changes its room as the room answers, and one that ends a contest disbands it, on the spot or, after a result, in a task of its own |
| `HubAnswers.PendingAnswered` | internal/core/server/dispatch_play.go:115-128 | that task disbands the room exactly when it is still the listed one |
| `HubSafety.RunKeeps` | internal/core/server/hub_room_ops.go:13-237 | in every such run, each user's room and the room tables agree and each listed room is in order |
| `HubSafety.MonitorFreeRun` | internal/core/server/room_lifecycle.go:211-255 | in runs in which nobody joins as a monitor the only condition left is somebody ready at a forced start |
| `HubSafety.AbandonBreaks` | internal/core/server/room_lifecycle.go:233-236 | dropping a room with monitors inside leaves them pointing at a room that is not listed |
| `HubSafety.StaleLeaveUnlistsNamesake` | internal/core/server/dispatch_room.go:185-206 | the last monitor of a dropped room removes another room of the same ID from the table when leaving, and nobody else is moved |
| `HubSafety.DroppedAndDisbanded` | internal/core/server/room_lifecycle.go:204-210 | for a dropped room with a running contest both flags are true at that leave |
| `HubSafety.NamesakeRun` | internal/core/server/room_lifecycle.go:211-255 | a run from the empty server leads there: both flags are true, and the new room is off the table with its host inside |
| `HubSafety.DisbandMeetsRound` | internal/core/server/hub_room_ops.go:217-237 | the failing input: a run from the empty server to a disbanding of a room whose round is running, in which the first leave ends the round and asks for disbanding; `Disbanding.DisbandAsksExactly` has the exact condition |
| `Disbanding.AsksExactly` | internal/core/server/hub_room_ops.go:217-237 | for every room in order and every order of leaving: disbanding it makes some leave ask for disbanding if and only if an auto-disband contest is running and the last to leave is not a player the round still waits for |
| `Disbanding.DisbandAsksExactly` | internal/core/server/hub_room_ops.go:217-237 | the same for the eviction loop over the server's state |
| `Disbanding.RunDisbandAsks` | internal/core/server/hub_room_ops.go:217-237 | the same for every room in every careful run from the empty server |
| `Disbanding.NeverAsks` | internal/core/server/hub_room_ops.go:217-220 | outside a running auto-disband contest no leave asks, in whatever order, as the comment says |
| `Disbanding.EvictionAsksAt` | internal/core/server/hub_room_ops.go:228-233 | that the loop asks means that at one of its turns, in the state the turns before it left, the leave answers so |
| `Disbanding.LeaveAsks` | internal/core/server/room_lifecycle.go:211-255 | a leave asks for disbanding exactly when it leaves only settled players in a running auto-disband contest and is not the last player's as host |
| `Disbanding.RunByHand` | internal/core/server/room_contest.go:27-31 | in every run every contest is one that is started by hand and disbanded at its end |
| `HubSafety.PhantomHost` | internal/core/server/hub_room_ops.go:13-56 | a former monitor who opens a room and leaves it stays behind as its host and only player |
| `HubSafety.PhantomRun` | internal/core/server/hub_room_ops.go:13-56 | a run from the empty server to such a room |
| `Wire.UlebYields` | internal/common/protocol/binary.go:87-98 | reading a written LEB128 number gives the number and the rest, for every 64-bit number |
| `Wire.StringYields` | internal/common/protocol/binary.go:110-113 | reading a written text gives the text and the rest |
| `Wire.ArrayRead` | internal/common/protocol/binary.go:148-155 | an array of readable items reads back item by item |
| `Wire.OptionRead` | internal/common/protocol/binary.go:139-145 | an optional value reads back |
| `Wire.MapRead` | internal/common/protocol/binary.go:158-167 | a map written in ascending key order reads back as the same map |
| `Wire.SortedKeysExact` | internal/common/protocol/binary.go:304-315 | the written keys are exactly the map's, strictly ascending |
| `BinaryIO.BinaryReader.Uleb` | internal/common/protocol/binary.go:87-98 | the shifting loop with its 64-bit accumulator reads what the recursive form reads, wrap-around included |
| `BinaryIO.BinaryReader.Text` | internal/common/protocol/binary.go:101-113 | the moving offset yields the text or fails as the value-level reader does |
| `BinaryIO.BinaryWriter.WriteUleb` | internal/common/protocol/binary.go:246-252 | the loop appends exactly the encoding |
| `BinaryIO.BinaryWriter.WriteVarchar` | internal/common/protocol/binary.go:261-267 | writes the text within the limit, refuses and writes nothing beyond it |
| `HalfFloat.Widen` | internal/common/protocol/half.go:16-44 | the normalising loop computes the widening function |
| `HalfFloat.NarrowWiden` | internal/common/protocol/half.go:16-90 | narrowing undoes widening for every pattern but foreign NaNs, which become the canonical one |
| `HalfFloat.NarrowCanonical` | internal/common/protocol/half.go:48-90 | the only NaN that narrowing produces is the canonical one |
| `HalfFloat.NarrowIdempotent` | internal/common/protocol/half.go:48-90 | narrow, widen, narrow is narrow, for all 2^32 patterns |
| `HalfFloat.NearestEven` | internal/common/protocol/half.go:48-90 | narrowing any finite number of either sign keeps the sign and gives the nearest binary16 magnitude, the even one in a tie, and overflows as IEEE 754 demands |
| `HalfFloat.WidenExact` | internal/common/protocol/half.go:16-44 | every finite binary16 number widens to the same number with the same sign, infinities to infinities, NaNs to NaNs |
| `HalfFloat.NarrowSpecial` | internal/common/protocol/half.go:48-90 | an infinity narrows to the infinity of its sign, every NaN to the canonical one |
| `Commands.ParseRoomID` | internal/common/protocol/roomid.go:17-35 | accepts exactly one to twenty letters, digits, hyphens and underscores |
| `Commands.MessageRead` | internal/common/protocol/commands.go:454-554 | every message decodes to itself and the bytes that follow |
| `Commands.ClientRoundTrip` | internal/common/protocol/commands.go:559-649 | every well-formed client command decodes to itself, coordinates in binary16 precision, and the bytes that follow |
| `Commands.ExactClientRoundTrip` | internal/common/protocol/commands.go:559-649 | to exactly itself when its coordinates are binary16-exact |
| `Commands.ClientReencodes` | internal/common/protocol/commands.go:559-649 | for arbitrary coordinates, encoding the decoded command gives the same bytes |
| `Commands.ServerRoundTrip` | internal/common/protocol/commands.go:662-786 | the same for server commands |
| `Commands.ExactServerRoundTrip` | internal/common/protocol/commands.go:662-786 | to exactly itself when its coordinates are binary16-exact |
| `Commands.ServerReencodes` | internal/common/protocol/commands.go:662-786 | for arbitrary coordinates, encoding the decoded command gives the same bytes |
| `Decoding.ClientFirm` | internal/common/protocol/commands.go:559-649 | whatever the bytes, a decoded client command is well formed: texts within their limits, room IDs valid; and bytes behind it change nothing but what is left |
| `Decoding.ServerFirm` | internal/common/protocol/commands.go:662-786 | the same for server commands |
| `Decoding.ClientTruncated` | internal/common/protocol/commands.go:559-649 | no strict prefix of an encoded client command decodes |
| `Decoding.ServerTruncated` | internal/common/protocol/commands.go:662-786 | nor one of a server command |
| `Decoding.UnknownTags` | internal/common/protocol/commands.go:454-786 | a tag that is not assigned is refused whatever follows |
| `Decoding.ImproperRefused` | internal/common/protocol/binary.go:101-123 | a token, chat text or room ID is decoded exactly when it is within its limit or valid |
| `Framing.FrameRoundTrip` | internal/common/protocol/framing.go:33-114 | a frame followed by anything decodes to its body and the rest exactly when the body is within the limit and below 2^32 bytes; what happens otherwise |
| `Framing.DecodeExtends` | internal/common/protocol/framing.go:75-114 | a decoded frame or an error never changes when more bytes arrive |
| `Framing.TryDecodeFrame` | internal/common/protocol/framing.go:75-114 | the decoding loop over offset and shift computes the decoding function |
| `Framing.FrameWithLengthPrefix` | internal/common/protocol/framing.go:33-50 | the fresh buffer holds prefix and body |
| `Framing.ToFrameBuffer` | internal/common/protocol/binary.go:195-214 | the in-place form holds the same bytes as the fresh one, moves no body byte, and fails exactly when the reserved head is too small |
| `Framing.ReserveSuffices` | internal/common/protocol/binary.go:183-214 | five reserved bytes are always enough |
| `StreamReader.ChunkingIrrelevant` | internal/server/network/session_read.go:51-100 | for every stream and every split into reads, the same commands are dispatched and the same error comes at the same point as when decoding it whole |
| `StreamReader.FramesUnderstood` | internal/server/network/session_read.go:51-100 | a stream of frames within the limit is understood completely and nothing is left over |
| `StreamReader.Session.Process` | internal/server/network/session_read.go:69-92 | the inner loop with in-place compaction dispatches exactly the commands of the buffer |
| `StreamReader.Session.Compact` | internal/server/network/session_read.go:82-84 | moves the remaining bytes to the front of the same array unchanged |
| `StreamReader.Session.Shrink` | internal/server/network/session_read.go:95-99 | giving a large buffer back keeps its contents |
| `StreamReader.Session.OnRead` | internal/server/network/session_read.go:53-100 | one round of the loop is one step of the chunk-fed reader |
| `Connection.CommandsArrive` | internal/server/network/session_read.go:51-100 | well-formed commands, encoded, framed and cut into any reads, arrive complete and in order |
| `ConnLimiter.Limiter.Allow` | internal/server/network/connlimit.go:46-70 | the verdict and the address's new record are those of the judging function; no other address is affected |
| `ConnLimiter.Limiter.Cleanup` | internal/server/network/connlimit.go:73-86 | removes exactly the expired windows and bans |
| `ConnLimiter.CleanupInvisible` | internal/server/network/connlimit.go:73-86 | clean-ups inserted anywhere change no later verdict |
| `ConnLimiter.FirstOpens` | internal/server/network/connlimit.go:46-70 | the first connection of an address is admitted and opens a window |
| `ConnLimiter.WindowExactly` | internal/server/network/connlimit.go:46-70 | while all are admitted, a connection is admitted within the window exactly if the limit is not reached, and one behind its end opens the next |
| `ConnLimiter.BanExactly` | internal/server/network/connlimit.go:46-70 | after the first refusal every connection within the ban is refused, and the first one from its end on is admitted and opens a window |
| `ConnLimiter.AdmissionBound` | internal/server/network/connlimit.go:46-70 | in every run with nondecreasing times any half-open interval of one window admits at most twice the limit less one |
| `ConnLimiter.BoundReached` | internal/server/network/connlimit.go:46-70 | for every limit and every window of at least two units there is a run and an interval with exactly that many admissions |
| `ConnLimiter.UnitWindowBound` | internal/server/network/connlimit.go:46-70 | with a window of one unit the limit itself is the bound |

## Left out

- Fairness: that the network, the file systems and the webhook targets work again after a failure is not modelled; progress is stated along steps in which nothing fails.
- Replay upload processor: it keeps its cursor as the statistics processor does and would repeat its lemmas.
- Queries from server to Agent, HTTP routing, tokens, discovery files, transports: input and output around the modelled handlers.
- JSON, CRC-32 arithmetic, UUIDs, file permissions, SQL text: taken as operations with the assumptions above; a corrupt checkpoint, baseline or cursor file, which makes opening fail, is not modelled.
- Statistics contents: a recorded match is one entry of an ordered fold; ratings and chart figures computed from it are not part of the model, because their laws do not hold in binary64.
- Sequence width: sequences are unbounded naturals, the source's are 64-bit.
- Room races: the windows between a timer's cancellation test and its locks, and handlers that take only one of the two locks, are not modelled; each handler and callback is one step.
- Room messages, logs, replay recording, live flag, game time: effects outside the state machine.
- Order of the participants snapshot: it is a multiset, because it is built by iterating over maps.
- Dangling sessions: reconnection and the identity of dangle tokens; removal of a user is the leave step.
- Moving users between rooms: needs a distinct-room condition of its own and adds no harder property.
- Reconnecting as another session and bans of users: admission decisions are arguments of the create and join steps.
- Contest whitelist changes after enabling: the whitelist only filters joins.
- WebhookSafety.MarkSurvivesExactly: assumes that the checksum rejects the torn bytes run together with the next record; without that the outcome depends on CRC collisions.
- WebhookSafety.DeliveredOnce: says nothing once a crash fell between a mark behind a torn one and the next rewrite; the lemmas after it show why.
- Bit operations in coordinates and prefixes are written as arithmetic on naturals with the same value.
- Allocation before reading: the array reader allocates for the announced length, up to 2^31-1 items, before it finds the bytes missing; the model only fails.
- Go's amortised slice growth: the session buffer doubles; only its contents matter.
- Fluent message parser, benchmark histogram, configuration, caches, PROXY header, web front end: outside the four components.
