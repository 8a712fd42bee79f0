# People-flow events and live sessions: a verified model

The repository holds a media engine (C) that watches a camera, turns detections into
people-flow events and streams video on demand, and a GB28181 daemon (Go) that stores the
events durably, forwards them as alarms and answers SIP calls. This project models the
state that has to survive crashes, pressure and lost messages, and proves what it keeps.

| part | files |
|---|---|
| durable outbox of the daemon | OutboxModel, OutboxSpec, OutboxProofs, OutboxCalls, OutboxCrash, OutboxExact, OutboxSizes, OutboxRuns, OutboxPressure, OutboxOrigin, OutboxFile, OutboxTorn, OutboxSeam, OutboxExamples, OutboxKey, OutboxStore |
| event journal of the engine | EventJournal, EventJournalStore |
| both processes together | Pipeline, PipelineProofs, PipelineGaps, PipelineExample |
| alarm delivery and backoff | Delivery |
| event engine | EngineModel, EngineSpec, EngineTrace, EngineFacts, EngineProofs, EngineRuns, EngineTracks, EngineLedger, EngineTables, EventEngine |
| live sessions | LiveModel, LiveProofs, LiveSession |
| frame ownership, framing, evidence | FrameTable, LineFraming, EvidenceCache |

Each part follows one pattern. A step function on values says what an operation does. A
class with the source's fields updates them in place, and each of its methods is proved
equal to that function. Invariants and theorems about whole runs are lemmas about the
functions.

## Where the code does less than one might assume

- Replay rejects what some marking calls will write: an alarm put back to pending without a
  serial, a negative retry time, an unknown evidence state. `OutboxRuns.StepLoggedIff`
  gives the exact condition.
- Coalescing protects pending records but not an UPDATE that waits for evidence staging. The
  daemon stages START events only, so its own runs never lose waiting work.
- Making room for the bytes of a START or END drops a record from memory before it compacts.
  When that compaction fails on the file system the event is refused with the record still
  in the file, and a restart can bring back more records than the limit allows. For its size
  it never fails. An enqueue that fails after making room has also used up its alarm serial.
- The event journal compacts and appends in two steps. A crash between them can lose the
  newest records when they are UPDATEs; their cursors are then given out again, and a daemon
  that is past one of them is never sent the START or END that gets it.
- Once the journal has evicted an UPDATE that a disconnected daemon has not seen, every
  subscription ends in a gap at which the daemon stops; it never gets past that.
- The loader refuses lines above 8 MiB while compaction may write longer ones.
- After a crash that loses only a newline the next line shares the one before it. Until a
  compaction the file then loads without either, and with one more line not at all.
- Call-IDs of 128 bytes or more are truncated by the engine but not by the daemon, so a BYE
  for such a call leaves the stream running until its lease expires.
- A branch that fails to reach NULL blocks every later start of that engine.
- Shutdown of the detector waits for sample callbacks but not for a release callback that has
  left its critical section.
- Two time stamps at the largest 64-bit distance never match as evidence.
- Framing depends on how the bytes arrive as soon as one line exceeds 64 KiB.

## Model

| member | source | states |
|---|---|---|
| OutboxRuns.RunRecoverable | gb28181_daemon/internal/outbox/outbox.go:250-337 | After any run of calls, failing compactions, restarts and crashes inside a call, the entries of the file replay, agree with memory on every record memory holds and on lastAck, hold nothing else that is waiting, and fit maxBytes; a load finds them there if and only if no lost newline has put two on a line |
| OutboxRuns.RunExact | gb28181_daemon/internal/outbox/outbox.go:732-748 | File and memory hold exactly the same records at every moment of a run if and only if no START or END in it trips making room for its bytes: a compaction fails, by size or on the file system, after its eviction has changed memory |
| OutboxRuns.RunPlain | gb28181_daemon/internal/outbox/outbox.go:732-748 | With the sizes of the JSON lines and no compaction failing on the file system nothing trips: file and memory stay equal, and the record limit, once met, holds throughout, restarts and crashes included |
| OutboxSizes.ReplayWeight | gb28181_daemon/internal/outbox/outbox.go:434-547 | With those sizes the records a file replays to take fewer bytes in a snapshot than the file has |
| OutboxSizes.SnapshotFits | gb28181_daemon/internal/outbox/outbox.go:434-547 | So the snapshot of memory with any record gone is within maxBytes |
| OutboxSizes.TripsIsFault | gb28181_daemon/internal/outbox/outbox.go:732-748 | So the byte-pressure loop trips if and only if the file system fails one of its compactions that follows an eviction |
| OutboxRuns.RunBound | gb28181_daemon/internal/outbox/outbox.go:687-702 | In a run in which nothing trips the record limit, once met, holds throughout, restarts and crashes included |
| OutboxRuns.StepLoggedIff | gb28181_daemon/internal/outbox/outbox.go:360-391 | A call, or a crash anywhere in one and the restart, leaves the entries of the file replayable to memory if and only if no mark reached it that breaks the conditions replay checks and the marking calls do not |
| OutboxRuns.StepExact | gb28181_daemon/internal/outbox/outbox.go:597-748 | From equal file and memory, a call or crash leaves them equal if and only if it neither trips making room for bytes nor writes such a mark |
| OutboxExact.BoundaryExact | gb28181_daemon/internal/outbox/outbox.go:732-748 | The byte-pressure loop ends with file and memory equal, stored or refused, if and only if no compaction in it fails right after an eviction, for its size or on the file system |
| OutboxExact.EnqueueExact | gb28181_daemon/internal/outbox/outbox.go:597-748 | The same for a whole enqueue, in terms of the sizes before the call and of the compactions that will fail |
| OutboxExamples.RefusedEndStays | gb28181_daemon/internal/outbox/outbox.go:732-748 | With the sizes of the JSON lines, a run of six calls whose second compaction fails: a refused END leaves in the file a record memory has dropped, and a restart finds more records than maxRecords |
| OutboxRuns.RunKeepsGuarded | gb28181_daemon/internal/outbox/outbox.go:758-773 | Over a run, a record with a pending alarm or pending evidence (or a staging one that is not an UPDATE) that nobody marks stays unchanged, in memory and in the file, whatever pressure and crashes come |
| OutboxRuns.StepKeepsGuarded | gb28181_daemon/internal/outbox/outbox.go:687-748 | No single call, no pressure path in it, and no crash between two of its writes removes or changes a guarded record |
| OutboxPressure.WaitingLeavesIff | gb28181_daemon/internal/outbox/outbox.go:597-730 | A waiting record leaves memory in an enqueue if and only if the store is open and full, the event is a new valid UPDATE, the record is the one chosen to be replaced, and the compaction without it succeeds |
| OutboxPressure.WaitingLeavesPlain | gb28181_daemon/internal/outbox/outbox.go:597-730 | With the sizes of the JSON lines that compaction succeeds unless the file system fails it |
| OutboxPressure.OnlyStagingTaken | gb28181_daemon/internal/outbox/outbox.go:704-730 | A record so taken is an UPDATE in staging |
| OutboxPressure.RunKeepsWaiting | gb28181_daemon/internal/outbox/outbox.go:704-773 | In runs that stage no UPDATE, as the daemon never does, every record that waits for its alarm, evidence or staging stays unchanged, in memory and in the file, until a mark on it |
| OutboxExamples.StagedUpdateTaken | gb28181_daemon/internal/outbox/outbox.go:704-730 | A run of three calls in which an enqueue takes an UPDATE that waits for staging |
| OutboxCrash.FileAtIs | gb28181_daemon/internal/outbox/outbox.go:393-511 | A crash between any two writes of a call finds the file of memory before the call, of memory before it less records that pressure may take, or of memory after it |
| OutboxCrash.CrashFileIs | gb28181_daemon/internal/outbox/outbox.go:393-511 | The same when the crash also takes the newline of the line just written |
| OutboxCrash.EnqueueFiles | gb28181_daemon/internal/outbox/outbox.go:597-748 | However many files one enqueue puts in place, each but the last loads, fits and replays to memory before it less unguarded records |
| OutboxTorn.FilesFollow | gb28181_daemon/internal/outbox/outbox.go:393-511 | From one write of a call to the next the file stays, is replaced as a whole by a snapshot, or gains one line |
| OutboxTorn.AppendCut | gb28181_daemon/internal/outbox/outbox.go:172-236 | Cut the append to any file at any byte: the load finds what it finds before the append, after it, or after it without its newline |
| OutboxTorn.CrashAnywhere | gb28181_daemon/internal/outbox/outbox.go:172-236 | So a line of any call cut at any byte loads as one of three crashes: just before that write, just after it, or just after it without its newline |
| OutboxSeam.RunUnended | gb28181_daemon/internal/outbox/outbox.go:197-231 | A store that runs on after a crash took the last newline: every file it writes loads in full if and only if the first is a compaction; restarted at any moment it finds memory if nothing was written or a compaction came, after one line it is back before the line that was cut, after two it does not start |
| OutboxSeam.SpoiltForGood | gb28181_daemon/internal/outbox/outbox.go:197-231 | After two such lines the next restart fails and so does every later one, whatever was stored in between |
| OutboxSeam.SpoiltBytes | gb28181_daemon/internal/outbox/outbox.go:197-231 | And the load of the bytes of that file fails |
| OutboxSeam.DownStays | gb28181_daemon/internal/outbox/outbox.go:172-236 | A store whose file does not load stays down over every run of calls, crashes and restarts, its file unchanged |
| OutboxExamples.LostNewlineEndsStore | gb28181_daemon/internal/outbox/outbox.go:197-231 | A run of three calls: a crash takes the newline of an END, two more are stored after the restart, and the store never starts again |
| OutboxOrigin.StepFrom | gb28181_daemon/internal/outbox/outbox.go:597-981 | No call and no crash puts an event in memory or file but those of the file before and the one being stored, under its key and cursor |
| OutboxRuns.StepBound | gb28181_daemon/internal/outbox/outbox.go:611-627 | The record limit, once met, stays met, and a restart meets it if and only if the file it reads replays to no more records |
| OutboxRuns.StepAckMonotone | gb28181_daemon/internal/outbox/outbox.go:788-802 | lastAck never moves back, restarts included |
| OutboxCalls.EnqueueKeeps | gb28181_daemon/internal/outbox/outbox.go:597-685 | A repeated event changes nothing; a new one is in memory and in the replay of the file's entries before the call returns; a dropped one is an UPDATE; only unguarded records can leave |
| OutboxCalls.MarkKeeps | gb28181_daemon/internal/outbox/outbox.go:810-981 | A marking call that reaches the file keeps it replayable when its caller was careful and makes the next load fail when not |
| OutboxCalls.AckKeeps | gb28181_daemon/internal/outbox/outbox.go:788-802 | Acknowledging changes the cursor only, to the larger one, in memory and file alike |
| OutboxCalls.ReopenKeeps | gb28181_daemon/internal/outbox/outbox.go:172-236 | A restart always succeeds from a recoverable file, with nothing written, and finds memory's records plus at most evictable ones |
| OutboxRuns.EmptyExact | gb28181_daemon/internal/outbox/outbox.go:123-170 | A new outbox starts exact |
| OutboxProofs.AppendRefines | gb28181_daemon/internal/outbox/outbox.go:393-422 | Appending one entry, compacting if the bytes demand it, moves the replayed state exactly as applying that entry does |
| OutboxProofs.CompactRestores | gb28181_daemon/internal/outbox/outbox.go:447-511 | Compaction makes the file replay to exactly memory, or changes nothing |
| OutboxProofs.SnapshotRestores | gb28181_daemon/internal/outbox/outbox.go:522-547 | The snapshot entry replays from any state to exactly the memory it was taken of |
| OutboxProofs.ApplyAgrees | gb28181_daemon/internal/outbox/outbox.go:250-337 | If file and memory agree and memory accepts an entry, the file does too, and they agree afterwards |
| OutboxProofs.AppendBoundaryKeeps | gb28181_daemon/internal/outbox/outbox.go:732-748 | The byte-pressure loop for a START or END only lets evictable records go, one per round until the append fits; when it gives up the file may keep records memory dropped, all evictable |
| OutboxModel.SnapshotExactly | gb28181_daemon/internal/outbox/outbox.go:522-547 | A list is the records sorted by cursor and key if and only if it is the one a compaction writes |
| OutboxSpec.EvictDownKeepsKeys | gb28181_daemon/internal/outbox/outbox.go:687-702 | Record eviction ends below the limit, keeps every remaining record unchanged and every waiting one present |
| OutboxSpec.AllocateAlarmSN | gb28181_daemon/internal/outbox/outbox.go:775-785 | A serial and its successor lie in 1..999999 and differ; a valid next serial is the one taken |
| OutboxFile.CrashAtomic | gb28181_daemon/internal/outbox/outbox.go:172-236 | An append cut at any byte loads as the state before it or the state after it, never another; a torn line is cut off |
| OutboxFile.RecoverThenAppend | gb28181_daemon/internal/outbox/outbox.go:229-231 | Recovering and then appending another entry works if and only if the crash did not stop exactly before the newline; there both entries are lost |
| OutboxFile.ReloadSame | gb28181_daemon/internal/outbox/outbox.go:238-248 | Loading what a load left behind finds the same state and cuts nothing more |
| OutboxFile.CompactedLoads | gb28181_daemon/internal/outbox/outbox.go:197 | A compacted file loads again if and only if its snapshot line is at most 8 MiB |
| OutboxFile.FileLoads | gb28181_daemon/internal/outbox/outbox.go:172-236 | What the load makes of any file whose entries replay: it fails on a line over 8 MiB and on one that holds two entries with another line behind it, cuts such a line off at the end, and else finds everything |
| OutboxFile.FileSizeIs | gb28181_daemon/internal/outbox/outbox.go:401-415 | The size the model compares with maxBytes is the number of bytes in the file |
| OutboxFile.RunLoads | gb28181_daemon/internal/outbox/outbox.go:172-236 | For every byte limit, after any careful run the bytes of the file load back to memory if and only if no line is over 8 MiB and none holds two entries; one at the end that does costs the last two entries, one further up the load |
| OutboxFile.RunLoadsSmall | gb28181_daemon/internal/outbox/outbox.go:172-236 | With a byte limit of at most 8 MiB and no shared line they always do |
| OutboxFile.LoadFile | gb28181_daemon/internal/outbox/outbox.go:172-236 | The load loop computes the load function: lines, decoding, application, tail recovery and failures |
| OutboxFile.SmallFilesHaveShortLines | gb28181_daemon/internal/outbox/outbox.go:393-422 | Within 8 MiB no line of the file exceeds the reader's limit |
| OutboxKey.KeyIdentifies | gb28181_daemon/internal/outbox/outbox.go:552-563 | Two events share a key if and only if channel, event id, phase and sequence number are equal |
| OutboxStore.Store.Open | gb28181_daemon/internal/outbox/outbox.go:123-170 | Opens exactly when replay and the size check allow, into the reopened state |
| OutboxStore.Store.CompactLocked | gb28181_daemon/internal/outbox/outbox.go:447-511 | The compaction function on the object's fields, one replacement of the file |
| OutboxStore.Store.AppendLocked | gb28181_daemon/internal/outbox/outbox.go:393-422 | The append function, compaction included |
| OutboxStore.Store.EvictLocked | gb28181_daemon/internal/outbox/outbox.go:687-702 | The eviction loop ends with what evicting oldest terminal records leaves, or fails when none is left |
| OutboxStore.Store.MakeRoomForBoundaryLocked | gb28181_daemon/internal/outbox/outbox.go:687-702 | Room for a START or END, with memory restored when compaction fails |
| OutboxStore.Store.FindCoalesceCandidate | gb28181_daemon/internal/outbox/outbox.go:704-717 | Finds a candidate with the largest cursor, or none exists |
| OutboxStore.Store.CoalesceUpdateLocked | gb28181_daemon/internal/outbox/outbox.go:704-730 | Replaces the chosen UPDATE or counts a drop, with memory restored when compaction fails |
| OutboxStore.Store.AppendBoundaryAfterBytePressureLocked | gb28181_daemon/internal/outbox/outbox.go:732-748 | The byte-pressure loop, which stops on a compaction failure without restoring memory |
| OutboxStore.Store.AllocateAlarmSNLocked | gb28181_daemon/internal/outbox/outbox.go:775-785 | Takes the next serial and advances the counter |
| OutboxStore.Store.InsertLocked | gb28181_daemon/internal/outbox/outbox.go:633-685 | Serial, record and journal entry of a new event; the serial stays taken when the entry is refused |
| OutboxStore.Store.EnqueueWithEvidence | gb28181_daemon/internal/outbox/outbox.go:597-685 | The whole enqueue: closed, invalid, existing, room, insert |
| OutboxStore.Store.Acknowledge | gb28181_daemon/internal/outbox/outbox.go:788-802 | Acknowledge on the object's fields |
| OutboxStore.Store.MarkAlarmSent | gb28181_daemon/internal/outbox/outbox.go:810-831 | The record becomes SENT in file and memory or, on failure, nothing changes |
| OutboxStore.Store.MarkAlarmAttempt | gb28181_daemon/internal/outbox/outbox.go:835-866 | One more attempt, DEAD when terminal, else PENDING with its retry time |
| OutboxStore.Store.MarkEvidenceSent | gb28181_daemon/internal/outbox/outbox.go:868-889 | Evidence SENT |
| OutboxStore.Store.MarkEvidenceAttempt | gb28181_daemon/internal/outbox/outbox.go:891-922 | One more evidence attempt, DEAD when terminal |
| OutboxStore.Store.MarkEvidenceStagingFailure | gb28181_daemon/internal/outbox/outbox.go:927-955 | One more staging failure, DEAD when terminal, else STAGING |
| OutboxStore.Store.MarkEvidenceState | gb28181_daemon/internal/outbox/outbox.go:957-981 | Sets the evidence state; an empty state is refused |
| OutboxStore.Store.PendingAlarms | gb28181_daemon/internal/outbox/outbox.go:994-1010 | Exactly the pending alarms, in snapshot order |
| OutboxStore.FindOldestTerminal | gb28181_daemon/internal/outbox/outbox.go:758-773 | The first evictable record in snapshot order, or none |
| OutboxStore.SortRecords | gb28181_daemon/internal/outbox/outbox.go:522-547 | The sorted snapshot of a record map |
| EventJournal.RunKeeps | media_engine/src/analytics/event_journal.c:493-571 | Over any appends: retained START and END records are exactly those accepted, in order; retained UPDATEs are a suffix of the accepted ones; the byte counter is the sum; both limits hold; cursors are 1, 2, 3, ... |
| EventJournal.AppendKeeps | media_engine/src/analytics/event_journal.c:493-571 | One append keeps that policy and accepts, counts a dropped UPDATE or refuses |
| EventJournal.EvictMeans | media_engine/src/analytics/event_journal.c:270-356 | Eviction drops the fewest oldest UPDATEs that make room, and fails only when dropping all would not |
| EventJournal.DropOldestMeans | media_engine/src/analytics/event_journal.c:168-178 | Leaving out the n oldest UPDATEs keeps every boundary in order and a suffix of the UPDATEs |
| EventJournal.CrashKeepsIff | media_engine/src/analytics/event_journal.c:528-545 | An engine that dies between the compaction and the write of an append comes back with what the policy keeps of the records up to its newest one; the records past it are UPDATEs and their cursors are given out again; there are none if and only if making room left the newest record |
| EventJournal.KeepsNewestIff | media_engine/src/analytics/event_journal.c:270-356 | Making room leaves the newest record if and only if that is a START or END, or leaving out all other UPDATEs is enough, or no room is made; else nothing but the STARTs and ENDs is left |
| EventJournal.ReopenSame | media_engine/src/analytics/event_journal.c:358-475 | Reopening between appends loses nothing but the drop counter |
| EventJournal.ReplaySends | media_engine/src/analytics/event_journal.c:573-622 | A subscriber is sent accepted records past its cursor, in order, every START and END among them |
| EventJournal.ReplayGapExact | media_engine/src/analytics/event_journal.c:601-619 | Nothing is sent only to a subscriber that is up to date; the gap flag is false if and only if the cursors sent run from the next one to the latest without a hole |
| EventJournal.GapExact | media_engine/src/analytics/event_journal.c:601-619 | The flag computed while scanning equals the absence of a hole |
| EventJournalStore.RecoveryLongest | media_engine/src/analytics/event_journal.c:398-439 | Recovery keeps exactly the longest prefix of complete, decodable lines with increasing cursors, whatever the file holds |
| EventJournalStore.RecoverTwice | media_engine/src/analytics/event_journal.c:398-439 | Recovering the truncated file again changes nothing |
| EventJournalStore.Recover | media_engine/src/analytics/event_journal.c:398-439 | The recovery loop computes the recovered records and the offset to truncate at |
| EventJournalStore.EvictLoop | media_engine/src/analytics/event_journal.c:270-356 | The in-place loop computes the eviction |
| EventJournalStore.Store.Open | media_engine/src/analytics/event_journal.c:358-475 | Opens over the recovered records, evicting to the limits, or fails |
| EventJournalStore.Store.CompactToFitLocked | media_engine/src/analytics/event_journal.c:270-356 | Compaction to make room: queue, byte counter and file together |
| EventJournalStore.Store.Append | media_engine/src/analytics/event_journal.c:493-571 | The append on queue, counters and file |
| EventJournalStore.Store.Subscribe | media_engine/src/analytics/event_journal.c:573-622 | The snapshot after a cursor with oldest, latest and gap |
| PipelineProofs.NoBoundaryLost | gb28181_daemon/internal/delivery/delivery.go:145-288 | At every moment of every run of both processes, with reconnects, failing compactions, daemon crashes inside any outbox call that leave a file without a shared line, and engine crashes inside any append that leave a journal the daemon is not ahead of, each START and END ever accepted at or below lastAck has been written to the daemon's disk under its key, and the entries there still replay to the outbox |
| PipelineProofs.NoBoundaryEventLost | gb28181_daemon/internal/delivery/delivery.go:145-288 | When no other event ever accepted shares its key, the event itself has been there, with its cursor |
| PipelineGaps.AheadLoses | media_engine/src/analytics/event_journal.c:528-556 | After an engine crash that gives up a cursor the daemon has acknowledged, or goes on to acknowledge for the record in hand, the next START or END the journal accepts under a new key is at or below lastAck, never on the disk, and on its way to nobody |
| PipelineGaps.RunMissed | gb28181_daemon/internal/delivery/delivery.go:145-288 | A START or END so missed never gets on the disk, in any run from there |
| PipelineGaps.RunOutage | gb28181_daemon/internal/delivery/delivery.go:177-199 | Once the journal has evicted a record past lastAck and no connection is open, then over any run lastAck never moves and the daemon never streams again: every subscription is answered with a gap |
| PipelineExample.NeverStreams | gb28181_daemon/internal/delivery/delivery.go:177-199 | Three events before the daemon first connects, in a journal of two records: over any run from there it never receives one |
| PipelineExample.BoundaryLost | media_engine/src/analytics/event_journal.c:528-556 | A run of fourteen actions in which a START is accepted under an acknowledged cursor, after which no run gets it on the disk |
| PipelineProofs.RunSound | gb28181_daemon/internal/media/rpc.go:162-240 | The invariant behind it holds along every run: what is on its way arrives in cursor order behind a frontier that is already on disk; and nothing gets on the disk but accepted events |
| PipelineProofs.StoreSound | gb28181_daemon/internal/delivery/delivery.go:203-288 | Storing keeps the invariant: the frontier moves only past what is on disk, and only UPDATEs are skipped |
| PipelineProofs.AcknowledgeSound | gb28181_daemon/internal/media/rpc.go:196-212 | Acknowledging keeps the invariant: the cursor covers only events already enqueued |
| PipelineProofs.ServeSound | media_engine/src/ipc/ipc_server.c:624-676 | Subscribing keeps the invariant: what is missing is replayed before live events follow |
| PipelineProofs.BroadcastSound | media_engine/src/ipc/ipc_server.c:930-947 | Broadcasting keeps the invariant, whether or not a client is subscribed |
| PipelineProofs.ProduceSound | media_engine/src/engine/engine.c:64-109 | Journaling and queueing an event keeps the invariant |
| PipelineProofs.CrashSound | gb28181_daemon/internal/delivery/delivery.go:145-170 | A daemon crash before, inside or after any outbox call under way, and the restart on a file without a shared line, keeps the invariant |
| PipelineProofs.RestartSound | media_engine/src/analytics/event_journal.c:358-475 | An engine restart from its journal keeps the invariant |
| PipelineProofs.EngineCrashSoundIff | media_engine/src/analytics/event_journal.c:528-545 | An engine crash inside an append keeps the invariant if and only if the daemon has neither acknowledged nor in hand a record past the newest one the journal then holds |
| PipelineProofs.NextGenuine | gb28181_daemon/internal/delivery/delivery.go:203-288 | Every action keeps this: on the disk are only accepted events, under their keys and with their cursors, and the journal gives up UPDATEs alone |
| Delivery.SendsBounded | gb28181_daemon/internal/delivery/delivery.go:364-416 | A pending alarm goes out at most MaxAttempts times plus once per send whose mark did not reach the disk, over any interleaving of other calls, redelivery of its event, restarts, crashes inside a call, and pressure |
| Delivery.DeliverOne | gb28181_daemon/internal/delivery/delivery.go:364-416 | One delivery, for a copy of the record that the evidence loop may since have outdated: an unaddressable alarm is marked dead unsent; else one send and the mark of its outcome |
| Delivery.Delay | gb28181_daemon/internal/delivery/delivery.go:471-494 | Before jitter the delay is min(base * 2^(attempt-1), maximum), and no intermediate value leaves 64 bits |
| Delivery.BoundedBackoff | gb28181_daemon/internal/delivery/delivery.go:471-507 | After jitter it lies between half of that and all of it |
| Delivery.DelayGrows | gb28181_daemon/internal/delivery/delivery.go:484-494 | Later attempts never wait less, and never more than the maximum |
| Delivery.OtherKeeps | gb28181_daemon/internal/outbox/outbox.go:597-981 | No other call of the outbox, completed or not, makes an alarm pending again or changes the attempts of a pending one; an enqueue of its own event is such a call while the record is there |
| EngineProofs.RunGood | media_engine/src/analytics/event_engine.c:791-1053 | Over any interleaving of process, close, reconfigure and deinit, failing calls included, the history of frames and emissions is a good one: every item meets its rule below |
| EngineProofs.StepKeeps | media_engine/src/analytics/event_engine.c:791-1053 | One call, successful or failing, keeps that invariant |
| EngineRuns.RunGrammar | media_engine/src/analytics/event_engine.c:588-751 | The emitted events are lifecycles START UPDATE* END numbered 1, 2, 3, ..., each with one id, channel, epoch, type, rule and configuration version and nondecreasing frames; no id ever returns |
| EngineRuns.LivesFlatten | media_engine/src/analytics/event_engine.c:588-751 | Cutting a trace into lifecycles loses and reorders nothing |
| EngineRuns.IdSerial | media_engine/src/analytics/event_engine.c:588-606 | An event id gives its serial back, so ids of different serials never collide |
| EngineRuns.StartNeedsStreak | media_engine/src/analytics/event_engine.c:753-789 | A START closes an unbroken run of condition frames meeting confirmation, in frames or time, and debounce |
| EngineRuns.StartWaitsForCooldown | media_engine/src/analytics/event_engine.c:579-586 | After an absence END at t the next START has a valid timeline of at least t plus the cooldown |
| EngineRuns.UpdatesAreSpaced | media_engine/src/analytics/event_engine.c:682-715 | An UPDATE keeps the update interval from the event before it when both timelines are valid |
| EngineRuns.EndNeedsAbsence | media_engine/src/analytics/event_engine.c:837-857 | An absence END closes an unbroken run of frames without the condition, one of which is at least the grace older |
| EngineRuns.DeltasConserved | media_engine/src/analytics/event_engine.c:649-751 | The deltas of a finished lifecycle add up to the directional facts that were new in its frames (all facts of the START frame, then those the frame before lacked), exactly if and only if no 32-bit accumulator saturated |
| EngineFacts.SummaryExact | media_engine/src/analytics/event_engine.c:543-577 | For a valid observation the rule summary counts exactly the distinct matching facts that the previous frame lacked |
| EngineProofs.StartContext | media_engine/src/analytics/event_engine.c:158-180 | A START describes the latest accepted frame: its wall-clock time or none, never the fallback timeline, and its person count |
| EngineProofs.EndOk | media_engine/src/analytics/event_engine.c:717-751 | An END continues its lifecycle, takes the pending deltas and describes the latest accepted frame |
| EngineProofs.UpdateKeeps | media_engine/src/analytics/event_engine.c:682-715 | Emitting an UPDATE keeps the invariant: it continues its lifecycle, takes the pending deltas, and responsible tracks stay pending |
| EngineProofs.PendingFollows | media_engine/src/analytics/event_engine.c:649-680 | Marking keeps the invariant that pending deltas are the saturated count of new facts since the last event |
| EngineProofs.TriggerFollows | media_engine/src/analytics/event_engine.c:753-768 | Updating the trigger keeps the invariant that it counts the current streak of condition frames and remembers its first timeline |
| EngineProofs.WhenAbsentKeeps | media_engine/src/analytics/event_engine.c:837-857 | The absent branch keeps the invariant that absence is timed from the first valid timeline of the streak and that an END by absence imposes the cooldown |
| EngineTracks.ConfirmedNeedsRun | media_engine/src/analytics/event_engine.c:411-494 | A track becomes confirmed only at the end of an unbroken run of frames that sight it, long enough in frames or in time since its first frame |
| EngineTracks.SideNeedsDebounce | media_engine/src/analytics/event_engine.c:376-409 | A track changes sides of the region only without debounce or timeline, or after every sighting for at least the debounce lay on the new side |
| EngineTracks.UpdateAt | media_engine/src/analytics/event_engine.c:424-494 | An entry that stays after a frame is either sighted in it or an absent, confirmed one left as it was |
| EngineProofs.TakeKeeps | media_engine/src/analytics/observation.c:200-224 | Taking an ordered observation as the latest keeps the active event on its channel and epoch, at no earlier frame |
| EngineLedger.ReturnsEmissions | media_engine/src/analytics/event_engine.c:143-148 | With a sink, every successful call has emitted exactly as many events as it returns |
| EngineLedger.RunDisappearances | media_engine/src/analytics/event_engine.c:837-857 | Unless a caller closes with that reason, every DISAPPEARED END is one found by absence and no other END is |
| EngineTables.UpdateTrackTable | media_engine/src/analytics/event_engine.c:424-503 | The 64-slot table ends as the capacity-64 map update says, slots in use stay distinct, and the count is exactly the present, confirmed, inside tracks |
| EngineTables.CountBounded | media_engine/src/analytics/event_engine.c:484-503 | The count never exceeds the observation's tracks, and each counted track was seen in it as a new or active person with enough score |
| EngineTables.ApplyCapacity | media_engine/src/analytics/event_engine.c:338-351 | The table never stands for more than 64 tracks |
| EngineTables.TableSize | media_engine/src/analytics/event_engine.c:338-351 | A table is full exactly when its map has as many entries as slots |
| EngineTables.FindTrack | media_engine/src/analytics/event_engine.c:327-336 | Finds the slot of a track if and only if the map has it |
| EngineTables.AllocateTrack | media_engine/src/analytics/event_engine.c:338-351 | Succeeds if and only if the map has room, and adds a fresh entry |
| EngineTables.ObserveTrack | media_engine/src/analytics/event_engine.c:434-476 | One observed track: ignored, removed, sighted or refused for room |
| EngineTables.PruneLoop | media_engine/src/analytics/event_engine.c:478-494 | Unconfirmed absentees go, confirmed ones after the grace |
| EngineTables.CountPersons | media_engine/src/analytics/event_engine.c:496-503 | Counts the present, confirmed, inside tracks |
| EngineTables.RememberFacts | media_engine/src/analytics/event_engine.c:292-305 | The remembered facts are exactly the given ones; the table cannot be exhausted by up to 64 facts |
| EngineTables.FactSeen | media_engine/src/analytics/event_engine.c:265-275 | Seen if and only if the pair of track and direction is remembered |
| EngineTables.MatchingRules | media_engine/src/analytics/event_engine.c:543-577 | The loop computes the rule summary |
| EventEngine.Validate | media_engine/src/analytics/observation.c:50-182 | The validation scans accept exactly the valid observations |
| EventEngine.Engine.constructor | media_engine/src/analytics/event_engine.c:874-892 | Initial state |
| EventEngine.Engine.StartEvent | media_engine/src/analytics/event_engine.c:608-647 | Emits the START or fails on an exhausted serial; remembered facts replaced |
| EventEngine.Engine.MarkUpdateFields | media_engine/src/analytics/event_engine.c:649-680 | Pending update with saturated deltas and merged tracks |
| EventEngine.Engine.EmitUpdateIfDue | media_engine/src/analytics/event_engine.c:682-715 | Emits the pending UPDATE when due |
| EventEngine.Engine.EndEvent | media_engine/src/analytics/event_engine.c:717-751 | Emits the END, sets the cooldown, clears pending state |
| EventEngine.Engine.TriggerQualified | media_engine/src/analytics/event_engine.c:770-789 | Confirmation, cooldown and debounce of the trigger |
| EventEngine.Engine.Accept | media_engine/src/analytics/event_engine.c:791-872 | One accepted observation on the object's fields and tables |
| EventEngine.Engine.ProcessObservation | media_engine/src/analytics/event_engine.c:916-985 | Process equals its step function |
| EventEngine.Engine.CloseEngine | media_engine/src/analytics/event_engine.c:987-1006 | Close equals its step function |
| EventEngine.Engine.ReconfigureEngine | media_engine/src/analytics/event_engine.c:1008-1053 | Reconfigure equals its step function |
| EventEngine.Engine.DeinitEngine | media_engine/src/analytics/event_engine.c:894-914 | Deinit equals its step function |
| LiveProofs.RunOwned | gb28181_daemon/internal/app/app.go:48-166 | Over every run with Call-IDs that fit, at most one call is registered and whatever the engine runs the daemon holds as active or cleanup whenever the mutex is free, lost requests and replies, faults, lease expiry and restarts included |
| LiveProofs.FreshRunOwned | gb28181_daemon/internal/app/app.go:48-166 | So at every moment from a fresh start of both sides at most one session runs, and the daemon holds it |
| LiveProofs.StepOwned | gb28181_daemon/internal/app/app.go:327-370 | Each handler, lease round, engine event and restart keeps that |
| LiveProofs.PrepareOwned | gb28181_daemon/internal/app/app.go:48-86 | A call is reserved only when the engine runs nothing |
| LiveProofs.AcceptedOwned | gb28181_daemon/internal/app/app.go:87-136 | Whatever becomes of the start, and of the stop that follows a failed one, what the engine then runs is held |
| LiveProofs.LeaseOwned | gb28181_daemon/internal/app/app.go:336-366 | A lease round never forgets a session the engine still runs |
| LiveProofs.StopOwnedKeeps | gb28181_daemon/internal/app/app.go:503-519 | Confirmed or not, a stop keeps what the engine runs held, and starts nothing |
| LiveProofs.ReconcileOwned | gb28181_daemon/internal/app/app.go:293-321 | The daemon comes up only when the engine runs nothing |
| LiveProofs.ByePreventsStart | gb28181_daemon/internal/app/app.go:145-166 | A BYE that overtakes the ACK keeps media from ever starting for that call until it is reserved anew (sections 13.3.1.4 and 15.1.2 of RFC 3261) |
| LiveProofs.StartOwnedIff | media_engine/src/ipc/ipc_server.c:415-419 | Whatever becomes of the start request, its reply and the stop after a failure, what then runs is held if and only if the Call-ID is shorter than the 128-byte session id buffer or nothing runs |
| LiveProofs.LongIdOrphans | media_engine/src/ipc/ipc_server.c:477-491 | For every longer Call-ID, INVITE, ACK and BYE leave the engine streaming a session the daemon no longer knows |
| LiveProofs.HappenKeeps | media_engine/src/engine/engine.c:29-47 | Engine faults, lease expiry and branch messages keep registry and branch in agreement and only remove sessions |
| LiveProofs.StartSessionKeeps | media_engine/src/session/session_mgr.c:82-111 | A session is registered only when none was and its branch plays under the same id |
| LiveProofs.StopSessionKeeps | media_engine/src/session/session_mgr.c:146-183 | A successful stop leaves the session unregistered; a failed one keeps it with a FAILED branch |
| LiveProofs.StartBranchKeeps | media_engine/src/gst/gst_runner.c:358-485 | A branch is built only when none exists, and a failed construction leaves none |
| LiveProofs.DestroyIdleKeeps | media_engine/src/gst/gst_runner.c:492-516 | The queued destruction always finds a branch in BUS_DRAIN and removes it |
| LiveProofs.DisposedOnce | media_engine/src/gst/gst_runner.c:492-525 | No branch is disposed of twice |
| LiveProofs.FailedIsFinal | media_engine/src/gst/gst_runner.c:576-585 | From a branch that failed to reach NULL, over every run of handlers, lease rounds, engine events and daemon restarts until the engine restarts, the branch stays FAILED and no session is added |
| LiveProofs.FailedStays | media_engine/src/session/session_mgr.c:162-168 | The failed branch stays, while the next stop lets the registry forget its session |
| LiveSession.Manager.Reserve | gb28181_daemon/internal/session/manager.go:48-60 | Reserves only an empty registry and a nonempty Call-ID |
| LiveSession.Manager.Activate | gb28181_daemon/internal/session/manager.go:64-75 | Pending becomes active |
| LiveSession.Manager.Cancel | gb28181_daemon/internal/session/manager.go:78-88 | Removes a pending call only |
| LiveSession.Manager.MarkCleanup | gb28181_daemon/internal/session/manager.go:92-101 | Keeps a known call for cleanup |
| LiveSession.Manager.Stop | gb28181_daemon/internal/session/manager.go:113-123 | Removes a call in any state |
| LiveSession.Manager.All | gb28181_daemon/internal/session/manager.go:144-152 | Every registered call once |
| LiveSession.GstRunner.StartLive | media_engine/src/gst/gst_runner.c:358-485 | Phases, pads and branch of a start, with its undo path |
| LiveSession.GstRunner.StopLive | media_engine/src/gst/gst_runner.c:560-606 | Phases, pads and branch of a stop |
| LiveSession.GstRunner.NullMessage | media_engine/src/gst/gst_runner.c:234-252 | WAITING_NULL to BUS_DRAIN |
| LiveSession.GstRunner.RunIdle | media_engine/src/gst/gst_runner.c:492-516 | The queued destruction |
| LiveSession.SessionMgr.Start | media_engine/src/session/session_mgr.c:82-111 | Start over the backend |
| LiveSession.SessionMgr.Stop | media_engine/src/session/session_mgr.c:146-183 | Stop over the backend, idempotent for unknown ids |
| LiveSession.SessionMgr.Touch | media_engine/src/session/session_mgr.c:113-124 | Refreshes a known session or reports it missing |
| LiveSession.SessionMgr.Expired | media_engine/src/session/session_mgr.c:126-144 | Expired if and only if the session was not refreshed for the timeout |
| LiveSession.SessionMgr.GetStatus | media_engine/src/engine/engine.c:293-311 | Reports the registered session |
| LiveSession.SessionMgr.HandleEvent | media_engine/src/gst/gst_runner.c:202-257 | Bus messages, faults and lease expiry |
| LiveSession.App.Prepare | gb28181_daemon/internal/app/app.go:48-86 | The INVITE handler |
| LiveSession.App.Accepted | gb28181_daemon/internal/app/app.go:87-136 | The ACK handler |
| LiveSession.App.Failed | gb28181_daemon/internal/app/app.go:137-144 | The failed-INVITE handler |
| LiveSession.App.Bye | gb28181_daemon/internal/app/app.go:145-166 | The BYE handler |
| LiveSession.App.StopOwnedMedia | gb28181_daemon/internal/app/app.go:503-519 | Recovery over the whole registry |
| LiveSession.App.LeaseRound | gb28181_daemon/internal/app/app.go:336-366 | One lease round over the whole registry |
| LiveSession.App.ReconcileMedia | gb28181_daemon/internal/app/app.go:293-321 | Release of a former daemon's session |
| FrameTable.RunKeeps | media_engine/src/analytics/rockiva_runner.c:334-513 | Under any interleaving of callbacks and shutdown: pending_frames is the table size, outstanding ids are distinct, nonzero 32-bit values, and every reference taken is in exactly one place |
| FrameTable.DroppedAtMostOnce | media_engine/src/analytics/rockiva_runner.c:334-513 | No reference is dropped twice, nor while its frame is lent |
| FrameTable.FreedMeansDropped | media_engine/src/analytics/rockiva_runner.c:687-756 | When shutdown reports success every reference has been dropped exactly once, but for those a release callback is just about to drop |
| FrameTable.FreeMayPrecedeDrop | media_engine/src/analytics/rockiva_runner.c:364-376 | A run in which shutdown succeeds before such a drop, since release callbacks are not counted as active |
| FrameTable.AttributionKept | media_engine/src/analytics/rockiva_runner.c:453-472 | Over any run from the moment a frame enters, as long as its reference is lent it is under the same id with the epoch, channel and descriptor of that moment, whatever streams are set since |
| FrameTable.Frames.NextFrameId | media_engine/src/analytics/rockiva_runner.c:379-395 | A nonzero id not in use; fails only with at least 2^32 - 2 frames outstanding |
| FrameTable.Frames.Take | media_engine/src/analytics/rockiva_runner.c:453-472 | Lends a buffer under a free id |
| FrameTable.Frames.PushReturned | media_engine/src/analytics/rockiva_runner.c:485-497 | Takes the buffer back only from a failed push nobody has seen |
| FrameTable.Frames.ReleaseOne | media_engine/src/analytics/rockiva_runner.c:352-373 | Releases a matching frame; a mismatch changes nothing |
| FrameTable.Frames.Detect | media_engine/src/analytics/rockiva_runner.c:259-277 | Marks the frame and names the stream it belongs to |
| LineFraming.ChunkingFreeIff | media_engine/src/ipc/ipc_server.c:236-258 | A stream is handled alike for every sequence of reads if and only if each of its complete lines is at most 64 KiB |
| LineFraming.FramingExact | media_engine/src/ipc/ipc_server.c:236-258 | Then exactly the complete lines are handled, in order, and a tail that fits is kept |
| LineFraming.LongLineDiffers | media_engine/src/ipc/ipc_server.c:240-248 | A longer line reaches the handler differently when two of its bytes arrive together |
| LineFraming.Client.ProcessInput | media_engine/src/ipc/ipc_server.c:236-258 | The input loop computes one feed of the framing |
| LineFraming.Client.TryWrite | media_engine/src/ipc/ipc_server.c:118-137 | What the socket took is the prefix its answers add up to, and the failure flag says exactly whether an error ended it |
| LineFraming.Client.Send | media_engine/src/ipc/ipc_server.c:139-159 | Bytes written plus queued are always all bytes ever sent; text goes out at once when nothing is queued, the rest is queued, and the client closes only on a write error |
| LineFraming.Client.Flush | media_engine/src/ipc/ipc_server.c:161-184 | Flushing writes what the flush function says and loses, repeats and reorders nothing |
| LineFraming.FlushedMeans | media_engine/src/ipc/ipc_server.c:161-184 | Without an error it keeps the client and ends with nothing queued, or with the rest of an item the socket cut short and what was behind it |
| EvidenceCache.SelectFrame | media_engine/src/analytics/evidence_cache.c:492-540 | The newest exact frame; else the comparable one of least PTS distance, newest on ties; else the newest one with a missing PTS |
| EvidenceCache.BestUnique | media_engine/src/analytics/evidence_cache.c:492-540 | There is exactly one best choice |
| EvidenceCache.NothingChosenIff | media_engine/src/analytics/evidence_cache.c:485-540 | No frame is chosen if and only if every frame of the event's channel and epoch has a PTS, as the event has, and on one timebase the two are 0 and 2^63 - 1, or else its number differs |
| EvidenceCache.FarFrameIgnored | media_engine/src/analytics/evidence_cache.c:485-540 | Such a frame and event: the event's own frame by number, and no evidence |
| EvidenceCache.OrderFree | media_engine/src/analytics/evidence_cache.c:867-943 | A frame and the only note with its PTS meet in the same state in either order |
| EvidenceCache.TrimLongest | media_engine/src/analytics/evidence_cache.c:929-940 | The recent window is the longest suffix that fits |
| EvidenceCache.Cache.AddNote | media_engine/src/analytics/evidence_cache.c:867-907 | At most 256 notes; a waiting frame with that PTS takes the note |
| EvidenceCache.Cache.AddJpeg | media_engine/src/analytics/evidence_cache.c:909-943 | The byte counter is the sum of the frames and within min(max_bytes, 8 MiB) |
| EvidenceCache.Cache.FindNote | media_engine/src/analytics/evidence_cache.c:440-452 | The newest note with a PTS |
| EvidenceCache.Cache.PruneExpired | media_engine/src/analytics/evidence_cache.c:561-583 | Drops exactly the expired records; stored_bytes stays the sum |
| EvidenceCache.Cache.RemoveRecord | media_engine/src/analytics/evidence_cache.c:542-559 | Removes one record and its bytes |
| EvidenceCache.Cache.Capture | media_engine/src/analytics/evidence_cache.c:945-1110 | Returns 0 if and only if the event has a usable evidence id, given or derived, and that is known, or it is a START whose best frame fits beside the unexpired records and was published; then the store is those records and the new one, with its frame, accuracy and deltas; -1 only for an event without event id, channel or epoch, an unusable evidence id, or a failed publication |
| EvidenceCache.DerivedIds | media_engine/src/analytics/evidence_cache.c:414-429 | Every event with an identity and a digest gets an evidence id, the same for two events if and only if their digests are equal |

## Left out

- EngineSpec: the channel hash of event ids is an arbitrary function; uniqueness rests on the serial within one engine instance.
- EngineModel: `first_frame_id` and `last_seen_frame_id` of a track, which nothing reads, and the PTS and timebase copied into an event.
- EngineRuns.StartWaitsForCooldown: speaks of the first START after the absence END; a clearing of all state in between lifts the cooldown, as the code does.
- EngineRuns.DeltasConserved: at a START every fact of its frame counts as new, because nothing is remembered while no event is active.
- OutboxStore.Store.FindCoalesceCandidate: with equal cursors the source takes whichever its map iteration meets first; any such choice is allowed.
- OutboxRuns.RunRecoverable: its runs, like all careful ones here, restart only on files in which no lost newline has put two entries on one line; OutboxSeam.RunUnended says what a restart on any other finds.
- PipelineGaps.RunOutage: speaks of runs whose engine crashes leave the newest record; one that does not can give the missing cursor out again.
- PipelineGaps.AheadLoses: needs the journal to accept the START or END and, when the daemon is ahead only by the record in hand, the outbox to take that record.
- PipelineProofs.NoBoundaryLost: excludes engine crashes that leave the daemon ahead of the journal, where PipelineGaps.AheadLoses shows it false, and daemon restarts on a file in which a lost newline has put two entries on one line, which lose both or fail (OutboxSeam.RunUnended); a line written behind a lost newline counts as on the disk, though a load finds it only after the next compaction; acknowledgement replies, the order of dispatches queued during engine shutdown, and requests served out of order are not modelled; event keys of different engine instances are not told apart.
- Pipeline: evidence staging is one step that may fail and drop the connection; an engine crash falls between appends or between the two steps of one, and a journal line cut short is left to EventJournalStore.
- Delivery.SendsBounded: assumes the same key is not stored again after its record was evicted.
- LiveModel: requests reach the engine in order and at once or never; channel, target and SSRC of a session, the analytics epoch, shutdown of the GStreamer runner and its base pipeline.
- LiveSession.App.LeaseRound: one pair of call outcomes serves the one session a round can meet.
- FrameTable: the sample inspection, the detection result itself, and the wait timeouts beyond their outcome.
- LineFraming.Client.Send: texts hold no zero byte; JSON handling of a line is a list of handled lines.
- EvidenceCache: file writes are one boolean outcome, recovery of the directory at start, negative PTS values, and record fields that are only copied.
- Storage: a compaction fails as a whole, with the file unchanged; one that fails to open the file it has just put in place is the crash at that write; errors while a line is appended, which may leave part of it. The JSON and base64 encoders are arbitrary faithful ones of arbitrary size.
- OutboxSizes: the sizes of the JSON lines are a hypothesis about the encoder (`Plain`): an event line is longer than its record in a snapshot, a state line than what it adds, a snapshot's head shorter than any record. It holds for the 64-bit numbers of the source and device ids without characters that JSON escapes; the counters of the model are unbounded.
- Numbers: JSON numbers above 2^53, the 64-bit width of drop counters and of frame ids beyond the wrap of the 32-bit detector id.
- Configuration, SIP messages and XML, PTZ decoding, time synchronisation, HTTP upload, previews and the other GStreamer, RKAIQ and RGA code add only single-branch facts.
