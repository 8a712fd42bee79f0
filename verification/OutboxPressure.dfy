// What pressure may take: exactly when an enqueue removes a record that still waits for
// evidence staging, and why a daemon that stages STARTs only never loses waiting work.
module OutboxPressure {
  import opened Common
  import opened EventContract
  import opened OutboxModel
  import opened OutboxSpec
  import opened OutboxProofs
  import opened OutboxCalls
  import opened OutboxCrash
  import opened OutboxExact
  import opened OutboxSizes
  import opened OutboxRuns

  // ---------- one enqueue ----------

  /** The record of the new event, if it is stored, does not wait for staging; the others
      are as they were, and every waiting one is among them. */
  lemma InsertShape(cfg: Config, w: World, e: Event, cursor: nat, alarm: bool, evidence: bool)
    requires Logged(cfg, w) && ValidEvent(cfg.deviceId, e) && Key(cfg, e) !in w.mem.records
    ensures SelfKeyed(w.mem.records)
    ensures var rs := Insert(cfg, w, e, cursor, alarm, evidence).0.mem.records;
            && (Key(cfg, e) in rs ==> !rs[Key(cfg, e)].evidenceState.Staging?)
            && (forall k | k in rs && k != Key(cfg, e) :: k in w.mem.records && rs[k] == w.mem.records[k])
            && (forall k | k in w.mem.records && !Evictable(w.mem.records[k]) :: k in rs)
  {
    hide Logged, GoodEvent, Write, ValidEvent, Key, Exact;
    Keyed(cfg, w);
    PrepareGood(cfg, w, e, cursor, alarm, evidence);
    var (w0, entry) := Prepare(cfg, w, e, cursor, alarm, evidence);
    WriteKeeps(cfg, w0, entry, e.phase);
  }

  lemma RoomKeeps(cfg: Config, w: World, e: Event, choice: Option<string>)
    requires SelfKeyed(w.mem.records)
    ensures var rs := MakeRoom(cfg, w, e, choice).0.mem.records;
            && (forall k | k in rs :: k in w.mem.records && rs[k] == w.mem.records[k])
            && (forall k | k in w.mem.records && !Evictable(w.mem.records[k]) ::
                  k in rs || (e.phase.Update? && choice == Some(k)))
  {
    hide EvictDown, Evictable, Compact;
    EvictDownKeepsKeys(w.mem.records, cfg.maxRecords);
    if e.phase.Update? {
      if choice.Some? { CompactMem(cfg, WithRecords(w, w.mem.records - {choice.value})); }
    } else {
      var rs := EvictDown(w.mem.records, cfg.maxRecords);
      if rs.Some? { CompactMem(cfg, WithRecords(w, rs.value)); }
    }
  }

  lemma CompactMem(cfg: Config, w: World)
    requires SelfKeyed(w.mem.records)
    ensures Compact(cfg, w).0.mem == w.mem && Compact(cfg, w).0.open == w.open
  {
  }

  /** The one enqueue that removes the waiting record under `k`. */
  ghost predicate Takes(cfg: Config, w: World, e: Event, choice: Option<string>, k: string)
    requires SelfKeyed(w.mem.records)
  {
    && w.open && ValidEvent(cfg.deviceId, e) && Key(cfg, e) !in w.mem.records
    && e.phase.Update? && |w.mem.records| >= cfg.maxRecords && choice == Some(k)
    && cfg.lineSize(SnapshotEntry(cfg, w.mem.(records := w.mem.records - {k}))) <= cfg.maxBytes
    && !NextFails(w.faults)
  }

  lemma TakesIs(cfg: Config, w: World, e: Event, choice: Option<string>, k: string)
    requires SelfKeyed(w.mem.records) && k in w.mem.records && !Evictable(w.mem.records[k])
    requires w.open && ValidEvent(cfg.deviceId, e) && Key(cfg, e) !in w.mem.records
    ensures var (w1, st) := MakeRoom(cfg, w, e, choice);
            k !in w1.mem.records <==> Takes(cfg, w, e, choice, k)
    ensures Takes(cfg, w, e, choice, k) ==> MakeRoom(cfg, w, e, choice).1 == Ok
  {
    RoomKeeps(cfg, w, e, choice);
    hide Key, ValidEvent, EvictDown, Evictable, SnapshotEntry;
  }

  /** A record that waits, for staging included, leaves memory in an enqueue exactly when
      the store is open and full, the event is a new valid UPDATE, the record is the one
      chosen to be replaced, and the compaction without it succeeds. */
  lemma WaitingLeavesIff(cfg: Config, w: World, e: Event, cursor: nat, alarm: bool, evidence: bool,
                         choice: Option<string>, k: string)
    requires Logged(cfg, w) && IsCoalesceChoice(w.mem.records, e, choice)
    requires k in w.mem.records && !Evictable(w.mem.records[k])
    ensures SelfKeyed(w.mem.records)
    ensures k !in Enqueue(cfg, w, e, cursor, alarm, evidence, choice).0.mem.records <==> Takes(cfg, w, e, choice, k)
  {
    Keyed(cfg, w);
    hide Logged, MakeRoom, Insert, Key, ValidEvent, IsCoalesceChoice, Evictable;
    if w.open && ValidEvent(cfg.deviceId, e) && Key(cfg, e) !in w.mem.records {
      TakesIs(cfg, w, e, choice, k);
      hide Takes;
      RoomKeeps(cfg, w, e, choice);
      MakeRoomKeeps(cfg, w, e, choice);
      var (w1, st) := MakeRoom(cfg, w, e, choice);
      if st == Ok { InsertShape(cfg, w1, e, cursor, alarm, evidence); }
    }
  }

  /** With the encoder's sizes that compaction fails on the file system or not at all. */
  lemma WaitingLeavesPlain(cfg: Config, enc: Encoding, w: World, e: Event, cursor: nat, alarm: bool, evidence: bool,
                           choice: Option<string>, k: string)
    requires Plain(cfg, enc) && Logged(cfg, w) && IsCoalesceChoice(w.mem.records, e, choice)
    requires k in w.mem.records && !Evictable(w.mem.records[k])
    ensures SelfKeyed(w.mem.records)
    ensures k !in Enqueue(cfg, w, e, cursor, alarm, evidence, choice).0.mem.records <==>
            && w.open && ValidEvent(cfg.deviceId, e) && Key(cfg, e) !in w.mem.records
            && e.phase.Update? && |w.mem.records| >= cfg.maxRecords && choice == Some(k) && !NextFails(w.faults)
  {
    hide Plain, Logged, Enqueue, Key, ValidEvent, IsCoalesceChoice, Evictable, Weight, SnapshotEntry;
    LoggedMem(cfg, w);
    WaitingLeavesIff(cfg, w, e, cursor, alarm, evidence, choice, k);
    MemoryFits(cfg, enc, w);
    SnapshotFits(cfg, enc, w.mem, k);
  }

  /** Such a record is then an UPDATE in staging, so a guarded one is never taken. */
  lemma OnlyStagingTaken(cfg: Config, w: World, e: Event, choice: Option<string>, k: string)
    requires SelfKeyed(w.mem.records) && IsCoalesceChoice(w.mem.records, e, choice)
    requires k in w.mem.records && !Evictable(w.mem.records[k]) && Takes(cfg, w, e, choice, k)
    ensures w.mem.records[k].event.phase.Update? && w.mem.records[k].evidenceState.Staging?
    ensures !Guarded(w.mem.records[k])
  {
    hide SnapshotEntry;
  }

  // ---------- a daemon that stages STARTs only ----------

  predicate StagedUpdate(r: Record) { r.event.phase.Update? && r.evidenceState.Staging? }

  ghost predicate NoStagedUpdate(records: map<string, Record>) {
    forall k | k in records :: !StagedUpdate(records[k])
  }

  /** The call, or the call it crashes in, would put an UPDATE into staging. */
  predicate StagesUpdate(records: map<string, Record>, c: Call) {
    match if c.CallCrash? then c.during else c
    case CallStagingFailure(k, _, terminal) => k in records && records[k].event.phase.Update? && !terminal
    case CallEvidenceState(k, state, _) => k in records && records[k].event.phase.Update? && state.Staging?
    case _ => false
  }

  ghost predicate StagesStartsOnly(cfg: Config, w: World, cs: seq<Call>)
    requires SelfKeyed(w.mem.records)
  {
    cs == [] ||
    (var front := cs[..|cs| - 1];
     StagesStartsOnly(cfg, w, front) && !StagesUpdate(Run(cfg, w, front).mem.records, cs[|cs| - 1]))
  }

  lemma EnqueueNoStaged(cfg: Config, w: World, e: Event, cursor: nat, alarm: bool, evidence: bool,
                        choice: Option<string>)
    requires Logged(cfg, w) && IsCoalesceChoice(w.mem.records, e, choice) && NoStagedUpdate(w.mem.records)
    ensures SelfKeyed(w.mem.records)
    ensures NoStagedUpdate(Enqueue(cfg, w, e, cursor, alarm, evidence, choice).0.mem.records)
  {
    Keyed(cfg, w);
    hide Logged, MakeRoom, Insert, Key, ValidEvent, IsCoalesceChoice, NoStagedUpdate;
    if w.open && ValidEvent(cfg.deviceId, e) && Key(cfg, e) !in w.mem.records {
      RoomNoStaged(cfg, w, e, choice);
      RoomKeeps(cfg, w, e, choice);
      MakeRoomKeeps(cfg, w, e, choice);
      var (w1, st) := MakeRoom(cfg, w, e, choice);
      if st == Ok { InsertNoStaged(cfg, w1, e, cursor, alarm, evidence); }
      hide SelfKeyed;
    }
  }

  lemma RoomNoStaged(cfg: Config, w: World, e: Event, choice: Option<string>)
    requires SelfKeyed(w.mem.records) && NoStagedUpdate(w.mem.records)
    ensures NoStagedUpdate(MakeRoom(cfg, w, e, choice).0.mem.records)
  {
    hide MakeRoom, Evictable;
    RoomKeeps(cfg, w, e, choice);
  }

  lemma InsertNoStaged(cfg: Config, w: World, e: Event, cursor: nat, alarm: bool, evidence: bool)
    requires Logged(cfg, w) && ValidEvent(cfg.deviceId, e) && Key(cfg, e) !in w.mem.records
    requires NoStagedUpdate(w.mem.records)
    ensures SelfKeyed(w.mem.records)
    ensures NoStagedUpdate(Insert(cfg, w, e, cursor, alarm, evidence).0.mem.records)
  {
    hide Insert, Evictable, Logged, ValidEvent, Key;
    InsertShape(cfg, w, e, cursor, alarm, evidence);
  }

  lemma CompleteNoStaged(cfg: Config, w: World, c: Call)
    requires Logged(cfg, w) && ChoiceOk(w.mem.records, c) && (Restarts(c) ==> Sealed(w.disk))
    requires NoStagedUpdate(w.mem.records) && !(IsMark(c) && StagesUpdate(w.mem.records, c))
    ensures SelfKeyed(w.mem.records)
    ensures NoStagedUpdate(Complete(cfg, w, c).0.mem.records)
  {
    hide Logged, Enqueue, MarkCall, Restart, TrimError, CallerSafe, IsCoalesceChoice;
    Keyed(cfg, w);
    match c {
      case CallEnqueue(e, cursor, alarm, evidence, choice) =>
        EnqueueNoStaged(cfg, w, e, cursor, alarm, evidence, choice);
      case CallAck(cursor) => AckKeeps(cfg, w, cursor);
      case CallReopen => ReopenNoStaged(cfg, w);
      case CallCrash(_, _, _) => ReopenNoStaged(cfg, w);
      case _ => AppendKeepsMemory(cfg, w, c);
    }
  }

  lemma ReopenNoStaged(cfg: Config, w: World)
    requires Recoverable(cfg, w) && NoStagedUpdate(w.mem.records)
    ensures SelfKeyed(w.mem.records)
    ensures NoStagedUpdate(Restart(cfg, w, w.disk).0.mem.records)
  {
    ReopenKeeps(cfg, w, w.faults);
  }

  lemma AgreesNoStaged(d: Mem, m: Mem)
    requires Agrees(d, m) && NoStagedUpdate(m.records)
    ensures NoStagedUpdate(d.records)
  {
  }

  lemma LessNoStaged(cfg: Config, base: Mem, m: Mem)
    requires Less(cfg, base, m) && NoStagedUpdate(base.records)
    ensures NoStagedUpdate(m.records)
  {
  }

  lemma StepNoStaged(cfg: Config, w: World, c: Call)
    requires Logged(cfg, w) && SelfKeyed(w.mem.records) && CareTaken(cfg, w, c)
    requires NoStagedUpdate(w.mem.records) && !StagesUpdate(w.mem.records, c)
    ensures NoStagedUpdate(Step(cfg, w, c).0.mem.records)
  {
    hide Complete, Restart, CrashFile, NoStagedUpdate, Logged, CallerSafe, Less, IsCoalesceChoice;
    BeginKeeps(cfg, w);
    CompleteRestarts(cfg, w, c);
    if c.CallCrash? {
      CompleteNoStaged(cfg, Begin(w), c.during);
      var via := CrashStep(cfg, w, c);
      if Less(cfg, w.mem, via.mem) { LessNoStaged(cfg, w.mem, via.mem); }
      AgreesNoStaged(Step(cfg, w, c).0.mem, via.mem);
    } else {
      CompleteNoStaged(cfg, Begin(w), c);
    }
  }

  lemma {:induction false} RunNoStaged(cfg: Config, w: World, cs: seq<Call>)
    requires Logged(cfg, w) && SelfKeyed(w.mem.records) && Careful(cfg, w, cs)
    requires NoStagedUpdate(w.mem.records) && StagesStartsOnly(cfg, w, cs)
    ensures NoStagedUpdate(Run(cfg, w, cs).mem.records)
  {
    if cs != [] {
      var front := cs[..|cs| - 1];
      RunNoStaged(cfg, w, front);
      RunRecoverable(cfg, w, front);
      StepNoStaged(cfg, Run(cfg, w, front), cs[|cs| - 1]);
    }
  }

  /** A run from a store without staged UPDATEs, in which no mark puts one into staging, as
      the daemon's own calls never do: a record that waits at any moment, be it for its
      alarm, its evidence or its staging, stays unchanged in memory and in the file until
      a mark on it. */
  lemma {:induction false} RunKeepsWaiting(cfg: Config, w: World, cs: seq<Call>, from: nat, k: string)
    requires Logged(cfg, w) && SelfKeyed(w.mem.records) && Careful(cfg, w, cs)
    requires NoStagedUpdate(w.mem.records) && StagesStartsOnly(cfg, w, cs)
    requires from <= |cs| && k in Run(cfg, w, cs[..from]).mem.records
    requires !Evictable(Run(cfg, w, cs[..from]).mem.records[k])
    requires forall i | from <= i < |cs| :: !Marks(cs[i], k)
    ensures var (start, end) := (Run(cfg, w, cs[..from]).mem.records, Run(cfg, w, cs));
            && k in end.mem.records && end.mem.records[k] == start[k]
            && Replay(cfg, end.disk.log).Some? && k in Replay(cfg, end.disk.log).value.records
            && Replay(cfg, end.disk.log).value.records[k] == start[k]
  {
    RunRecoverable(cfg, w, cs);
    if from == |cs| {
      assert cs[..from] == cs;
    } else {
      var front, c := cs[..|cs| - 1], cs[|cs| - 1];
      assert front[..from] == cs[..from] && forall i | from <= i < |front| :: front[i] == cs[i];
      RunKeepsWaiting(cfg, w, front, from, k);
      RunNoStaged(cfg, w, front);
      RunRecoverable(cfg, w, front);
      StepKeepsGuarded(cfg, Run(cfg, w, front), c, k);
    }
  }
}
