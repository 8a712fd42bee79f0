// What each call of the outbox keeps: enqueue, acknowledgement, marks and restarts.
module OutboxCalls {
  import opened Common
  import opened EventContract
  import opened OutboxModel
  import opened OutboxSpec
  import opened OutboxProofs

  /** Records no pressure path removes. Coalescing looks at pending states only, so
      an UPDATE that waits for evidence staging is not among them. */
  ghost predicate Guarded(r: Record) {
    || r.alarmState.Pending? || r.evidenceState.Pending?
    || (r.evidenceState.Staging? && !r.event.phase.Update?)
  }

  ghost predicate KeepsGuarded(before: map<string, Record>, after: map<string, Record>) {
    forall k | k in before && Guarded(before[k]) :: k in after && after[k] == before[k]
  }

  // ---------- making room ----------

  /** Only records left, each unchanged, nothing else of memory touched. */
  ghost predicate Shrinks(before: World, after: World) {
    && after.open == before.open && after.mem.lastAck == before.mem.lastAck
    && after.mem.nextAlarmSN == before.mem.nextAlarmSN
    && after.mem.records.Keys <= before.mem.records.Keys
    && KeepsGuarded(before.mem.records, after.mem.records)
    && forall k | k in after.mem.records :: after.mem.records[k] == before.mem.records[k]
  }

  lemma CoalesceKeeps(cfg: Config, w: World, e: Event, choice: Option<string>)
    requires Logged(cfg, w) && IsCoalesceChoice(w.mem.records, e, choice)
    ensures var (w1, st) := Coalesce(cfg, w, choice);
            && Shrinks(w, w1) && Logged(cfg, w1) && (Exact(cfg, w) ==> Exact(cfg, w1))
            && (st != Ok ==> w1.mem.records == w.mem.records && w1.disk == w.disk)
            && (st == Ok ==> Exact(cfg, w1) && |w1.mem.records| == |w.mem.records| - 1)
  {
    if choice.Some? {
      WithoutKeys(w.mem.records, choice.value);
      CompactRestores(cfg, WithRecords(w, w.mem.records - {choice.value}));
    }
  }

  lemma BoundaryRoomKeeps(cfg: Config, w: World)
    requires Logged(cfg, w)
    ensures var (w1, st) := MakeRoomForBoundary(cfg, w);
            && Shrinks(w, w1) && Logged(cfg, w1) && (Exact(cfg, w) ==> Exact(cfg, w1))
            && (st != Ok ==> w1 == w.(faults := w1.faults)) && st != ErrUpdateDropped
            && (st == Ok ==> Exact(cfg, w1) && |w1.mem.records| < cfg.maxRecords)
  {
    EvictDownKeepsKeys(w.mem.records, cfg.maxRecords);
    var rs := EvictDown(w.mem.records, cfg.maxRecords);
    if rs.Some? { CompactRestores(cfg, WithRecords(w, rs.value)); }
  }

  lemma MakeRoomKeeps(cfg: Config, w: World, e: Event, choice: Option<string>)
    requires Logged(cfg, w) && IsCoalesceChoice(w.mem.records, e, choice)
    ensures var (w1, st) := MakeRoom(cfg, w, e, choice);
            && Shrinks(w, w1) && Logged(cfg, w1) && (Exact(cfg, w) ==> Exact(cfg, w1))
            && (st != Ok ==> w1.mem.records == w.mem.records && w1.disk == w.disk)
            && (st == Ok && |w.mem.records| <= cfg.maxRecords ==> |w1.mem.records| < cfg.maxRecords)
            && (st == ErrUpdateDropped ==> e.phase.Update?)
  {
    hide Exact, IsCoalesceChoice, Coalesce, MakeRoomForBoundary, Replay, Tracks, FileSize;
    if |w.mem.records| >= cfg.maxRecords {
      if e.phase.Update? { CoalesceKeeps(cfg, w, e, choice); } else { BoundaryRoomKeeps(cfg, w); }
    }
  }

  // ---------- enqueue ----------

  /** The event is in memory under its key, and replay of the file finds it too. */
  ghost predicate Stored(cfg: Config, w: World, e: Event, cursor: nat) {
    var k := Key(cfg, e);
    && k in w.mem.records && w.mem.records[k].event == e && w.mem.records[k].cursor == cursor
    && Replay(cfg, w.disk.log).Some? && k in Replay(cfg, w.disk.log).value.records
    && Replay(cfg, w.disk.log).value.records[k] == w.mem.records[k]
  }

  /** What storing a new event may change. */
  ghost predicate Grows(cfg: Config, w: World, w1: World, e: Event) {
    && w1.open == w.open && w1.mem.lastAck == w.mem.lastAck
    && KeepsGuarded(w.mem.records, w1.mem.records)
    && w1.mem.records.Keys <= w.mem.records.Keys + {Key(cfg, e)}
    && (forall k | k in w1.mem.records && k != Key(cfg, e) :: w1.mem.records[k] == w.mem.records[k])
  }

  lemma ShrinkThenGrow(cfg: Config, w: World, w1: World, w2: World, e: Event)
    requires Shrinks(w, w1) && Grows(cfg, w1, w2, e)
    ensures Grows(cfg, w, w2, e)
  {
  }

  lemma ShrinksOpen(w: World, w1: World)
    requires Shrinks(w, w1)
    ensures w1.open == w.open && w1.mem.records.Keys <= w.mem.records.Keys
  {
  }

  lemma GrowsSelf(cfg: Config, w: World, e: Event)
    ensures Grows(cfg, w, w, e)
  {
  }

  ghost function CountDrop(w: World): World {
    w.(mem := w.mem.(dropped := w.mem.dropped + 1))
  }

  lemma CountDropKeeps(cfg: Config, w: World, w1: World, e: Event)
    requires Logged(cfg, w1) && Grows(cfg, w, w1, e)
    ensures Logged(cfg, CountDrop(w1)) && Grows(cfg, w, CountDrop(w1), e)
    ensures Exact(cfg, w1) ==> Exact(cfg, CountDrop(w1))
  {
  }

  lemma TrimThenSee(cfg: Config, w: World, w1: World, entry: Entry)
    requires Trims(w, w1) && entry.op.EventOp? && entry.op.record.key == Key(cfg, entry.op.record.event)
    requires entry.op.record.key !in w.mem.records
    ensures Grows(cfg, w, w1, entry.op.record.event)
    ensures Grows(cfg, w, Seen(w1, entry), entry.op.record.event)
  {
    assert forall k | k in w.mem.records && Guarded(w.mem.records[k]) :: !Evictable(w.mem.records[k]);
  }

  /** The outcome of storing a new event in a world with room. */
  lemma InsertKeeps(cfg: Config, w: World, e: Event, cursor: nat, alarm: bool, evidence: bool)
    requires Logged(cfg, w) && ValidEvent(cfg.deviceId, e) && Key(cfg, e) !in w.mem.records
    ensures var (w1, res) := Insert(cfg, w, e, cursor, alarm, evidence);
            && Logged(cfg, w1) && Grows(cfg, w, w1, e)
            && !res.Existing?
            && (res.Added? ==> Stored(cfg, w1, e, cursor))
            && (res.Added? && Exact(cfg, w) ==> Exact(cfg, w1))
            && (w.open && res.Refused? ==>
                  res.err in {if e.phase.Update? then ErrUpdateDropped else ErrCapacity, ErrStorage})
  {
    hide Write, Grows, Trims, Key, ValidEvent, ValidRecord, Prepare, Logged, Exact, GoodEvent, Stored;
    Keyed(cfg, w);
    PrepareGood(cfg, w, e, cursor, alarm, evidence);
    var (w0, entry) := Prepare(cfg, w, e, cursor, alarm, evidence);
    WriteKeeps(cfg, w0, entry, e.phase);
    var (w1, st) := Write(cfg, w0, entry, e.phase);
    TrimThenSee(cfg, w0, w1, entry);
    WriteStatus(cfg, w0, entry, e.phase);
    if st == Ok {
      TrimsMem(w0, w1);
      SeenStored(cfg, Seen(w1, entry), entry.op.record);
    } else {
      CountDropKeeps(cfg, w0, w1, e);
    }
  }

  lemma PrepareGood(cfg: Config, w: World, e: Event, cursor: nat, alarm: bool, evidence: bool)
    requires Logged(cfg, w) && ValidEvent(cfg.deviceId, e)
    ensures var (w0, entry) := Prepare(cfg, w, e, cursor, alarm, evidence);
            && GoodEvent(cfg, entry) && Logged(cfg, w0) && (Exact(cfg, w) ==> Exact(cfg, w0))
            && w0.open == w.open && w0.mem.lastAck == w.mem.lastAck && w0.disk == w.disk
            && entry.op.record.event == e && entry.op.record.key == Key(cfg, e)
            && entry.op.record.cursor == cursor && entry.op.nextSN == w0.mem.nextAlarmSN
            && (forall w1 :: Grows(cfg, w0, w1, e) ==> Grows(cfg, w, w1, e))
  {
    var alloc := AllocateAlarmSN(w.mem.nextAlarmSN);
    NewRecordValid(cfg, e, cursor, if alarm then Some(alloc.0) else None, evidence);
  }

  lemma SeenStored(cfg: Config, w: World, r: Record)
    requires Logged(cfg, w) && r.key in w.mem.records && w.mem.records[r.key] == r && r.key == Key(cfg, r.event)
    ensures Stored(cfg, w, r.event, r.cursor)
  {
  }

  lemma TrimsMem(w: World, w1: World)
    requires Trims(w, w1)
    ensures w1.mem.nextAlarmSN == w.mem.nextAlarmSN
  {
  }

  lemma WriteStatus(cfg: Config, w: World, e: Entry, phase: Phase)
    requires SelfKeyed(w.mem.records)
    ensures w.open ==> Write(cfg, w, e, phase).1 in {Ok, ErrCapacity, ErrStorage}
  {
    if w.open { BoundaryStatus(cfg, Append(cfg, w, e).0, e); }
  }

  /** Enqueue never loses waiting work or the cursor, a repeated event changes
      nothing, and a new one is durable before the call returns. */
  lemma EnqueueKeeps(cfg: Config, w: World, e: Event, cursor: nat, alarm: bool, evidence: bool,
                     choice: Option<string>)
    requires Logged(cfg, w) && IsCoalesceChoice(w.mem.records, e, choice)
    ensures var (w1, res) := Enqueue(cfg, w, e, cursor, alarm, evidence, choice);
            && Logged(cfg, w1) && Grows(cfg, w, w1, e)
            && (res.Existing? ==> w1 == w && Key(cfg, e) in w.mem.records)
            && (res.Added? ==> Key(cfg, e) !in w.mem.records && Stored(cfg, w1, e, cursor))
            && (res.Added? && Exact(cfg, w) ==> Exact(cfg, w1))
            && (res == Refused(ErrUpdateDropped) ==> e.phase.Update?) && res != Refused(Ok)
  {
    hide Logged, Exact, Grows, Shrinks, Insert, MakeRoom, Key, ValidEvent, IsCoalesceChoice, Stored;
    Keyed(cfg, w);
    GrowsSelf(cfg, w, e);
    if w.open && ValidEvent(cfg.deviceId, e) && Key(cfg, e) !in w.mem.records {
      MakeRoomKeeps(cfg, w, e, choice);
      var (w1, st) := MakeRoom(cfg, w, e, choice);
      if st == Ok {
        ShrinksOpen(w, w1);
        Keyed(cfg, w1);
        assert Key(cfg, e) !in w1.mem.records;
        InsertKeeps(cfg, w1, e, cursor, alarm, evidence);
        ShrinkThenGrow(cfg, w, w1, Insert(cfg, w1, e, cursor, alarm, evidence).0, e);
      } else {
        GrowsSelf(cfg, w1, e);
        ShrinkThenGrow(cfg, w, w1, w1, e);
      }
    }
  }

  // ---------- marks, acknowledgements, restarts ----------

  /** What a marking call must not be handed, if its entry is to load again: an alarm
      put back to pending needs a serial and a retry time that is not before 1970,
      and an evidence state must be a known one. The source checks none of this. */
  predicate CallerSafe(records: map<string, Record>, c: Call) {
    match c
    case CallAlarmAttempt(k, _, terminal, at) =>
      k in records && !terminal ==> records[k].alarmSN != 0 && (at.Some? ==> at.value >= 0)
    case CallEvidenceAttempt(k, _, terminal, at) => k in records && !terminal && at.Some? ==> at.value >= 0
    case CallEvidenceState(k, state, _) => k in records ==> KnownEvidenceState(state)
    case CallCrash(during, _, _) => CallerSafe(records, during)
    case _ => true
  }

  ghost predicate ChoiceOk(records: map<string, Record>, c: Call) {
    match c
    case CallEnqueue(e, _, _, _, choice) => IsCoalesceChoice(records, e, choice)
    case CallCrash(during, _, _) => ChoiceOk(records, during)
    case _ => true
  }

  lemma MarkApplies(cfg: Config, m: Mem, c: Call)
    requires MemOk(cfg, m) && IsMark(c) && c.key in m.records
    ensures var r := m.records[c.key];
            Apply(cfg, m, Entry(JOURNAL_VERSION, "", MarkOp(r, c)))
            == if CallerSafe(m.records, c) then Some(m.(records := m.records[c.key := MarkedRecord(r, c)])) else None
  {
    var r := m.records[c.key];
    assert ValidRecord(r) && r.key == c.key;
  }

  lemma MarkShape(r: Record, c: Call)
    requires IsMark(c)
    ensures MarkedRecord(r, c).key == r.key && !MarkOp(r, c).Snapshot? && MarkOp(r, c) != Malformed
    ensures MarkOp(r, c).AlarmOp? || MarkOp(r, c).EvidenceOp?
    ensures MarkOp(r, c).key == r.key
  {
  }

  /** A mark that reaches the disk keeps the file loadable exactly when the caller was
      careful; otherwise the next load fails. */
  lemma MarkKeeps(cfg: Config, w: World, c: Call)
    requires Logged(cfg, w) && IsMark(c)
    ensures var (w1, st) := MarkCall(cfg, w, c);
            && (st != Ok || CallerSafe(w.mem.records, c) ==> Logged(cfg, w1) && (Exact(cfg, w) ==> Exact(cfg, w1)))
            && (st == Ok && !CallerSafe(w.mem.records, c) ==> Replay(cfg, w1.disk.log).None?)
  {
    if c.key in w.mem.records {
      var r := w.mem.records[c.key];
      var e := Entry(JOURNAL_VERSION, "", MarkOp(r, c));
      MarkApplies(cfg, w.mem, c);
      MarkShape(r, c);
      hide CallerSafe, MarkOp, MarkedRecord, Logged, Exact, Append, Apply;
      AppendRefines(cfg, w, e);
    }
  }

  lemma AckKeeps(cfg: Config, w: World, cursor: nat)
    requires Logged(cfg, w)
    ensures var (w1, st) := Ack(cfg, w, cursor);
            && Logged(cfg, w1) && (Exact(cfg, w) ==> Exact(cfg, w1))
            && w1.mem.records == w.mem.records && w1.open == w.open
            && w1.mem.lastAck == (if st == Ok && cursor > w.mem.lastAck then cursor else w.mem.lastAck)
  {
    var e := Entry(JOURNAL_VERSION, "", AckOp(cursor));
    AppendRefines(cfg, w, e);
    assert Apply(cfg, w.mem, e).Some?;
  }

  /** A restart on a sealed file finds at least memory's records, and the same cursor. */
  lemma ReopenKeeps(cfg: Config, w: World, faults: seq<bool>)
    requires Recoverable(cfg, w)
    ensures var r := Reopen(cfg, w.disk, faults);
            && r.Some? && Exact(cfg, r.value) && r.value.open && Sealed(r.value.disk)
            && r.value.disk == w.disk && r.value.mem.lastAck == w.mem.lastAck && r.value.faults == faults
            && w.mem.records.Keys <= r.value.mem.records.Keys
            && (forall k | k in w.mem.records :: r.value.mem.records[k] == w.mem.records[k])
            && (forall k | k in r.value.mem.records && k !in w.mem.records :: Evictable(r.value.mem.records[k]))
  {
  }

  predicate Restarts(c: Call) { c.CallReopen? || c.CallCrash? }

  /** What a call loads, if it loads a file, has no two entries on one line. */
  ghost predicate RestartOk(cfg: Config, w: World, c: Call)
    requires SelfKeyed(w.mem.records)
  {
    && (Restarts(c) ==> Sealed(RestartFile(cfg, w, c).value))
    && (c.CallCrash? && Restarts(c.during) ==> Sealed(w.disk))
  }
}
