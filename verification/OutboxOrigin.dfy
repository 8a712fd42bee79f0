// Where the outbox's records come from: no call and no crash puts anything in memory or in
// the file but what was in the file before and the event being stored.
module OutboxOrigin {
  import opened Common
  import opened EventContract
  import opened OutboxModel
  import opened OutboxSpec
  import opened OutboxProofs
  import opened OutboxCalls
  import opened OutboxCrash
  import opened OutboxRuns

  /** An event under its key with its cursor. */
  datatype Held = Held(key: string, event: Event, cursor: nat)

  ghost predicate RecordsFrom(p: set<Held>, records: map<string, Record>) {
    forall k | k in records :: Held(k, records[k].event, records[k].cursor) in p
  }

  ghost predicate FileFrom(cfg: Config, p: set<Held>, file: File) {
    Replay(cfg, file.log).Some? ==> RecordsFrom(p, Replay(cfg, file.log).value.records)
  }

  /** Memory, the file and every file written hold nothing outside `p`. */
  ghost predicate From(cfg: Config, p: set<Held>, w: World) {
    && RecordsFrom(p, w.mem.records) && FileFrom(cfg, p, w.disk)
    && forall i | 0 <= i < |w.written| :: FileFrom(cfg, p, w.written[i])
  }

  lemma SaveFrom(cfg: Config, p: set<Held>, w: World, file: File)
    requires From(cfg, p, w) && FileFrom(cfg, p, file)
    ensures From(cfg, p, Save(w, file))
  {
    hide FileFrom;
  }

  lemma CompactFrom(cfg: Config, p: set<Held>, w: World)
    requires MemOk(cfg, w.mem) && From(cfg, p, w)
    ensures From(cfg, p, Compact(cfg, w).0)
  {
    hide From, Replay, SnapshotEntry;
    var e := SnapshotEntry(cfg, w.mem);
    var w1 := w.(faults := Later(w.faults));
    FaultsFrom(cfg, p, w, Later(w.faults));
    SnapshotFileFrom(cfg, p, w);
    SaveFrom(cfg, p, w1, File([e], None));
  }

  lemma FaultsFrom(cfg: Config, p: set<Held>, w: World, faults: seq<bool>)
    requires From(cfg, p, w)
    ensures From(cfg, p, w.(faults := faults))
  {
    hide FileFrom;
  }

  lemma SnapshotFileFrom(cfg: Config, p: set<Held>, w: World)
    requires MemOk(cfg, w.mem) && From(cfg, p, w)
    ensures SelfKeyed(w.mem.records) && FileFrom(cfg, p, File([SnapshotEntry(cfg, w.mem)], None))
  {
    ReplayOne(cfg, SnapshotEntry(cfg, w.mem));
    SnapshotRestores(cfg, EmptyMem, w.mem);
    hide Replay, SnapshotEntry;
  }

  lemma FromMem(cfg: Config, p: set<Held>, w: World)
    requires From(cfg, p, w)
    ensures RecordsFrom(p, w.mem.records) && FileFrom(cfg, p, w.disk)
  {
  }

  /** An entry brings in its own event and no other. */
  ghost predicate EntryFrom(p: set<Held>, e: Entry) {
    && !e.op.Snapshot?
    && (e.op.EventOp? ==> Held(e.op.record.key, e.op.record.event, e.op.record.cursor) in p)
  }

  lemma ApplyFrom(cfg: Config, p: set<Held>, m: Mem, e: Entry)
    requires RecordsFrom(p, m.records) && EntryFrom(p, e) && Apply(cfg, m, e).Some?
    ensures RecordsFrom(p, Apply(cfg, m, e).value.records)
  {
  }

  lemma EntryFileFrom(cfg: Config, p: set<Held>, file: File, e: Entry)
    requires FileFrom(cfg, p, file) && EntryFrom(p, e)
    ensures FileFrom(cfg, p, Extended(file, e))
  {
    ReplaySnoc(cfg, file.log, e);
    if Replay(cfg, file.log + [e]).Some? { ApplyFrom(cfg, p, Replay(cfg, file.log).value, e); }
  }

  lemma AppendFrom(cfg: Config, p: set<Held>, w: World, e: Entry)
    requires MemOk(cfg, w.mem) && From(cfg, p, w) && EntryFrom(p, e)
    ensures From(cfg, p, Append(cfg, w, e).0) && Append(cfg, w, e).0.mem == w.mem
  {
    hide From, FileFrom, EntryFrom, FileSize, SnapshotEntry, Extended;
    CompactFrom(cfg, p, w);
    var w1 := if FileSize(cfg, w.disk) + cfg.lineSize(e) <= cfg.maxBytes then w else Compact(cfg, w).0;
    FromMem(cfg, p, w1);
    EntryFileFrom(cfg, p, w1.disk, e);
    SaveFrom(cfg, p, w1, Extended(w1.disk, e));
  }

  lemma LessFrom(cfg: Config, p: set<Held>, w: World, m: Mem)
    requires From(cfg, p, w) && forall k | k in m.records :: k in w.mem.records && m.records[k] == w.mem.records[k]
    ensures From(cfg, p, w.(mem := m))
  {
    hide FileFrom;
  }

  lemma ShrunkFrom(cfg: Config, p: set<Held>, w: World, records: map<string, Record>)
    requires MemOk(cfg, w.mem) && From(cfg, p, w)
    requires forall k | k in records :: k in w.mem.records && records[k] == w.mem.records[k]
    ensures SelfKeyed(records) && MemOk(cfg, WithRecords(w, records).mem)
    ensures From(cfg, p, Compact(cfg, WithRecords(w, records)).0)
    ensures Compact(cfg, WithRecords(w, records)).0.mem == WithRecords(w, records).mem
  {
    LessFrom(cfg, p, w, w.mem.(records := records));
    hide From;
    CompactFrom(cfg, p, WithRecords(w, records));
  }

  lemma {:induction false} BoundaryFrom(cfg: Config, p: set<Held>, w: World, e: Entry)
    requires MemOk(cfg, w.mem) && From(cfg, p, w) && EntryFrom(p, e)
    ensures From(cfg, p, AppendBoundary(cfg, w, e).0)
    decreases w.mem.records.Keys
  {
    hide From, EntryFrom, Append, Compact, Evictable;
    if OldestTerminal(w.mem.records).Some? {
      var k := OldestTerminal(w.mem.records).value;
      WithoutKeys(w.mem.records, k);
      var w0 := WithRecords(w, w.mem.records - {k});
      ShrunkFrom(cfg, p, w, w.mem.records - {k});
      var (w1, st) := Compact(cfg, w0);
      if st == Ok {
        AppendFrom(cfg, p, w1, e);
        if Append(cfg, w1, e).1 == ErrCapacity { BoundaryFrom(cfg, p, Append(cfg, w1, e).0, e); }
      }
    }
  }

  lemma WriteFrom(cfg: Config, p: set<Held>, w: World, e: Entry, phase: Phase)
    requires MemOk(cfg, w.mem) && From(cfg, p, w) && EntryFrom(p, e)
    ensures From(cfg, p, Write(cfg, w, e, phase).0)
  {
    hide From, EntryFrom, Append;
    AppendFrom(cfg, p, w, e);
    var (w1, st) := Append(cfg, w, e);
    if st == ErrCapacity && !phase.Update? { BoundaryFrom(cfg, p, w1, e); }
  }

  lemma CoalesceFrom(cfg: Config, p: set<Held>, w: World, choice: Option<string>)
    requires MemOk(cfg, w.mem) && From(cfg, p, w)
    ensures From(cfg, p, Coalesce(cfg, w, choice).0)
  {
    LessFrom(cfg, p, w, w.mem.(dropped := w.mem.dropped + 1));
    hide From, Compact;
    if choice.Some? { ShrunkFrom(cfg, p, w, w.mem.records - {choice.value}); }
  }

  lemma BoundaryRoomFrom(cfg: Config, p: set<Held>, w: World)
    requires MemOk(cfg, w.mem) && From(cfg, p, w)
    ensures From(cfg, p, MakeRoomForBoundary(cfg, w).0)
  {
    hide From, EvictDown, Compact, Evictable;
    EvictDownKeepsKeys(w.mem.records, cfg.maxRecords);
    var rs := EvictDown(w.mem.records, cfg.maxRecords);
    if rs.Some? {
      ShrunkFrom(cfg, p, w, rs.value);
      FaultsFrom(cfg, p, w, Compact(cfg, WithRecords(w, rs.value)).0.faults);
    }
  }

  lemma RoomFrom(cfg: Config, p: set<Held>, w: World, e: Event, choice: Option<string>)
    requires MemOk(cfg, w.mem) && From(cfg, p, w)
    ensures From(cfg, p, MakeRoom(cfg, w, e, choice).0)
  {
    hide From, Coalesce, MakeRoomForBoundary;
    CoalesceFrom(cfg, p, w, choice);
    BoundaryRoomFrom(cfg, p, w);
  }

  lemma InsertFrom(cfg: Config, p: set<Held>, w: World, e: Event, cursor: nat, alarm: bool, evidence: bool)
    requires Logged(cfg, w) && ValidEvent(cfg.deviceId, e) && From(cfg, p, w)
    requires Held(Key(cfg, e), e, cursor) in p
    ensures SelfKeyed(w.mem.records)
    ensures From(cfg, p, Insert(cfg, w, e, cursor, alarm, evidence).0)
  {
    Keyed(cfg, w);
    PrepareGood(cfg, w, e, cursor, alarm, evidence);
    var (w0, entry) := Prepare(cfg, w, e, cursor, alarm, evidence);
    LessFrom(cfg, p, w, w0.mem);
    assert EntryFrom(p, entry) && MemOk(cfg, w0.mem);
    hide From, EntryFrom, Write, Logged, Key, ValidEvent, GoodEvent;
    WriteFrom(cfg, p, w0, entry, e.phase);
    var (w1, st) := Write(cfg, w0, entry, e.phase);
    StoredFrom(cfg, p, w1, entry.op.record);
    LessFrom(cfg, p, w1, w1.mem.(dropped := w1.mem.dropped + 1));
  }

  lemma StoredFrom(cfg: Config, p: set<Held>, w: World, r: Record)
    requires From(cfg, p, w) && Held(r.key, r.event, r.cursor) in p
    ensures From(cfg, p, WithRecords(w, w.mem.records[r.key := r]))
  {
    hide FileFrom;
  }

  /** The event that a call would store is in `p`. */
  ghost predicate BringsFrom(cfg: Config, p: set<Held>, c: Call) {
    var d := if c.CallCrash? then c.during else c;
    d.CallEnqueue? ==> Held(Key(cfg, d.event), d.event, d.cursor) in p
  }

  lemma EnqueueFrom(cfg: Config, p: set<Held>, w: World, e: Event, cursor: nat, alarm: bool, evidence: bool,
                    choice: Option<string>)
    requires Logged(cfg, w) && IsCoalesceChoice(w.mem.records, e, choice) && From(cfg, p, w)
    requires Held(Key(cfg, e), e, cursor) in p
    ensures SelfKeyed(w.mem.records)
    ensures From(cfg, p, Enqueue(cfg, w, e, cursor, alarm, evidence, choice).0)
  {
    Keyed(cfg, w);
    assert MemOk(cfg, w.mem);
    hide From, Logged, MakeRoom, Insert, Key, ValidEvent, IsCoalesceChoice;
    if w.open && ValidEvent(cfg.deviceId, e) && Key(cfg, e) !in w.mem.records {
      RoomFrom(cfg, p, w, e, choice);
      MakeRoomKeeps(cfg, w, e, choice);
      InsertFrom(cfg, p, MakeRoom(cfg, w, e, choice).0, e, cursor, alarm, evidence);
    }
  }

  lemma MarkFrom(cfg: Config, p: set<Held>, w: World, c: Call)
    requires Logged(cfg, w) && IsMark(c) && From(cfg, p, w)
    ensures SelfKeyed(w.mem.records)
    ensures From(cfg, p, MarkCall(cfg, w, c).0)
  {
    Keyed(cfg, w);
    assert MemOk(cfg, w.mem);
    hide Logged, Append, From, FileFrom, TrimError;
    if c.key in w.mem.records {
      var r := w.mem.records[c.key];
      MarkShape(r, c);
      var e := Entry(JOURNAL_VERSION, "", MarkOp(r, c));
      FromMem(cfg, p, w);
      var m := MarkedRecord(r, c);
      assert m.event == r.event && m.cursor == r.cursor;
      hide MarkOp, MarkedRecord;
      AppendFrom(cfg, p, w, e);
      StoredFrom(cfg, p, Append(cfg, w, e).0, m);
    }
  }

  lemma AckFrom(cfg: Config, p: set<Held>, w: World, cursor: nat)
    requires Logged(cfg, w) && From(cfg, p, w)
    ensures SelfKeyed(w.mem.records)
    ensures From(cfg, p, Ack(cfg, w, cursor).0)
  {
    Keyed(cfg, w);
    assert MemOk(cfg, w.mem);
    hide Logged, Append, From;
    var e := Entry(JOURNAL_VERSION, "", AckOp(cursor));
    AppendFrom(cfg, p, w, e);
    LessFrom(cfg, p, Append(cfg, w, e).0, w.mem.(lastAck := cursor));
  }

  lemma RestartFrom(cfg: Config, p: set<Held>, w: World, via: World)
    requires SelfKeyed(w.mem.records) && Recoverable(cfg, via) && FileFrom(cfg, p, via.disk)
    ensures From(cfg, p, Restart(cfg, w, via.disk).0)
  {
    ReopenKeeps(cfg, via, w.faults);
    hide FileFrom;
    FileMem(cfg, p, via);
  }

  lemma FileMem(cfg: Config, p: set<Held>, w: World)
    requires FileFrom(cfg, p, w.disk)
    ensures Replay(cfg, w.disk.log).Some? ==> RecordsFrom(p, Replay(cfg, w.disk.log).value.records)
  {
  }

  lemma CompleteFrom(cfg: Config, p: set<Held>, w: World, c: Call)
    requires Logged(cfg, w) && ChoiceOk(w.mem.records, c) && (Restarts(c) ==> Sealed(w.disk)) && From(cfg, p, w)
    requires c.CallEnqueue? ==> Held(Key(cfg, c.event), c.event, c.cursor) in p
    ensures SelfKeyed(w.mem.records)
    ensures From(cfg, p, Complete(cfg, w, c).0)
  {
    Keyed(cfg, w);
    FromMem(cfg, p, w);
    hide Logged, From, FileFrom, Enqueue, Ack, MarkCall, Restart, Key, IsCoalesceChoice;
    match c {
      case CallEnqueue(e, cursor, alarm, evidence, choice) =>
        EnqueueFrom(cfg, p, w, e, cursor, alarm, evidence, choice);
      case CallAck(cursor) => AckFrom(cfg, p, w, cursor);
      case CallReopen => RestartFrom(cfg, p, w, w);
      case CallCrash(_, _, _) => RestartFrom(cfg, p, w, w);
      case _ => MarkFrom(cfg, p, w, c);
    }
  }

  /** Completed or crashed anywhere, a call keeps to `p`. */
  lemma StepFrom(cfg: Config, p: set<Held>, w: World, c: Call)
    requires Logged(cfg, w) && SelfKeyed(w.mem.records) && CareTaken(cfg, w, c)
    requires FileFrom(cfg, p, w.disk) && BringsFrom(cfg, p, c)
    ensures From(cfg, p, Step(cfg, w, c).0)
  {
    hide Logged, From, FileFrom, Complete, Restart, Key, IsCoalesceChoice, CallerSafe, Less, CrashFile;
    DiskCovers(cfg, p, w);
    CompleteRestarts(cfg, w, c);
    if c.CallCrash? {
      CompleteFrom(cfg, p, Begin(w), c.during);
      var via := CrashStep(cfg, w, c);
      PickedFrom(cfg, p, w, c.during, c.at, c.cut);
      RestartFrom(cfg, p, Crashed(cfg, w, c), via);
    } else {
      CompleteFrom(cfg, p, Begin(w), c);
    }
  }

  lemma DiskCovers(cfg: Config, p: set<Held>, w: World)
    requires Logged(cfg, w) && FileFrom(cfg, p, w.disk)
    ensures From(cfg, p, Begin(w)) && Logged(cfg, Begin(w)) && SelfKeyed(w.mem.records)
  {
  }

  lemma PickedFrom(cfg: Config, p: set<Held>, w: World, c: Call, at: nat, cut: bool)
    requires SelfKeyed(w.mem.records) && FileFrom(cfg, p, w.disk)
    requires From(cfg, p, Complete(cfg, Begin(w), c).0)
    ensures FileFrom(cfg, p, CrashFile(cfg, w, c, at, cut))
  {
    hide FileFrom, Complete, FileAt;
    var n := FilePicked(cfg, w, c, at);
    CutFrom(cfg, p, FileAt(cfg, w, c, at));
  }

  lemma CutFrom(cfg: Config, p: set<Held>, f: File)
    requires FileFrom(cfg, p, f)
    ensures FileFrom(cfg, p, CutShort(f))
  {
  }
}
