// When file and memory stay equal: the byte-pressure loop is the one path that can leave
// records in the file which memory has dropped, and this is exactly when it does.
module OutboxExact {
  import opened Common
  import opened EventContract
  import opened OutboxModel
  import opened OutboxSpec
  import opened OutboxProofs
  import opened OutboxCalls

  /** Evicting from `m` to fit an entry of `need` bytes comes to a compaction that fails, by
      size or on the file system, with the record already gone from memory. Each turn that
      does not end the loop compacts twice: after the eviction, and in the append. */
  ghost predicate Trips(cfg: Config, m: Mem, need: nat, faults: seq<bool>)
    requires SelfKeyed(m.records)
    decreases m.records.Keys
  {
    match OldestTerminal(m.records)
    case None => false
    case Some(k) =>
      WithoutKeys(m.records, k);
      var m1 := m.(records := m.records - {k});
      var size := cfg.lineSize(SnapshotEntry(cfg, m1));
      || size > cfg.maxBytes || NextFails(faults)
      || (size + need > cfg.maxBytes && !NextFails(Later(faults)) && Trips(cfg, m1, need, Later(Later(faults))))
  }

  /** What an append leaves in view: the event once it is stored. */
  ghost function After(w: World, st: Status, e: Entry): World
    requires e.op.EventOp?
  {
    if st == Ok then Seen(w, e) else w
  }

  lemma LostInFile(cfg: Config, w: World, k: string, w1: World)
    requires Exact(cfg, w) && k in w.mem.records
    requires w1.disk == w.disk && w1.mem.records == w.mem.records - {k}
    ensures !Exact(cfg, w1)
  {
  }

  lemma LoggedMem(cfg: Config, w: World)
    requires Logged(cfg, w)
    ensures MemOk(cfg, w.mem)
  {
  }

  lemma CompactStatus(cfg: Config, w: World)
    requires SelfKeyed(w.mem.records) && w.open
    ensures Compact(cfg, w).1 ==
            if cfg.lineSize(SnapshotEntry(cfg, w.mem)) > cfg.maxBytes then ErrCapacity
            else if NextFails(w.faults) then ErrStorage else Ok
    ensures Compact(cfg, w).0.mem == w.mem && Compact(cfg, w).0.open
    ensures Compact(cfg, w).1 != Ok ==> Compact(cfg, w).0.disk == w.disk
  {
  }

  /** After a compaction only the two sizes decide whether an entry fits; if it does not, the
      append compacts again. */
  lemma CompactedAppend(cfg: Config, w: World, e: Entry)
    requires MemOk(cfg, w.mem) && w.open && Compact(cfg, w).1 == Ok
    ensures var w1 := Compact(cfg, w).0;
            var full := cfg.lineSize(SnapshotEntry(cfg, w.mem)) + cfg.lineSize(e) > cfg.maxBytes;
            && w1.faults == Later(w.faults)
            && Append(cfg, w1, e).1 == (if !full then Ok else if NextFails(w1.faults) then ErrStorage else ErrCapacity)
            && Append(cfg, w1, e).0.mem == w.mem && Append(cfg, w1, e).0.open
            && (full ==> Append(cfg, w1, e).0.faults == Later(w1.faults))
  {
    ReplayOne(cfg, SnapshotEntry(cfg, w.mem));
    hide Replay, SnapshotEntry;
  }

  /** The loop ends with file and memory equal exactly when it does not trip. */
  lemma {:induction false} BoundaryExact(cfg: Config, w: World, e: Entry)
    requires SelfKeyed(w.mem.records) && Exact(cfg, w) && w.open && GoodEvent(cfg, e)
    ensures var (w1, st) := AppendBoundary(cfg, w, e);
            Exact(cfg, After(w1, st, e)) <==> !Trips(cfg, w.mem, cfg.lineSize(e), w.faults)
    decreases w.mem.records.Keys
  {
    hide Exact, Logged, Append, Compact, GoodEvent, SnapshotEntry, Evictable;
    ExactLogged(cfg, w);
    if OldestTerminal(w.mem.records).Some? {
      var k := OldestTerminal(w.mem.records).value;
      WithoutKeys(w.mem.records, k);
      var w0 := WithRecords(w, w.mem.records - {k});
      CompactStatus(cfg, w0);
      var w1 := BoundaryRound(cfg, w);
      if Compact(cfg, w0).1 == Ok {
        LoggedMem(cfg, w1);
        CompactedAppend(cfg, w0, e);
        AppendEvent(cfg, w1, e);
        if Append(cfg, w1, e).1 == ErrCapacity { BoundaryExact(cfg, Append(cfg, w1, e).0, e); }
      } else {
        LostInFile(cfg, w, k, Compact(cfg, w0).0);
      }
    }
  }

  /** An entry of `need` bytes fits neither behind the file nor behind a snapshot of memory,
      and making room trips. */
  ghost predicate Cornered(cfg: Config, w: World, need: nat)
    requires SelfKeyed(w.mem.records)
  {
    var size := cfg.lineSize(SnapshotEntry(cfg, w.mem));
    && FileSize(cfg, w.disk) + need > cfg.maxBytes
    && if size > cfg.maxBytes then Trips(cfg, w.mem, need, w.faults)
       else size + need > cfg.maxBytes && !NextFails(w.faults) && Trips(cfg, w.mem, need, Later(w.faults))
  }

  lemma AppendFails(cfg: Config, w: World, e: Entry)
    requires Logged(cfg, w) && w.open
    ensures Append(cfg, w, e).1 in {Ok, ErrCapacity, ErrStorage}
    ensures var size := cfg.lineSize(SnapshotEntry(cfg, w.mem));
            && (Append(cfg, w, e).1 == ErrCapacity <==>
                FileSize(cfg, w.disk) + cfg.lineSize(e) > cfg.maxBytes
                && (size > cfg.maxBytes || (size + cfg.lineSize(e) > cfg.maxBytes && !NextFails(w.faults))))
            && (Append(cfg, w, e).1 == ErrCapacity ==>
                  Append(cfg, w, e).0.faults == if size > cfg.maxBytes then w.faults else Later(w.faults))
  {
    ReplayOne(cfg, SnapshotEntry(cfg, w.mem));
    hide Logged, Replay, SnapshotEntry;
  }

  lemma WriteExact(cfg: Config, w: World, e: Entry, phase: Phase)
    requires Exact(cfg, w) && w.open && GoodEvent(cfg, e)
    ensures SelfKeyed(w.mem.records)
    ensures var (w1, st) := Write(cfg, w, e, phase);
            Exact(cfg, After(w1, st, e)) <==> phase.Update? || !Cornered(cfg, w, cfg.lineSize(e))
  {
    Keyed(cfg, w);
    AppendFails(cfg, w, e);
    AppendEvent(cfg, w, e);
    hide Logged, Append, AppendBoundary, Trips, LogSize, SnapshotEntry;
    var (w0, st) := Append(cfg, w, e);
    if st == ErrCapacity && !phase.Update? { BoundaryExact(cfg, w0, e); }
  }

  /** A new START or END, in a world with room for a record, that the bytes corner. */
  ghost predicate CornersInsert(cfg: Config, w: World, e: Event, cursor: nat, alarm: bool, evidence: bool)
    requires SelfKeyed(w.mem.records)
  {
    var (w0, entry) := Prepare(cfg, w, e, cursor, alarm, evidence);
    !e.phase.Update? && Cornered(cfg, w0, cfg.lineSize(entry))
  }

  lemma InsertExact(cfg: Config, w: World, e: Event, cursor: nat, alarm: bool, evidence: bool)
    requires Exact(cfg, w) && w.open && ValidEvent(cfg.deviceId, e) && Key(cfg, e) !in w.mem.records
    ensures SelfKeyed(w.mem.records)
    ensures Exact(cfg, Insert(cfg, w, e, cursor, alarm, evidence).0)
            <==> !CornersInsert(cfg, w, e, cursor, alarm, evidence)
  {
    Keyed(cfg, w);
    PrepareGood(cfg, w, e, cursor, alarm, evidence);
    hide Write, Logged, Key, ValidEvent, ValidRecord, Prepare, Cornered;
    var (w0, entry) := Prepare(cfg, w, e, cursor, alarm, evidence);
    WriteExact(cfg, w0, entry, e.phase);
    WriteKeeps(cfg, w0, entry, e.phase);
    var (w1, st) := Write(cfg, w0, entry, e.phase);
    TrimsMem(w0, w1);
    CountDropExact(cfg, w1);
    hide Exact, GoodEvent;
  }

  lemma CountDropExact(cfg: Config, w: World)
    ensures Exact(cfg, CountDrop(w)) <==> Exact(cfg, w)
  {
  }

  /** The enqueue that leaves records in the file which memory has dropped. */
  ghost predicate CornersEnqueue(cfg: Config, w: World, e: Event, cursor: nat, alarm: bool, evidence: bool,
                                 choice: Option<string>)
    requires SelfKeyed(w.mem.records)
  {
    && w.open && ValidEvent(cfg.deviceId, e) && Key(cfg, e) !in w.mem.records
    && var (w1, st) := MakeRoom(cfg, w, e, choice);
       st == Ok && CornersInsert(cfg, w1, e, cursor, alarm, evidence)
  }

  lemma EnqueueExact(cfg: Config, w: World, e: Event, cursor: nat, alarm: bool, evidence: bool,
                     choice: Option<string>)
    requires Exact(cfg, w) && IsCoalesceChoice(w.mem.records, e, choice)
    ensures SelfKeyed(w.mem.records)
    ensures Exact(cfg, Enqueue(cfg, w, e, cursor, alarm, evidence, choice).0)
            <==> !CornersEnqueue(cfg, w, e, cursor, alarm, evidence, choice)
  {
    Keyed(cfg, w);
    hide Insert, MakeRoom, Key, ValidEvent, IsCoalesceChoice, CornersInsert, Shrinks;
    if w.open && ValidEvent(cfg.deviceId, e) && Key(cfg, e) !in w.mem.records {
      MakeRoomKeeps(cfg, w, e, choice);
      var (w1, st) := MakeRoom(cfg, w, e, choice);
      if st == Ok {
        RoomShape(w, w1, Key(cfg, e));
        InsertExact(cfg, w1, e, cursor, alarm, evidence);
      }
    }
  }

  lemma RoomShape(w: World, w1: World, k: string)
    requires Shrinks(w, w1) && k !in w.mem.records
    ensures w1.open == w.open && k !in w1.mem.records
  {
  }
}
