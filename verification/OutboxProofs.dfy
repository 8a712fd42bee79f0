// What the outbox guarantees over every run: the file always replays to the
// memory map, pressure never removes waiting work, and limits hold.
module OutboxProofs {
  import opened Common
  import opened EventContract
  import opened OutboxModel
  import opened OutboxSpec

  /** Every record sits under its own key and passes the checks of replay. */
  ghost predicate RecordsOk(cfg: Config, records: map<string, Record>) {
    forall k | k in records ::
      records[k].key == k && ValidRecord(records[k]) && KeyMatches(cfg, records[k])
  }

  /** Memory a snapshot of which would load again. */
  ghost predicate MemOk(cfg: Config, m: Mem) {
    RecordsOk(cfg, m.records) && 1 <= m.nextAlarmSN <= MAX_ALARM_SN
  }

  /** Replay gives memory's records and cursor; anything extra on disk is evictable. */
  ghost predicate Agrees(disk: Mem, m: Mem) {
    && disk.lastAck == m.lastAck
    && (forall k | k in m.records :: k in disk.records && disk.records[k] == m.records[k])
    && (forall k | k in disk.records && k !in m.records :: Evictable(disk.records[k]))
  }

  /** Two memories the rest of the run cannot tell apart. */
  ghost predicate Tracks(cfg: Config, d: Mem, m: Mem) {
    MemOk(cfg, d) && MemOk(cfg, m) && Agrees(d, m)
  }

  predicate SeamIn(f: File) { f.seam.Some? ==> f.seam.value < |f.log| }

  /** The entries written to the file replay to memory, and fit. */
  ghost predicate Logged(cfg: Config, w: World) {
    && Replay(cfg, w.disk.log).Some?
    && Tracks(cfg, Replay(cfg, w.disk.log).value, w.mem)
    && FileSize(cfg, w.disk) <= cfg.maxBytes && SeamIn(w.disk)
  }

  /** And a load finds each of them on a line of its own. */
  ghost predicate Recoverable(cfg: Config, w: World) { Logged(cfg, w) && Sealed(w.disk) }

  /** The entries replay to exactly the records in memory. */
  ghost predicate Exact(cfg: Config, w: World) {
    && Logged(cfg, w)
    && Replay(cfg, w.disk.log).value.records == w.mem.records
  }

  lemma Keyed(cfg: Config, w: World)
    requires Logged(cfg, w)
    ensures SelfKeyed(w.mem.records)
  {
  }

  lemma ExactLogged(cfg: Config, w: World)
    ensures Exact(cfg, w) ==> Logged(cfg, w)
  {
  }

  // ---------- one entry ----------

  lemma LoadOne(cfg: Config, r: Record, rs: seq<Record>, acc: map<string, Record>)
    requires ValidRecord(r) && KeyMatches(cfg, r) && r.key !in acc
    ensures LoadRecords(cfg, [r] + rs, acc) == LoadRecords(cfg, rs, acc[r.key := r])
  {
    assert ([r] + rs)[1..] == rs;
  }

  lemma LoadFirst(cfg: Config, records: map<string, Record>, acc: map<string, Record>)
    requires RecordsOk(cfg, records) && records.Keys !! acc.Keys && records != map[]
    ensures var k := First(records);
            LoadRecords(cfg, SnapshotSeq(records), acc)
            == LoadRecords(cfg, SnapshotSeq(records - {k}), acc[k := records[k]])
  {
    var k := First(records);
    LoadOne(cfg, records[k], SnapshotSeq(records - {k}), acc);
  }

  lemma {:induction false} LoadSnapshotSeq(cfg: Config, records: map<string, Record>, acc: map<string, Record>)
    requires RecordsOk(cfg, records) && records.Keys !! acc.Keys
    ensures LoadRecords(cfg, SnapshotSeq(records), acc) == Some(acc + records)
    decreases records.Keys
  {
    if records == map[] {
      assert acc + records == acc;
    } else {
      var k := First(records);
      LoadFirst(cfg, records, acc);
      MoveKey(records, acc, k);
      WithoutKeys(records, k);
      LoadSnapshotSeq(cfg, records - {k}, acc[k := records[k]]);
    }
  }

  /** A snapshot forgets whatever came before it and restores memory exactly. */
  lemma SnapshotRestores(cfg: Config, before: Mem, m: Mem)
    requires MemOk(cfg, m)
    ensures Apply(cfg, before, SnapshotEntry(cfg, m)) == Some(m)
  {
    LoadSnapshotSeq(cfg, m.records, map[]);
    assert map[] + m.records == m.records;
  }

  lemma ReplayOne(cfg: Config, e: Entry)
    ensures Replay(cfg, [e]) == Apply(cfg, EmptyMem, e)
    ensures LogSize(cfg, [e]) == cfg.lineSize(e)
  {
    ReplaySnoc(cfg, [], e);
    assert [] + [e] == [e];
  }

  lemma CompactRestores(cfg: Config, w: World)
    requires MemOk(cfg, w.mem)
    ensures var (w1, st) := Compact(cfg, w);
            && w1.mem == w.mem && w1.open == w.open
            && (if st == Ok then Exact(cfg, w1) && w1.open && w1.disk.seam.None?
                else w1 == w.(faults := w1.faults))
  {
    if Compact(cfg, w).1 == Ok {
      ReplayOne(cfg, SnapshotEntry(cfg, w.mem));
      SnapshotRestores(cfg, EmptyMem, w.mem);
    }
  }

  ghost predicate Moves(cfg: Config, d: Mem, m: Mem, e: Entry) {
    match (Apply(cfg, d, e), Apply(cfg, m, e))
    case (None, None) => true
    case (Some(d1), Some(m1)) => Tracks(cfg, d1, m1) && (d.records == m.records ==> d1.records == m1.records)
    case _ => false
  }

  lemma PutAgrees(cfg: Config, d: Mem, m: Mem, k: string, r: Record)
    requires Tracks(cfg, d, m)
    requires r.key == k && ValidRecord(r) && KeyMatches(cfg, r)
    ensures Tracks(cfg, d.(records := d.records[k := r]), m.(records := m.records[k := r]))
  {
  }

  lemma StateMoves(cfg: Config, d: Mem, m: Mem, e: Entry)
    requires Tracks(cfg, d, m)
    requires (e.op.AlarmOp? || e.op.EvidenceOp?) && e.op.key in m.records
    ensures Moves(cfg, d, m, e)
  {
    var k := e.op.key;
    var r := match e.op
      case AlarmOp(_, state, n, error, at) =>
        m.records[k].(alarmState := state, alarmAttempts := n, alarmLastError := error, alarmNextRetry := at)
      case EvidenceOp(_, state, n, error, at) =>
        m.records[k].(evidenceState := state, evidenceAttempts := n, evidenceError := error, evidenceNextRetry := at);
    assert d.records[k] == m.records[k];
    if ValidRecord(r) { PutAgrees(cfg, d, m, k, r); }
  }

  lemma EventMoves(cfg: Config, d: Mem, m: Mem, e: Entry)
    requires Tracks(cfg, d, m) && e.op.EventOp?
    ensures Moves(cfg, d, m, e)
  {
    if Apply(cfg, m, e).Some? { PutAgrees(cfg, d, m, e.op.record.key, e.op.record); }
  }

  /** An entry acts on the replayed disk as it acts on memory, extras or not. */
  lemma ApplyAgrees(cfg: Config, d: Mem, m: Mem, e: Entry)
    requires Tracks(cfg, d, m)
    requires !e.op.Snapshot?
    requires (e.op.AlarmOp? || e.op.EvidenceOp?) ==> e.op.key in m.records
    ensures Moves(cfg, d, m, e)
  {
    match e.op {
      case EventOp(_, _) => EventMoves(cfg, d, m, e);
      case AlarmOp(_, _, _, _, _) => StateMoves(cfg, d, m, e);
      case EvidenceOp(_, _, _, _, _) => StateMoves(cfg, d, m, e);
      case AckOp(_) =>
      case Malformed =>
    }
  }

  /** Where an append lands: the file as it was, or a fresh snapshot. */
  lemma AppendBase(cfg: Config, w: World, e: Entry) returns (base: World)
    requires Logged(cfg, w) && w.open
    ensures Logged(cfg, base) && base.mem == w.mem && base.open
    ensures Exact(cfg, w) ==> Exact(cfg, base)
    ensures Append(cfg, w, e).1 == Ok <==> FileSize(cfg, base.disk) + cfg.lineSize(e) <= cfg.maxBytes
    ensures Append(cfg, w, e).0 == if Append(cfg, w, e).1 == Ok then Save(base, Extended(base.disk, e)) else base
  {
    CompactRestores(cfg, w);
    base := w;
    if FileSize(cfg, w.disk) + cfg.lineSize(e) > cfg.maxBytes {
      base := Compact(cfg, w).0;
    }
  }

  /** A good entry that is appended moves disk and memory together; one that is
      refused moves neither; one that memory would reject poisons the file. */
  lemma AppendRefines(cfg: Config, w: World, e: Entry)
    requires Logged(cfg, w)
    requires !e.op.Snapshot?
    requires (e.op.AlarmOp? || e.op.EvidenceOp?) ==> e.op.key in w.mem.records
    ensures var (w1, st) := Append(cfg, w, e);
            && w1.mem == w.mem && w1.open == w.open
            && (st != Ok ==> Logged(cfg, w1) && (Exact(cfg, w) ==> Exact(cfg, w1)))
            && (st == Ok && Apply(cfg, w.mem, e).Some? ==>
                  var w2 := w1.(mem := Apply(cfg, w.mem, e).value);
                  Logged(cfg, w2) && (Exact(cfg, w) ==> Exact(cfg, w2)))
            && (st == Ok && Apply(cfg, w.mem, e).None? ==> Replay(cfg, w1.disk.log).None?)
  {
    if w.open {
      var base := AppendBase(cfg, w, e);
      ReplaySnoc(cfg, base.disk.log, e);
      ApplyAgrees(cfg, Replay(cfg, base.disk.log).value, w.mem, e);
    }
  }

  // ---------- eviction ----------

  /** `after` is `before` with some evictable records gone from memory. */
  ghost predicate Trims(before: World, after: World) {
    && after.mem == before.mem.(records := after.mem.records) && after.open == before.open
    && (forall k | k in after.mem.records ::
          k in before.mem.records && after.mem.records[k] == before.mem.records[k])
    && (forall k | k in before.mem.records && !Evictable(before.mem.records[k]) :: k in after.mem.records)
  }

  lemma DropFromMemory(cfg: Config, before: World, after: World)
    requires Logged(cfg, before) && Trims(before, after) && after.disk == before.disk
    ensures Logged(cfg, after)
  {
  }

  /** An event entry that replay accepts. */
  ghost predicate GoodEvent(cfg: Config, e: Entry) {
    && e.op.EventOp? && e.version == JOURNAL_VERSION && e.deviceId == cfg.deviceId
    && ValidRecord(e.op.record) && KeyMatches(cfg, e.op.record)
    && 1 <= e.op.nextSN <= MAX_ALARM_SN
  }

  /** The world once the event it appended is visible in memory. */
  ghost function Seen(w: World, e: Entry): World
    requires e.op.EventOp?
  {
    w.(mem := w.mem.(records := w.mem.records[e.op.record.key := e.op.record], nextAlarmSN := e.op.nextSN))
  }

  lemma AppendEvent(cfg: Config, w: World, e: Entry)
    requires Logged(cfg, w) && GoodEvent(cfg, e)
    ensures var (w1, st) := Append(cfg, w, e);
            && w1.mem == w.mem && w1.open == w.open
            && (if st == Ok then Logged(cfg, Seen(w1, e)) else Logged(cfg, w1))
            && (Exact(cfg, w) ==> if st == Ok then Exact(cfg, Seen(w1, e)) else Exact(cfg, w1))
  {
    AppendRefines(cfg, w, e);
    assert Apply(cfg, w.mem, e) == Some(Seen(w, e).mem);
  }

  /** One turn of the byte-pressure loop: evict, compact, append. */
  lemma BoundaryRound(cfg: Config, w: World) returns (w1: World)
    requires Logged(cfg, w) && OldestTerminal(w.mem.records).Some?
    ensures var w0 := WithRecords(w, w.mem.records - {OldestTerminal(w.mem.records).value});
            && w1 == Compact(cfg, w0).0 && Trims(w, w1) && Logged(cfg, w1)
            && w1.mem.records.Keys < w.mem.records.Keys
            && (Compact(cfg, w0).1 == Ok ==> Exact(cfg, w1))
  {
    var k := OldestTerminal(w.mem.records).value;
    assert Evictable(w.mem.records[k]);
    WithoutKeys(w.mem.records, k);
    var w0 := WithRecords(w, w.mem.records - {k});
    DropFromMemory(cfg, w, w0);
    CompactRestores(cfg, w0);
    w1 := Compact(cfg, w0).0;
  }

  lemma TrimsTransitive(a: World, b: World, c: World)
    requires Trims(a, b) && Trims(b, c)
    ensures Trims(a, c)
  {
  }

  /** Whatever the byte-pressure loop does, waiting records stay and the file still
      replays; when it succeeds the event is on disk and disk equals memory. */
  lemma {:induction false} AppendBoundaryKeeps(cfg: Config, w: World, e: Entry)
    requires Logged(cfg, w) && GoodEvent(cfg, e)
    ensures var (w1, st) := AppendBoundary(cfg, w, e);
            Trims(w, w1) && if st == Ok then Exact(cfg, Seen(w1, e)) else Logged(cfg, w1)
    decreases w.mem.records.Keys
  {
    if OldestTerminal(w.mem.records).Some? {
      var w0 := WithRecords(w, w.mem.records - {OldestTerminal(w.mem.records).value});
      var w1 := BoundaryRound(cfg, w);
      if Compact(cfg, w0).1 == Ok {
        AppendEvent(cfg, w1, e);
        var (w2, st2) := Append(cfg, w1, e);
        if st2 == ErrCapacity {
          AppendBoundaryKeeps(cfg, w2, e);
          TrimsTransitive(w, w2, AppendBoundary(cfg, w2, e).0);
        }
      }
    }
  }

  // ---------- enqueue ----------

  lemma KeyNonempty(cfg: Config, e: Event)
    ensures Key(cfg, e) != ""
  {
    assert '|' in Key(cfg, e);
  }

  lemma NewRecordValid(cfg: Config, e: Event, cursor: nat, sn: Option<nat>, evidence: bool)
    requires ValidEvent(cfg.deviceId, e) && (sn.Some? ==> sn.value > 0)
    ensures var r := NewRecord(cfg, e, cursor, sn, evidence);
            ValidRecord(r) && KeyMatches(cfg, r) && r.key == Key(cfg, e) && r.event == e && r.cursor == cursor
  {
    KeyNonempty(cfg, e);
  }

  /** Refused, or on disk and in memory. */
  lemma WriteKeeps(cfg: Config, w: World, e: Entry, phase: Phase)
    requires Logged(cfg, w) && GoodEvent(cfg, e)
    ensures var (w1, st) := Write(cfg, w, e, phase);
            && Trims(w, w1)
            && (if st == Ok then Logged(cfg, Seen(w1, e)) else Logged(cfg, w1))
            && (st == Ok && Exact(cfg, w) ==> Exact(cfg, Seen(w1, e)))
  {
    AppendEvent(cfg, w, e);
    var (w0, st0) := Append(cfg, w, e);
    if st0 == ErrCapacity && !phase.Update? {
      AppendBoundaryKeeps(cfg, w0, e);
      TrimsTransitive(w, w0, AppendBoundary(cfg, w0, e).0);
    }
  }

  lemma {:induction false} BoundaryStatus(cfg: Config, w: World, e: Entry)
    requires SelfKeyed(w.mem.records) && w.open
    ensures AppendBoundary(cfg, w, e).1 in {Ok, ErrCapacity, ErrStorage}
    decreases w.mem.records.Keys
  {
    if OldestTerminal(w.mem.records).Some? {
      var k := OldestTerminal(w.mem.records).value;
      WithoutKeys(w.mem.records, k);
      var (w1, st) := Compact(cfg, WithRecords(w, w.mem.records - {k}));
      if st == Ok && Append(cfg, w1, e).1 == ErrCapacity { BoundaryStatus(cfg, Append(cfg, w1, e).0, e); }
    }
  }
}
