// Sizes: a journal line never holds less than what it adds to a snapshot, so a snapshot of
// memory with a record gone always fits where the file did, and no eviction is undone by size.
module OutboxSizes {
  import opened Common
  import opened EventContract
  import opened OutboxModel
  import opened OutboxSpec
  import opened OutboxProofs
  import opened OutboxCalls
  import opened OutboxExact

  /** The bytes of one record in a snapshot, its comma included, and those around them all. */
  datatype Encoding = Encoding(head: nat, rec: Record -> nat)

  function Weigh(enc: Encoding, rs: seq<Record>): nat {
    if rs == [] then 0 else enc.rec(rs[0]) + Weigh(enc, rs[1..])
  }

  /** The record with the state that an entry carries. */
  function WithState(r: Record, op: Op): Record
    requires op.AlarmOp? || op.EvidenceOp?
  {
    match op
    case AlarmOp(_, state, n, error, at) =>
      r.(alarmState := state, alarmAttempts := n, alarmLastError := error, alarmNextRetry := at)
    case EvidenceOp(_, state, n, error, at) =>
      r.(evidenceState := state, evidenceAttempts := n, evidenceError := error, evidenceNextRetry := at)
  }

  /** How the JSON lines compare. A snapshot line is its records and a head no longer than
      any one record; an event line holds the record and more; a state line holds the fields
      that it changes. Every line has at least its newline. */
  ghost predicate Plain(cfg: Config, enc: Encoding) {
    && (forall e: Entry | e.op.Snapshot? :: Weigh(enc, e.op.records) + 1 <= cfg.lineSize(e))
    && (forall m: Mem | SelfKeyed(m.records) ::
          cfg.lineSize(SnapshotEntry(cfg, m)) <= enc.head + Weigh(enc, SnapshotSeq(m.records)))
    && (forall e: Entry | e.op.EventOp? :: enc.rec(e.op.record) + 1 <= cfg.lineSize(e))
    && (forall e: Entry | e.op.AckOp? :: 1 <= cfg.lineSize(e))
    && (forall e: Entry, r: Record | (e.op.AlarmOp? || e.op.EvidenceOp?) && e.op.key == r.key ::
          enc.rec(WithState(r, e.op)) + 1 <= enc.rec(r) + cfg.lineSize(e))
    && (forall r: Record | ValidRecord(r) && KeyMatches(cfg, r) :: enc.head <= enc.rec(r))
  }

  // ---------- the records of a map ----------

  ghost function Weight(enc: Encoding, records: map<string, Record>): nat
    requires SelfKeyed(records)
  {
    Weigh(enc, SnapshotSeq(records))
  }

  lemma WeightFirst(enc: Encoding, records: map<string, Record>)
    requires SelfKeyed(records) && records != map[]
    ensures var f := First(records);
            && f in records && SelfKeyed(records - {f})
            && Weight(enc, records) == enc.rec(records[f]) + Weight(enc, records - {f})
  {
    var f := First(records);
    WithoutKeys(records, f);
    var rest := SnapshotSeq(records - {f});
    assert ([records[f]] + rest)[1..] == rest;
  }

  lemma FirstStays(records: map<string, Record>, k: string)
    requires SelfKeyed(records) && k in records && k != First(records)
    ensures SelfKeyed(records - {k}) && records - {k} != map[] && First(records - {k}) == First(records)
  {
    var f := First(records);
    assert f in records - {k};
    assert IsFirst(records - {k}, f);
    FirstUnique(records - {k}, First(records - {k}), f);
  }

  /** The order of a snapshot does not matter for its size. */
  lemma {:induction false} WeightWithout(enc: Encoding, records: map<string, Record>, k: string)
    requires SelfKeyed(records) && k in records
    ensures SelfKeyed(records - {k})
    ensures Weight(enc, records) == enc.rec(records[k]) + Weight(enc, records - {k})
    decreases records.Keys
  {
    hide First, Weight, IsFirst;
    WeightFirst(enc, records);
    var f := First(records);
    if k != f {
      FirstStays(records, k);
      WithoutKeys(records, f);
      WeightWithout(enc, records - {f}, k);
      WeightFirst(enc, records - {k});
      assert records - {k} - {f} == records - {f} - {k};
    }
  }

  lemma WeightPut(enc: Encoding, records: map<string, Record>, r: Record)
    requires SelfKeyed(records)
    ensures SelfKeyed(records[r.key := r])
    ensures Weight(enc, records[r.key := r]) + (if r.key in records then enc.rec(records[r.key]) else 0)
            == Weight(enc, records) + enc.rec(r)
  {
    hide Weight;
    var more := records[r.key := r];
    WeightWithout(enc, more, r.key);
    assert more - {r.key} == records - {r.key};
    if r.key in records { WeightWithout(enc, records, r.key); } else { assert records - {r.key} == records; }
  }

  /** Fewer records weigh no more. */
  lemma {:induction false} WeightWithin(enc: Encoding, a: map<string, Record>, b: map<string, Record>)
    requires SelfKeyed(a) && SelfKeyed(b) && forall k | k in a :: k in b && b[k] == a[k]
    ensures Weight(enc, a) <= Weight(enc, b)
    decreases a.Keys
  {
    hide Weight;
    if a == map[] {
      assert SnapshotSeq(a) == [];
      EmptyWeight(enc);
    } else {
      var k :| k in a;
      WithoutKeys(a, k);
      WeightWithout(enc, a, k);
      WeightWithout(enc, b, k);
      WeightWithin(enc, a - {k}, b - {k});
    }
  }

  lemma EmptyWeight(enc: Encoding)
    ensures Weight(enc, map[]) == 0
  {
  }

  lemma {:induction false} LoadWeight(cfg: Config, enc: Encoding, rs: seq<Record>, acc: map<string, Record>)
    requires SelfKeyed(acc) && LoadRecords(cfg, rs, acc).Some?
    ensures Weight(enc, LoadRecords(cfg, rs, acc).value) == Weight(enc, acc) + Weigh(enc, rs)
  {
    hide Weight, ValidRecord, KeyMatches;
    if rs != [] {
      WeightPut(enc, acc, rs[0]);
      LoadWeight(cfg, enc, rs[1..], acc[rs[0].key := rs[0]]);
    }
  }

  // ---------- the journal ----------

  lemma ApplyWeight(cfg: Config, enc: Encoding, m: Mem, e: Entry)
    requires Plain(cfg, enc) && SelfKeyed(m.records) && Apply(cfg, m, e).Some?
    ensures e.op.Snapshot? ==> Weight(enc, Apply(cfg, m, e).value.records) + 1 <= cfg.lineSize(e)
    ensures !e.op.Snapshot? ==>
              Weight(enc, Apply(cfg, m, e).value.records) + 1 <= Weight(enc, m.records) + cfg.lineSize(e)
  {
    hide Weight, ValidRecord, KeyMatches, LoadRecords;
    match e.op {
      case Snapshot(_, _, _, rs) =>
        LoadWeight(cfg, enc, rs, map[]);
        EmptyWeight(enc);
      case EventOp(r, _) => WeightPut(enc, m.records, r);
      case AckOp(_) =>
      case Malformed =>
      case _ =>
        var r := m.records[e.op.key];
        WeightPut(enc, m.records, WithState(r, e.op));
    }
  }

  /** What the journal replays to is lighter than the journal, by a byte a line. */
  lemma {:induction false} ReplayWeight(cfg: Config, enc: Encoding, log: seq<Entry>)
    requires Plain(cfg, enc) && Replay(cfg, log).Some?
    ensures Weight(enc, Replay(cfg, log).value.records) + |log| <= LogSize(cfg, log)
  {
    hide Weight, Apply, Plain;
    if log == [] {
      EmptyWeight(enc);
    } else {
      var front := log[..|log| - 1];
      ReplayWeight(cfg, enc, front);
      ApplyWeight(cfg, enc, Replay(cfg, front).value, log[|log| - 1]);
    }
  }

  /** So whatever memory a store with a file within the limit holds, it weighs no more. */
  lemma MemoryFits(cfg: Config, enc: Encoding, w: World)
    requires Plain(cfg, enc) && Logged(cfg, w)
    ensures SelfKeyed(w.mem.records) && Weight(enc, w.mem.records) <= FileSize(cfg, w.disk) <= cfg.maxBytes
  {
    hide Weight, Plain, Apply;
    ReplayWeight(cfg, enc, w.disk.log);
    WeightWithin(enc, w.mem.records, Replay(cfg, w.disk.log).value.records);
  }

  /** And its snapshot with a record gone is within the limit. */
  lemma SnapshotFits(cfg: Config, enc: Encoding, m: Mem, k: string)
    requires Plain(cfg, enc) && MemOk(cfg, m) && k in m.records && Weight(enc, m.records) <= cfg.maxBytes
    ensures SelfKeyed(m.records - {k}) && Weight(enc, m.records - {k}) <= cfg.maxBytes
    ensures cfg.lineSize(SnapshotEntry(cfg, m.(records := m.records - {k}))) <= cfg.maxBytes
  {
    hide SnapshotEntry;
    WeightWithout(enc, m.records, k);
    var m1 := m.(records := m.records - {k});
    assert cfg.lineSize(SnapshotEntry(cfg, m1)) <= enc.head + Weight(enc, m1.records);
    assert enc.head <= enc.rec(m.records[k]);
  }

  // ---------- what can trip the byte-pressure loop ----------

  /** Trips, as far as the file system is to blame. */
  ghost predicate FaultTrips(cfg: Config, m: Mem, need: nat, faults: seq<bool>)
    requires SelfKeyed(m.records)
    decreases m.records.Keys
  {
    match OldestTerminal(m.records)
    case None => false
    case Some(k) =>
      WithoutKeys(m.records, k);
      var m1 := m.(records := m.records - {k});
      || NextFails(faults)
      || (cfg.lineSize(SnapshotEntry(cfg, m1)) + need > cfg.maxBytes && !NextFails(Later(faults))
          && FaultTrips(cfg, m1, need, Later(Later(faults))))
  }

  /** It is the file system or nothing. */
  lemma {:induction false} TripsIsFault(cfg: Config, enc: Encoding, m: Mem, need: nat, faults: seq<bool>)
    requires Plain(cfg, enc) && MemOk(cfg, m) && SelfKeyed(m.records) && Weight(enc, m.records) <= cfg.maxBytes
    ensures Trips(cfg, m, need, faults) <==> FaultTrips(cfg, m, need, faults)
    decreases m.records.Keys
  {
    hide Plain, Weight, SnapshotEntry, Evictable;
    if OldestTerminal(m.records).Some? {
      var k := OldestTerminal(m.records).value;
      WithoutKeys(m.records, k);
      SnapshotFits(cfg, enc, m, k);
      TripsIsFault(cfg, enc, m.(records := m.records - {k}), need, Later(Later(faults)));
    }
  }

  /** No compaction to come fails. */
  ghost predicate Reliable(faults: seq<bool>) { forall i | 0 <= i < |faults| :: !faults[i] }

  lemma LaterReliable(faults: seq<bool>)
    requires Reliable(faults)
    ensures Reliable(Later(faults)) && !NextFails(faults)
  {
  }

  lemma {:induction false} ReliableNeverTrips(cfg: Config, m: Mem, need: nat, faults: seq<bool>)
    requires SelfKeyed(m.records) && Reliable(faults)
    ensures !FaultTrips(cfg, m, need, faults)
    decreases m.records.Keys
  {
    hide SnapshotEntry, Evictable;
    LaterReliable(faults);
    LaterReliable(Later(faults));
    if OldestTerminal(m.records).Some? {
      var k := OldestTerminal(m.records).value;
      WithoutKeys(m.records, k);
      ReliableNeverTrips(cfg, m.(records := m.records - {k}), need, Later(Later(faults)));
    }
  }

  // ---------- what stays in store ----------

  lemma CompactReliable(cfg: Config, w: World)
    requires SelfKeyed(w.mem.records) && Reliable(w.faults)
    ensures Reliable(Compact(cfg, w).0.faults) && Compact(cfg, w).0.mem == w.mem
  {
    LaterReliable(w.faults);
    hide SnapshotEntry;
  }

  lemma AppendReliable(cfg: Config, w: World, e: Entry)
    requires SelfKeyed(w.mem.records) && Reliable(w.faults)
    ensures Reliable(Append(cfg, w, e).0.faults) && Append(cfg, w, e).0.mem == w.mem
  {
    hide Compact, LogSize;
    CompactReliable(cfg, w);
  }

  lemma {:induction false} BoundaryReliable(cfg: Config, w: World, e: Entry)
    requires SelfKeyed(w.mem.records) && Reliable(w.faults)
    ensures Reliable(AppendBoundary(cfg, w, e).0.faults)
    decreases w.mem.records.Keys
  {
    hide Compact, Append, Reliable, Evictable;
    if OldestTerminal(w.mem.records).Some? {
      var k := OldestTerminal(w.mem.records).value;
      WithoutKeys(w.mem.records, k);
      var w0 := WithRecords(w, w.mem.records - {k});
      CompactReliable(cfg, w0);
      var (w1, st) := Compact(cfg, w0);
      if st == Ok {
        AppendReliable(cfg, w1, e);
        if Append(cfg, w1, e).1 == ErrCapacity { BoundaryReliable(cfg, Append(cfg, w1, e).0, e); }
      }
    }
  }

  lemma RoomReliable(cfg: Config, w: World, e: Event, choice: Option<string>)
    requires SelfKeyed(w.mem.records) && Reliable(w.faults)
    ensures Reliable(MakeRoom(cfg, w, e, choice).0.faults)
  {
    hide Compact, EvictDown, Reliable, Evictable;
    if e.phase.Update? {
      if choice.Some? { CompactReliable(cfg, WithRecords(w, w.mem.records - {choice.value})); }
    } else {
      EvictDownKeepsKeys(w.mem.records, cfg.maxRecords);
      var rs := EvictDown(w.mem.records, cfg.maxRecords);
      if rs.Some? { CompactReliable(cfg, WithRecords(w, rs.value)); }
    }
  }

  lemma InsertReliable(cfg: Config, w: World, e: Event, cursor: nat, alarm: bool, evidence: bool)
    requires SelfKeyed(w.mem.records) && Reliable(w.faults)
    ensures Reliable(Insert(cfg, w, e, cursor, alarm, evidence).0.faults)
  {
    hide Append, AppendBoundary, Reliable;
    var (w0, entry) := Prepare(cfg, w, e, cursor, alarm, evidence);
    AppendReliable(cfg, w0, entry);
    BoundaryReliable(cfg, Append(cfg, w0, entry).0, entry);
  }

  lemma CompleteReliable(cfg: Config, w: World, c: Call)
    requires SelfKeyed(w.mem.records) && Reliable(w.faults)
    ensures Reliable(Complete(cfg, w, c).0.faults)
  {
    hide Append, MakeRoom, Insert, Reliable, Restart, Key, ValidEvent, MarkOp, MarkedRecord;
    match c {
      case CallEnqueue(e, cursor, alarm, evidence, choice) =>
        RoomReliable(cfg, w, e, choice);
        InsertReliable(cfg, MakeRoom(cfg, w, e, choice).0, e, cursor, alarm, evidence);
      case CallAck(cursor) => AppendReliable(cfg, w, Entry(JOURNAL_VERSION, "", AckOp(cursor)));
      case CallReopen => RestartReliable(cfg, w, w.disk);
      case CallCrash(_, _, _) => RestartReliable(cfg, w, w.disk);
      case _ =>
        if c.key in w.mem.records {
          AppendReliable(cfg, w, Entry(JOURNAL_VERSION, "", MarkOp(w.mem.records[c.key], c)));
        }
    }
  }

  lemma RestartReliable(cfg: Config, w: World, disk: File)
    requires SelfKeyed(w.mem.records) && Reliable(w.faults)
    ensures Reliable(Restart(cfg, w, disk).0.faults)
  {
    hide Compact, Reliable, Found, Replay;
    var w0 := LoadStore(cfg, disk, w.faults);
    if w0.Some? { CompactReliable(cfg, w0.value); }
  }

  /** A call uses up compactions to come and adds none. */
  lemma StepReliable(cfg: Config, w: World, c: Call)
    requires SelfKeyed(w.mem.records) && Reliable(w.faults)
    ensures Reliable(Step(cfg, w, c).0.faults)
  {
    hide Complete, Restart, Reliable, CrashFile;
    if c.CallCrash? {
      CompleteReliable(cfg, Begin(w), c.during);
      var w0 := w.(faults := Complete(cfg, Begin(w), c.during).0.faults);
      RestartReliable(cfg, w0, CrashFile(cfg, w, c.during, c.at, c.cut));
    } else {
      CompleteReliable(cfg, Begin(w), c);
    }
  }
}
