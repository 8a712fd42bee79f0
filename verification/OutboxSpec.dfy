// The outbox operations as functions on memory plus disk. The class in
// OutboxStore.dfy computes these step by step; OutboxProofs.dfy says what they keep.
module OutboxSpec {
  import opened Common
  import opened EventContract
  import opened OutboxModel

  /** The entries written to the file, in order. `seam` is the one entry, if any, whose
      newline a crash cut off: the entry after it shares its line. */
  datatype File = File(log: seq<Entry>, seam: Option<nat>)

  /** Memory of the running store, its file, and whether it is open. `written` lists, in
      order, the files that have replaced `disk` during the current call: with the file the
      call found, all that a crash in the middle of it can leave. `faults` is what the file
      system has in store for the compactions to come, failure or success; those past its
      end succeed. */
  datatype World = World(mem: Mem, disk: File, open: bool, written: seq<File>, faults: seq<bool>)

  datatype Status =
    | Ok | ErrClosed | ErrCapacity | ErrUpdateDropped | ErrInvalidEvent | ErrUnknownKey | ErrStateRequired
    | ErrStorage

  datatype EnqueueResult = Added(record: Record) | Existing(record: Record) | Refused(err: Status)

  /** Neither sink is waiting on this record, so pressure may evict it. */
  predicate Evictable(r: Record) {
    !r.alarmState.Pending? && !r.evidenceState.Pending? && !r.evidenceState.Staging?
  }

  ghost function Terminals(records: map<string, Record>): (t: map<string, Record>)
    ensures SelfKeyed(records) ==> SelfKeyed(t)
  {
    map k | k in records && Evictable(records[k]) :: records[k]
  }

  ghost function OldestTerminal(records: map<string, Record>): Option<string>
    requires SelfKeyed(records)
  {
    var t := Terminals(records);
    if t == map[] then None else Some(First(t))
  }

  ghost function WithRecords(w: World, records: map<string, Record>): World {
    w.(mem := w.mem.(records := records))
  }

  ghost function Save(w: World, file: File): World {
    w.(disk := file, written := w.written + [file])
  }

  // ---------- files ----------

  /** The bytes of the file. */
  function FileSize(cfg: Config, f: File): int {
    LogSize(cfg, f.log) - (if f.seam.Some? then 1 else 0)
  }

  /** One more line behind the file. */
  function Extended(f: File, e: Entry): File { f.(log := f.log + [e]) }

  /** No two entries share a line. */
  predicate Sealed(f: File) { f.seam.Some? ==> f.seam.value + 1 >= |f.log| }

  /** The file a load leaves, if it gets to the end: a last line that holds two entries is
      cut off like a torn one, and with a line behind it the load fails. */
  function Found(f: File): Option<File> {
    if Sealed(f) then Some(f)
    else if f.seam.value + 2 == |f.log| then Some(File(f.log[..f.seam.value], None))
    else None
  }

  /** The next compaction fails: no temporary file, or one that cannot be written, synced,
      closed or renamed. */
  predicate NextFails(faults: seq<bool>) { faults != [] && faults[0] }

  function Later(faults: seq<bool>): seq<bool> { if faults == [] then [] else faults[1..] }

  // ---------- append and compaction ----------

  ghost function SnapshotEntry(cfg: Config, m: Mem): Entry
    requires SelfKeyed(m.records)
  {
    Entry(JOURNAL_VERSION, cfg.deviceId, Snapshot(m.lastAck, m.nextAlarmSN, m.dropped, SnapshotSeq(m.records)))
  }

  /** A compaction that fails leaves the file as it was. */
  ghost function Compact(cfg: Config, w: World): (World, Status)
    requires SelfKeyed(w.mem.records)
  {
    if !w.open then (w, ErrClosed)
    else
      var e := SnapshotEntry(cfg, w.mem);
      if cfg.lineSize(e) > cfg.maxBytes then (w, ErrCapacity)
      else
        var w1 := w.(faults := Later(w.faults));
        if NextFails(w.faults) then (w1, ErrStorage) else (Save(w1, File([e], None)), Ok)
  }

  ghost function Append(cfg: Config, w: World, e: Entry): (World, Status)
    requires SelfKeyed(w.mem.records)
  {
    if !w.open then (w, ErrClosed)
    else if FileSize(cfg, w.disk) + cfg.lineSize(e) <= cfg.maxBytes then (Save(w, Extended(w.disk, e)), Ok)
    else
      var (w1, st) := Compact(cfg, w);
      if st != Ok then (w1, st)
      else if FileSize(cfg, w1.disk) + cfg.lineSize(e) > cfg.maxBytes then (w1, ErrCapacity)
      else (Save(w1, Extended(w1.disk, e)), Ok)
  }

  // ---------- making room ----------

  /** Evict oldest terminal records until fewer than `limit` remain. */
  ghost function EvictDown(records: map<string, Record>, limit: nat): Option<map<string, Record>>
    requires SelfKeyed(records)
    decreases records.Keys
  {
    if |records| < limit then Some(records)
    else
      match OldestTerminal(records)
      case None => None
      case Some(k) => WithoutKeys(records, k); EvictDown(records - {k}, limit)
  }

  ghost predicate IsCoalesceCandidate(records: map<string, Record>, e: Event, k: string) {
    && k in records
    && records[k].event.channelId == e.channelId && records[k].event.eventId == e.eventId
    && records[k].event.phase.Update?
    && !records[k].alarmState.Pending? && !records[k].evidenceState.Pending?
  }

  /** The record an UPDATE may replace: a candidate with the largest cursor. With
      equal cursors the source takes whichever its map iteration meets first. */
  ghost predicate IsCoalesceChoice(records: map<string, Record>, e: Event, choice: Option<string>) {
    match choice
    case None => forall k | k in records :: !IsCoalesceCandidate(records, e, k)
    case Some(c) =>
      && IsCoalesceCandidate(records, e, c)
      && forall k | k in records && IsCoalesceCandidate(records, e, k) :: records[k].cursor <= records[c].cursor
  }

  ghost function Coalesce(cfg: Config, w: World, choice: Option<string>): (World, Status)
    requires SelfKeyed(w.mem.records)
  {
    match choice
    case None => (w.(mem := w.mem.(dropped := w.mem.dropped + 1)), ErrUpdateDropped)
    case Some(c) =>
      var (w1, st) := Compact(cfg, WithRecords(w, w.mem.records - {c}));
      if st == Ok then (w1, Ok) else (w.(faults := w1.faults), st)
  }

  ghost function MakeRoomForBoundary(cfg: Config, w: World): (World, Status)
    requires SelfKeyed(w.mem.records)
    ensures SelfKeyed(MakeRoomForBoundary(cfg, w).0.mem.records)
  {
    match EvictDown(w.mem.records, cfg.maxRecords)
    case None => (w, ErrCapacity)
    case Some(rs) =>
      EvictDownKeepsKeys(w.mem.records, cfg.maxRecords);
      var (w1, st) := Compact(cfg, WithRecords(w, rs));
      if st == Ok then (w1, Ok) else (w.(faults := w1.faults), st)
  }

  lemma {:induction false} EvictDownKeepsKeys(records: map<string, Record>, limit: nat)
    requires SelfKeyed(records)
    ensures match EvictDown(records, limit)
            case None => true
            case Some(rs) =>
              && SelfKeyed(rs) && |rs| < limit && rs.Keys <= records.Keys
              && (forall k | k in rs :: rs[k] == records[k])
              && (forall k | k in records && !Evictable(records[k]) :: k in rs)
    decreases records.Keys
  {
    if |records| >= limit && OldestTerminal(records).Some? {
      var k := OldestTerminal(records).value;
      assert k in records && Evictable(records[k]);
      hide OldestTerminal, Evictable;
      WithoutKeys(records, k);
      EvictDownKeepsKeys(records - {k}, limit);
    }
  }

  ghost function MakeRoom(cfg: Config, w: World, e: Event, choice: Option<string>): (World, Status)
    requires SelfKeyed(w.mem.records)
    ensures SelfKeyed(MakeRoom(cfg, w, e, choice).0.mem.records)
  {
    if |w.mem.records| < cfg.maxRecords then (w, Ok)
    else if e.phase.Update? then Coalesce(cfg, w, choice)
    else MakeRoomForBoundary(cfg, w)
  }

  // ---------- enqueue ----------

  /** The serial a new alarm takes, and the next one. */
  function AllocateAlarmSN(next: nat): (r: (nat, nat))
    ensures 1 <= r.0 <= MAX_ALARM_SN && 1 <= r.1 <= MAX_ALARM_SN && r.0 != r.1
    ensures 1 <= next <= MAX_ALARM_SN ==> r.0 == next
  {
    var sn := if next == 0 || next > MAX_ALARM_SN then 1 else next;
    (sn, if sn + 1 > MAX_ALARM_SN then 1 else sn + 1)
  }

  function NewRecord(cfg: Config, e: Event, cursor: nat, sn: Option<nat>, evidenceEnabled: bool): Record {
    var alarm := if sn.Some? then Pending else Ignored;
    var (state, error) :=
      if !evidenceEnabled then (Disabled, "")
      else if !e.phase.Start? then (Ignored, "only START events upload evidence")
      else if e.evidenceId == "" then (Dead, "event has no evidence_id")
      else (SinkState.Pending, "");
    Record(Key(cfg, e), cursor, e, alarm, state, if sn.Some? then sn.value else 0, 0, "", 0, 0, 0, error)
  }

  /** The byte-pressure path of a START or END: evict one terminal record, compact,
      append, and go round again only when the append still does not fit. */
  ghost function AppendBoundary(cfg: Config, w: World, e: Entry): (r: (World, Status))
    requires SelfKeyed(w.mem.records)
    ensures SelfKeyed(r.0.mem.records)
    decreases w.mem.records.Keys
  {
    match OldestTerminal(w.mem.records)
    case None => (w, ErrCapacity)
    case Some(k) =>
      WithoutKeys(w.mem.records, k);
      var (w1, st) := Compact(cfg, WithRecords(w, w.mem.records - {k}));
      if st != Ok then (w1, st)
      else
        var (w2, st2) := Append(cfg, w1, e);
        if st2 == ErrCapacity then AppendBoundary(cfg, w2, e) else (w2, st2)
  }

  ghost function Write(cfg: Config, w: World, e: Entry, phase: Phase): (World, Status)
    requires SelfKeyed(w.mem.records)
    ensures SelfKeyed(Write(cfg, w, e, phase).0.mem.records)
  {
    var (w1, st) := Append(cfg, w, e);
    if st == ErrCapacity && !phase.Update? then AppendBoundary(cfg, w1, e) else (w1, st)
  }

  /** Take a serial if an alarm is wanted, and build the journal entry. The serial
      stays taken whatever becomes of the entry. */
  ghost function Prepare(cfg: Config, w: World, e: Event, cursor: nat, alarmEnabled: bool,
                         evidenceEnabled: bool): (r: (World, Entry))
    ensures r.1.op.EventOp? && r.0.mem.records == w.mem.records
  {
    var alloc := AllocateAlarmSN(w.mem.nextAlarmSN);
    var next := if alarmEnabled then alloc.1 else w.mem.nextAlarmSN;
    var rec := NewRecord(cfg, e, cursor, if alarmEnabled then Some(alloc.0) else None, evidenceEnabled);
    (w.(mem := w.mem.(nextAlarmSN := next)), Entry(JOURNAL_VERSION, cfg.deviceId, EventOp(rec, next)))
  }

  /** Store the event in a world that already has room for it. */
  ghost function Insert(cfg: Config, w: World, e: Event, cursor: nat, alarmEnabled: bool,
                        evidenceEnabled: bool): (r: (World, EnqueueResult))
    requires SelfKeyed(w.mem.records)
    ensures SelfKeyed(r.0.mem.records)
  {
    var (w0, entry) := Prepare(cfg, w, e, cursor, alarmEnabled, evidenceEnabled);
    var (w1, st) := Write(cfg, w0, entry, e.phase);
    var rec := entry.op.record;
    if st == Ok then (WithRecords(w1, w1.mem.records[rec.key := rec]), Added(rec))
    else if e.phase.Update? && st == ErrCapacity then
      (w1.(mem := w1.mem.(dropped := w1.mem.dropped + 1)), Refused(ErrUpdateDropped))
    else (w1, Refused(st))
  }

  ghost function Enqueue(cfg: Config, w: World, e: Event, cursor: nat, alarmEnabled: bool,
                         evidenceEnabled: bool, choice: Option<string>): (r: (World, EnqueueResult))
    requires SelfKeyed(w.mem.records)
    ensures SelfKeyed(r.0.mem.records)
  {
    if !w.open then (w, Refused(ErrClosed))
    else if !ValidEvent(cfg.deviceId, e) then (w, Refused(ErrInvalidEvent))
    else if Key(cfg, e) in w.mem.records then (w, Existing(w.mem.records[Key(cfg, e)]))
    else
      var (w1, st) := MakeRoom(cfg, w, e, choice);
      if st != Ok then (w1, Refused(st)) else Insert(cfg, w1, e, cursor, alarmEnabled, evidenceEnabled)
  }

  // ---------- acknowledgement and sink state ----------

  ghost function Ack(cfg: Config, w: World, cursor: nat): (r: (World, Status))
    requires SelfKeyed(w.mem.records)
    ensures r.0.mem.records == w.mem.records
  {
    if !w.open then (w, ErrClosed)
    else if cursor <= w.mem.lastAck then (w, Ok)
    else
      var (w1, st) := Append(cfg, w, Entry(JOURNAL_VERSION, "", AckOp(cursor)));
      if st != Ok then (w1, st) else (w1.(mem := w1.mem.(lastAck := cursor)), Ok)
  }

  /** Append one state entry, then show the changed record. */
  ghost function Mark(cfg: Config, w: World, r: Record, op: Op): (World, Status)
    requires SelfKeyed(w.mem.records)
  {
    var (w1, st) := Append(cfg, w, Entry(JOURNAL_VERSION, "", op));
    if st != Ok then (w1, st) else (WithRecords(w1, w1.mem.records[r.key := r]), Ok)
  }

  function AlarmMark(r: Record): Op {
    AlarmOp(r.key, r.alarmState, r.alarmAttempts, r.alarmLastError, r.alarmNextRetry)
  }

  function EvidenceMark(r: Record): Op {
    EvidenceOp(r.key, r.evidenceState, r.evidenceAttempts, r.evidenceError, r.evidenceNextRetry)
  }

  function TrimError(cause: Option<string>): string {
    match cause
    case None => ""
    case Some(text) => if |text| > 512 then text[..512] else text
  }

  /** `retryAt` is None for the zero time, else its Unix nanoseconds, negative before 1970. */
  function AlarmSent(r: Record): Record {
    r.(alarmState := Sent, alarmLastError := "", alarmNextRetry := 0)
  }

  function AlarmAttempt(r: Record, cause: Option<string>, terminal: bool, retryAt: Option<int>): Record {
    r.(alarmAttempts := r.alarmAttempts + 1, alarmLastError := TrimError(cause),
       alarmState := if terminal then Dead else Pending,
       alarmNextRetry := if !terminal && retryAt.Some? then retryAt.value else 0)
  }

  function EvidenceSent(r: Record): Record {
    r.(evidenceState := Sent, evidenceError := "", evidenceNextRetry := 0)
  }

  function EvidenceAttempt(r: Record, cause: Option<string>, terminal: bool, retryAt: Option<int>): Record {
    r.(evidenceAttempts := r.evidenceAttempts + 1, evidenceError := TrimError(cause),
       evidenceState := if terminal then Dead else Pending,
       evidenceNextRetry := if !terminal && retryAt.Some? then retryAt.value else 0)
  }

  function StagingFailure(r: Record, cause: Option<string>, terminal: bool): Record {
    r.(evidenceAttempts := r.evidenceAttempts + 1, evidenceError := TrimError(cause),
       evidenceState := if terminal then Dead else Staging, evidenceNextRetry := 0)
  }

  function EvidenceStateSet(r: Record, state: SinkState, cause: Option<string>): Record {
    r.(evidenceState := state, evidenceError := TrimError(cause))
  }

  // ---------- calls ----------

  datatype Call =
    | CallEnqueue(event: Event, cursor: nat, alarmEnabled: bool, evidenceEnabled: bool, choice: Option<string>)
    | CallAck(cursor: nat)
    | CallAlarmSent(key: string)
    | CallAlarmAttempt(key: string, cause: Option<string>, terminal: bool, retryAt: Option<int>)
    | CallEvidenceSent(key: string)
    | CallEvidenceAttempt(key: string, cause: Option<string>, terminal: bool, retryAt: Option<int>)
    | CallStagingFailure(key: string, cause: Option<string>, terminal: bool)
    | CallEvidenceState(key: string, state: SinkState, cause: Option<string>)
    | CallReopen
    // die inside a call, after its first `at` writes, and restart; `cut` when the last of
    // them got to the disk without its newline
    | CallCrash(during: Call, at: nat, cut: bool)

  predicate IsMark(c: Call) { !c.CallEnqueue? && !c.CallAck? && !c.CallReopen? && !c.CallCrash? }

  /** The record a marking call leaves, when its key is known. */
  function MarkedRecord(r: Record, c: Call): Record
    requires IsMark(c)
  {
    match c
    case CallAlarmSent(_) => AlarmSent(r)
    case CallAlarmAttempt(_, cause, terminal, at) => AlarmAttempt(r, cause, terminal, at)
    case CallEvidenceSent(_) => EvidenceSent(r)
    case CallEvidenceAttempt(_, cause, terminal, at) => EvidenceAttempt(r, cause, terminal, at)
    case CallStagingFailure(_, cause, terminal) => StagingFailure(r, cause, terminal)
    case CallEvidenceState(_, state, cause) => EvidenceStateSet(r, state, cause)
  }

  function MarkOp(r: Record, c: Call): Op
    requires IsMark(c)
  {
    if c.CallAlarmSent? || c.CallAlarmAttempt? then AlarmMark(MarkedRecord(r, c))
    else EvidenceMark(MarkedRecord(r, c))
  }

  ghost function MarkCall(cfg: Config, w: World, c: Call): (r: (World, Status))
    requires SelfKeyed(w.mem.records) && IsMark(c)
    ensures SelfKeyed(r.0.mem.records)
  {
    if c.CallEvidenceState? && c.state == OtherState("") then (w, ErrStateRequired)
    else if c.key !in w.mem.records then (w, ErrUnknownKey)
    else
      var r := w.mem.records[c.key];
      Mark(cfg, w, MarkedRecord(r, c), MarkOp(r, c))
  }

  /** The store on a file that loads. */
  ghost function LoadStore(cfg: Config, disk: File, faults: seq<bool>): (r: Option<World>)
    ensures r.Some? ==> SelfKeyed(r.value.mem.records)
  {
    match Found(disk)
    case None => None
    case Some(f) =>
      match Replay(cfg, f.log)
      case None => None
      case Some(m) => Some(World(m, f, true, [], faults))
  }

  /** Start the store on its file; None when the file does not load, or is over the limit
      and cannot be compacted. */
  ghost function Reopen(cfg: Config, disk: File, faults: seq<bool>): (r: Option<World>)
    ensures r.Some? ==> SelfKeyed(r.value.mem.records)
  {
    match LoadStore(cfg, disk, faults)
    case None => None
    case Some(w) =>
      if FileSize(cfg, w.disk) <= cfg.maxBytes then Some(w)
      else var (w1, st) := Compact(cfg, w); if st == Ok then Some(w1) else None
  }

  /** Start the store on a file, in place of `w`. */
  ghost function Restart(cfg: Config, w: World, disk: File): (r: (World, Status))
    requires SelfKeyed(w.mem.records)
    ensures SelfKeyed(r.0.mem.records)
  {
    match (Reopen(cfg, disk, w.faults), LoadStore(cfg, disk, w.faults))
    case (Some(w1), _) => (w1, Ok)
    case (None, None) => (w.(disk := disk, open := false), ErrClosed)
    case (None, Some(w0)) => (w.(disk := w0.disk, open := false, faults := Compact(cfg, w0).0.faults), ErrClosed)
  }

  /** A call that runs to its end; a crash inside a crash counts as a restart. */
  ghost function Complete(cfg: Config, w: World, c: Call): (r: (World, Status))
    requires SelfKeyed(w.mem.records)
    ensures SelfKeyed(r.0.mem.records)
  {
    match c
    case CallEnqueue(e, cursor, alarm, evidence, choice) =>
      var (w1, res) := Enqueue(cfg, w, e, cursor, alarm, evidence, choice);
      (w1, if res.Refused? then res.err else Ok)
    case CallAck(cursor) => Ack(cfg, w, cursor)
    case CallReopen => Restart(cfg, w, w.disk)
    case CallCrash(_, _, _) => Restart(cfg, w, w.disk)
    case _ => MarkCall(cfg, w, c)
  }

  ghost function Begin(w: World): World { w.(written := []) }

  /** The file after the first `at` writes of a call, or after the last of them. */
  ghost function FileAt(cfg: Config, w: World, c: Call, at: nat): File
    requires SelfKeyed(w.mem.records)
  {
    var files := [w.disk] + Complete(cfg, Begin(w), c).0.written;
    files[if at < |files| then at else |files| - 1]
  }

  /** The file without the newline of the line just appended. A snapshot is put in place as
      a whole, and a line that already holds two entries is no better for a newline. */
  function CutShort(f: File): File {
    if f.log == [] || f.log[|f.log| - 1].op.Snapshot? || f.seam.Some? then f else f.(seam := Some(|f.log| - 1))
  }

  /** What a crash leaves on the disk. */
  ghost function CrashFile(cfg: Config, w: World, c: Call, at: nat, cut: bool): File
    requires SelfKeyed(w.mem.records)
  {
    var f := FileAt(cfg, w, c, at);
    if cut && at > 0 && Complete(cfg, Begin(w), c).0.written != [] then CutShort(f) else f
  }

  /** The file a call restarts from, if it restarts. */
  ghost function RestartFile(cfg: Config, w: World, c: Call): Option<File>
    requires SelfKeyed(w.mem.records)
  {
    match c
    case CallReopen => Some(w.disk)
    case CallCrash(during, at, cut) => Some(CrashFile(cfg, w, during, at, cut))
    case _ => None
  }

  ghost function Step(cfg: Config, w: World, c: Call): (r: (World, Status))
    requires SelfKeyed(w.mem.records)
    ensures SelfKeyed(r.0.mem.records)
  {
    if c.CallCrash? then
      Restart(cfg, w.(faults := Complete(cfg, Begin(w), c.during).0.faults),
              CrashFile(cfg, w, c.during, c.at, c.cut))
    else Complete(cfg, Begin(w), c)
  }
}
