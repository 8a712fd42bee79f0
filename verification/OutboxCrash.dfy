// Crashes in the middle of a call: one call may put several files in place, and each of
// them replays to the memory before the call less records that pressure may take, or is
// the last one.
module OutboxCrash {
  import opened Common
  import opened EventContract
  import opened OutboxModel
  import opened OutboxSpec
  import opened OutboxProofs
  import opened OutboxCalls

  /** `m` is `base` with nothing but unguarded records gone. */
  ghost predicate Less(cfg: Config, base: Mem, m: Mem) {
    && MemOk(cfg, m) && m.lastAck == base.lastAck
    && (forall k | k in m.records :: k in base.records && m.records[k] == base.records[k])
    && KeepsGuarded(base.records, m.records)
  }

  /** The file loads, fits, and replays to `base` less unguarded records. */
  ghost predicate Between(cfg: Config, base: Mem, file: File) {
    && Replay(cfg, file.log).Some? && Less(cfg, base, Replay(cfg, file.log).value)
    && FileSize(cfg, file) <= cfg.maxBytes && SeamIn(file)
  }

  ghost predicate AllBetween(cfg: Config, base: Mem, files: seq<File>) {
    forall i | 0 <= i < |files| :: Between(cfg, base, files[i])
  }

  /** Every file written is such a file or, if the call succeeded, the one now in place. */
  ghost predicate WrittenOk(cfg: Config, base: Mem, w: World, st: Status) {
    forall i | 0 <= i < |w.written| ::
      Between(cfg, base, w.written[i]) || (st == Ok && w.written[i] == w.disk)
  }

  /** Every file written but the last is such a file; the last is in place. */
  ghost predicate EndsInPlace(cfg: Config, base: Mem, w: World) {
    && w.written != [] && w.written[|w.written| - 1] == w.disk
    && AllBetween(cfg, base, w.written[..|w.written| - 1])
  }

  lemma CompactFiles(cfg: Config, base: Mem, w: World)
    requires Less(cfg, base, w.mem) && AllBetween(cfg, base, w.written)
    ensures AllBetween(cfg, base, Compact(cfg, w).0.written)
  {
    CompactRestores(cfg, w);
    hide Less;
  }

  lemma AppendFiles(cfg: Config, base: Mem, w: World, e: Entry)
    requires Less(cfg, base, w.mem) && AllBetween(cfg, base, w.written)
    ensures var (w1, st) := Append(cfg, w, e);
            && w1.mem == w.mem && WrittenOk(cfg, base, w1, st)
            && (st != Ok ==> AllBetween(cfg, base, w1.written))
            && (st == Ok ==> EndsInPlace(cfg, base, w1))
  {
    CompactFiles(cfg, base, w);
    hide Less, Between, FileSize;
  }

  /** Only what a call wrote and whether it succeeded matters. */
  lemma WrittenSame(cfg: Config, base: Mem, w: World, st: Status, w1: World, st1: Status)
    requires w1.written == w.written && w1.disk == w.disk && (st == Ok <==> st1 == Ok)
    ensures WrittenOk(cfg, base, w, st) ==> WrittenOk(cfg, base, w1, st1)
    ensures AllBetween(cfg, base, w.written) ==> WrittenOk(cfg, base, w, st)
  {
    hide Between;
  }

  lemma NothingWritten(cfg: Config, w: World)
    requires Logged(cfg, w)
    ensures SelfKeyed(w.mem.records) && Less(cfg, w.mem, w.mem) && AllBetween(cfg, w.mem, [])
    ensures Logged(cfg, Begin(w))
  {
  }

  lemma LessTrims(cfg: Config, base: Mem, w: World, w1: World)
    requires Less(cfg, base, w.mem) && Trims(w, w1)
    ensures Less(cfg, base, w1.mem)
  {
  }

  lemma {:induction false} BoundaryFiles(cfg: Config, base: Mem, w: World, e: Entry)
    requires Less(cfg, base, w.mem) && AllBetween(cfg, base, w.written)
    ensures var (w1, st) := AppendBoundary(cfg, w, e); WrittenOk(cfg, base, w1, st)
    decreases w.mem.records.Keys
  {
    WrittenSame(cfg, base, w, ErrCapacity, w, ErrCapacity);
    if OldestTerminal(w.mem.records).Some? {
      var k := OldestTerminal(w.mem.records).value;
      WithoutKeys(w.mem.records, k);
      var w0 := WithRecords(w, w.mem.records - {k});
      LessTrims(cfg, base, w, w0);
      hide Less, Between, WrittenOk, AllBetween, Compact, Append;
      CompactFiles(cfg, base, w0);
      var (w1, st) := Compact(cfg, w0);
      WrittenSame(cfg, base, w1, st, w1, st);
      CompactRestores(cfg, w0);
      if st == Ok {
        AppendFiles(cfg, base, w1, e);
        if Append(cfg, w1, e).1 == ErrCapacity { BoundaryFiles(cfg, base, Append(cfg, w1, e).0, e); }
      }
    }
  }

  lemma WriteFiles(cfg: Config, base: Mem, w: World, e: Entry, phase: Phase)
    requires Less(cfg, base, w.mem) && AllBetween(cfg, base, w.written)
    ensures var (w1, st) := Write(cfg, w, e, phase); WrittenOk(cfg, base, w1, st)
  {
    AppendFiles(cfg, base, w, e);
    hide Less, Between, Append;
    var (w0, st) := Append(cfg, w, e);
    if st == ErrCapacity && !phase.Update? { BoundaryFiles(cfg, base, w0, e); }
  }

  lemma LessShrinks(cfg: Config, base: Mem, w: World, w1: World)
    requires Less(cfg, base, w.mem) && Shrinks(w, w1)
    ensures Less(cfg, base, w1.mem)
  {
  }

  lemma CoalesceShrinks(w: World, e: Event, k: string)
    requires IsCoalesceCandidate(w.mem.records, e, k)
    ensures Shrinks(w, WithRecords(w, w.mem.records - {k}))
  {
  }

  lemma CoalesceFiles(cfg: Config, base: Mem, w: World, e: Event, choice: Option<string>)
    requires IsCoalesceChoice(w.mem.records, e, choice)
    requires Less(cfg, base, w.mem) && AllBetween(cfg, base, w.written)
    ensures var w1 := Coalesce(cfg, w, choice).0;
            Less(cfg, base, w1.mem) && AllBetween(cfg, base, w1.written)
  {
    if choice.Some? {
      var w0 := WithRecords(w, w.mem.records - {choice.value});
      CoalesceShrinks(w, e, choice.value);
      hide IsCoalesceChoice, IsCoalesceCandidate, Shrinks, AllBetween;
      LessShrinks(cfg, base, w, w0);
      CompactFiles(cfg, base, w0);
    }
  }

  lemma BoundaryRoomFiles(cfg: Config, base: Mem, w: World)
    requires SelfKeyed(w.mem.records) && Less(cfg, base, w.mem) && AllBetween(cfg, base, w.written)
    ensures var w1 := MakeRoomForBoundary(cfg, w).0;
            Less(cfg, base, w1.mem) && AllBetween(cfg, base, w1.written)
  {
    var rs := EvictDown(w.mem.records, cfg.maxRecords);
    EvictDownKeepsKeys(w.mem.records, cfg.maxRecords);
    hide EvictDown, Less, AllBetween, Between;
    if rs.Some? {
      var w0 := WithRecords(w, rs.value);
      LessShrinks(cfg, base, w, w0);
      CompactFiles(cfg, base, w0);
    }
  }

  lemma MakeRoomFiles(cfg: Config, base: Mem, w: World, e: Event, choice: Option<string>)
    requires SelfKeyed(w.mem.records) && IsCoalesceChoice(w.mem.records, e, choice)
    requires Less(cfg, base, w.mem) && AllBetween(cfg, base, w.written)
    ensures var w1 := MakeRoom(cfg, w, e, choice).0;
            Less(cfg, base, w1.mem) && AllBetween(cfg, base, w1.written)
  {
    hide Less, AllBetween, IsCoalesceChoice, Coalesce, MakeRoomForBoundary;
    if |w.mem.records| >= cfg.maxRecords {
      if e.phase.Update? { CoalesceFiles(cfg, base, w, e, choice); } else { BoundaryRoomFiles(cfg, base, w); }
    }
  }

  lemma LessPrepared(cfg: Config, base: Mem, w: World, e: Event, cursor: nat, alarm: bool, evidence: bool)
    requires Less(cfg, base, w.mem)
    ensures var w0 := Prepare(cfg, w, e, cursor, alarm, evidence).0;
            Less(cfg, base, w0.mem) && w0.written == w.written
  {
  }

  lemma InsertFiles(cfg: Config, base: Mem, w: World, e: Event, cursor: nat, alarm: bool, evidence: bool)
    requires SelfKeyed(w.mem.records) && Less(cfg, base, w.mem) && AllBetween(cfg, base, w.written)
    ensures var (w1, res) := Insert(cfg, w, e, cursor, alarm, evidence);
            WrittenOk(cfg, base, w1, if res.Refused? then res.err else Ok)
  {
    LessPrepared(cfg, base, w, e, cursor, alarm, evidence);
    hide Less, Prepare, Write, WrittenOk, AllBetween;
    var (w0, entry) := Prepare(cfg, w, e, cursor, alarm, evidence);
    WriteFiles(cfg, base, w0, entry, e.phase);
    var ((w1, st), (w2, res)) := (Write(cfg, w0, entry, e.phase), Insert(cfg, w, e, cursor, alarm, evidence));
    WrittenSame(cfg, base, w1, st, w2, if res.Refused? then res.err else Ok);
  }

  /** However many files an enqueue writes, all but the last replay to memory before it
      less unguarded records. */
  lemma EnqueueFiles(cfg: Config, w: World, e: Event, cursor: nat, alarm: bool, evidence: bool,
                     choice: Option<string>)
    requires Logged(cfg, w) && IsCoalesceChoice(w.mem.records, e, choice) && w.written == []
    ensures SelfKeyed(w.mem.records)
    ensures var (w1, res) := Enqueue(cfg, w, e, cursor, alarm, evidence, choice);
            WrittenOk(cfg, w.mem, w1, if res.Refused? then res.err else Ok)
  {
    hide Less, Logged, MakeRoom, Insert, Key, ValidEvent, IsCoalesceChoice, WrittenOk, AllBetween;
    NothingWritten(cfg, w);
    if w.open && ValidEvent(cfg.deviceId, e) && Key(cfg, e) !in w.mem.records {
      MakeRoomFiles(cfg, w.mem, w, e, choice);
      var (w1, st) := MakeRoom(cfg, w, e, choice);
      WrittenSame(cfg, w.mem, w1, st, w1, st);
      InsertFiles(cfg, w.mem, w1, e, cursor, alarm, evidence);
      hide SelfKeyed;
    } else {
      var res := Enqueue(cfg, w, e, cursor, alarm, evidence, choice).1;
      var st := if res.Refused? then res.err else Ok;
      WrittenSame(cfg, w.mem, w, st, w, st);
      hide SelfKeyed;
    }
  }

  /** A mark or acknowledgement: at most a compaction, then its entry. */
  lemma EntryFiles(cfg: Config, w: World, e: Entry)
    requires Logged(cfg, w) && w.written == []
    ensures var (w1, st) := Append(cfg, w, e);
            && WrittenOk(cfg, w.mem, w1, st)
            && (st == Ok ==> EndsInPlace(cfg, w.mem, w1))
  {
    assert Less(cfg, w.mem, w.mem);
    hide Less, Logged, Append, WrittenOk, Between;
    AppendFiles(cfg, w.mem, w, e);
  }

  lemma RestartFiles(cfg: Config, base: Mem, w: World, disk: File)
    requires SelfKeyed(w.mem.records) && w.written == []
    ensures var (w1, st) := Restart(cfg, w, disk); WrittenOk(cfg, base, w1, st)
  {
    hide Between, Replay, SnapshotEntry;
  }

  lemma MarkFiles(cfg: Config, w: World, c: Call)
    requires Logged(cfg, w) && IsMark(c) && w.written == []
    ensures SelfKeyed(w.mem.records)
    ensures var (w1, st) := MarkCall(cfg, w, c);
            WrittenOk(cfg, w.mem, w1, st) && (st == Ok ==> EndsInPlace(cfg, w.mem, w1))
  {
    Keyed(cfg, w);
    hide Logged, Append, Between, MarkOp, MarkedRecord;
    if c.key in w.mem.records {
      EntryFiles(cfg, w, Entry(JOURNAL_VERSION, "", MarkOp(w.mem.records[c.key], c)));
    }
  }

  lemma AckFiles(cfg: Config, w: World, cursor: nat)
    requires Logged(cfg, w) && w.written == []
    ensures SelfKeyed(w.mem.records)
    ensures var (w1, st) := Ack(cfg, w, cursor); WrittenOk(cfg, w.mem, w1, st)
  {
    Keyed(cfg, w);
    hide Logged, Append, Between;
    EntryFiles(cfg, w, Entry(JOURNAL_VERSION, "", AckOp(cursor)));
  }

  /** The files of any call, and for a completed mark the last of them. */
  lemma CallFiles(cfg: Config, w: World, c: Call)
    requires Logged(cfg, w) && ChoiceOk(w.mem.records, c) && w.written == []
    ensures SelfKeyed(w.mem.records)
    ensures var (w1, st) := Complete(cfg, w, c);
            WrittenOk(cfg, w.mem, w1, st) && (IsMark(c) && st == Ok ==> EndsInPlace(cfg, w.mem, w1))
  {
    Keyed(cfg, w);
    hide Logged, Enqueue, IsCoalesceChoice, MarkCall, Ack, Restart, WrittenOk, EndsInPlace;
    match c {
      case CallEnqueue(e, cursor, alarm, evidence, choice) => EnqueueFiles(cfg, w, e, cursor, alarm, evidence, choice);
      case CallAck(cursor) => AckFiles(cfg, w, cursor);
      case CallReopen => RestartFiles(cfg, w.mem, w, w.disk);
      case CallCrash(_, _, _) => RestartFiles(cfg, w.mem, w, w.disk);
      case _ => MarkFiles(cfg, w, c);
    }
  }

  lemma WrittenAt(cfg: Config, base: Mem, w: World, st: Status, i: nat)
    requires WrittenOk(cfg, base, w, st) && i < |w.written|
    ensures Between(cfg, base, w.written[i]) || (st == Ok && w.written[i] == w.disk)
    ensures EndsInPlace(cfg, base, w) ==>
              if i == |w.written| - 1 then w.written[i] == w.disk else Between(cfg, base, w.written[i])
  {
    hide Between;
    if EndsInPlace(cfg, base, w) && i < |w.written| - 1 { assert w.written[..|w.written| - 1][i] == w.written[i]; }
  }

  // ---------- a restart on what a crash left ----------

  /** A mark that its caller should not have made, and that was not refused. */
  ghost predicate Careless(cfg: Config, w: World, c: Call)
    requires SelfKeyed(w.mem.records)
  {
    IsMark(c) && !CallerSafe(w.mem.records, c) && Complete(cfg, Begin(w), c).1 == Ok
  }

  /** The file still replays after a completed call exactly when that was no such mark. */
  lemma CompleteKeeps(cfg: Config, w: World, c: Call)
    requires Logged(cfg, w) && ChoiceOk(w.mem.records, c) && (Restarts(c) ==> Sealed(w.disk))
    ensures SelfKeyed(w.mem.records)
    ensures Logged(cfg, Complete(cfg, Begin(w), c).0) <==> !Careless(cfg, w, c)
    ensures Careless(cfg, w, c) ==> Replay(cfg, Complete(cfg, Begin(w), c).0.disk.log).None?
  {
    var w0 := Begin(w);
    assert Logged(cfg, w0);
    match c {
      case CallEnqueue(e, cursor, alarm, evidence, choice) => EnqueueKeeps(cfg, w0, e, cursor, alarm, evidence, choice);
      case CallAck(cursor) => AckKeeps(cfg, w0, cursor);
      case CallReopen => ReopenKeeps(cfg, w0, w0.faults);
      case CallCrash(_, _, _) => ReopenKeeps(cfg, w0, w0.faults);
      case _ => MarkKeeps(cfg, w0, c);
    }
  }

  /** The careless mark reached the file before the crash. */
  ghost predicate Poisoned(cfg: Config, w: World, c: Call, at: nat)
    requires SelfKeyed(w.mem.records)
  {
    Careless(cfg, w, c) && at >= |Complete(cfg, Begin(w), c).0.written|
  }

  /** What a crash finds: a file that does not load, if a careless mark reached it; else the
      file of a world `via` that is the one before the call, the one after it, or the one
      before it less unguarded records. */
  lemma FileAtIs(cfg: Config, w: World, c: Call, at: nat) returns (via: World)
    requires Logged(cfg, w) && ChoiceOk(w.mem.records, c) && (Restarts(c) ==> Sealed(w.disk))
    ensures SelfKeyed(w.mem.records)
    ensures Poisoned(cfg, w, c, at) ==> Replay(cfg, FileAt(cfg, w, c, at).log).None?
    ensures !Poisoned(cfg, w, c, at) ==>
              && Logged(cfg, via) && via.disk == FileAt(cfg, w, c, at)
              && (via == w || (Less(cfg, w.mem, via.mem) && Exact(cfg, via))
                  || (via == Complete(cfg, Begin(w), c).0 && Complete(cfg, Begin(w), c).1 == Ok))
  {
    hide Complete, Logged, WrittenOk, AllBetween, CallerSafe, ChoiceOk, Between, Less;
    NothingWritten(cfg, w);
    CompleteKeeps(cfg, w, c);
    CallFiles(cfg, Begin(w), c);
    var (w1, st) := Complete(cfg, Begin(w), c);
    var n := FilePicked(cfg, w, c, at);
    hide FileAt;
    if n == 0 {
      via := w;
    } else {
      WrittenAt(cfg, w.mem, w1, st, n - 1);
      if st == Ok && w1.written[n - 1] == w1.disk && (IsMark(c) ==> n == |w1.written|) {
        via := w1;
      } else {
        via := BetweenWorld(cfg, w.mem, w1.written[n - 1]);
      }
    }
  }

  lemma FilePicked(cfg: Config, w: World, c: Call, at: nat) returns (n: nat)
    requires SelfKeyed(w.mem.records)
    ensures var files := Complete(cfg, Begin(w), c).0.written;
            && n == (if at < |files| then at else |files|)
            && FileAt(cfg, w, c, at) == (if n == 0 then w.disk else files[n - 1])
  {
    hide Complete;
    var files := Complete(cfg, Begin(w), c).0.written;
    n := if at < |files| then at else |files|;
    assert forall i | 0 < i < |[w.disk] + files| :: ([w.disk] + files)[i] == files[i - 1];
  }

  lemma BetweenWorld(cfg: Config, base: Mem, file: File) returns (via: World)
    requires Between(cfg, base, file)
    ensures Exact(cfg, via) && Logged(cfg, via) && Less(cfg, base, via.mem)
    ensures via.disk == file && Replay(cfg, file.log).Some?
  {
    via := World(Replay(cfg, file.log).value, file, true, [], []);
  }

  /** The same memory, and the same entries in the file. */
  ghost predicate SameState(a: World, b: World) { a.mem == b.mem && a.disk.log == b.disk.log }

  lemma SameStateExact(cfg: Config, a: World, b: World)
    requires SameState(a, b) && Logged(cfg, a) && Exact(cfg, b)
    ensures Exact(cfg, a)
  {
  }

  /** The file without its last newline is no longer, and holds the same entries. */
  lemma CutLogged(cfg: Config, w: World, f: File)
    requires Logged(cfg, w) && f in {w.disk, CutShort(w.disk)}
    ensures Logged(cfg, w.(disk := f)) && f.log == w.disk.log
    ensures Exact(cfg, w) ==> Exact(cfg, w.(disk := f))
  {
  }

  /** The same for the file a crash leaves, whether or not it lost its last newline. */
  lemma CrashFileIs(cfg: Config, w: World, c: Call, at: nat, cut: bool) returns (via: World)
    requires Logged(cfg, w) && ChoiceOk(w.mem.records, c) && (Restarts(c) ==> Sealed(w.disk))
    ensures SelfKeyed(w.mem.records)
    ensures Poisoned(cfg, w, c, at) ==> Replay(cfg, CrashFile(cfg, w, c, at, cut).log).None?
    ensures !Poisoned(cfg, w, c, at) ==>
              && Logged(cfg, via) && via.disk == CrashFile(cfg, w, c, at, cut)
              && (SameState(via, w) || (Less(cfg, w.mem, via.mem) && Exact(cfg, via))
                  || (SameState(via, Complete(cfg, Begin(w), c).0) && Complete(cfg, Begin(w), c).1 == Ok))
  {
    hide Complete, Poisoned, Less, Exact, Logged, FileAt, ChoiceOk;
    var whole := FileAtIs(cfg, w, c, at);
    var f := CrashFile(cfg, w, c, at, cut);
    via := whole.(disk := f);
    if !Poisoned(cfg, w, c, at) { CutLogged(cfg, whole, f); }
  }
}
