// Three short runs that show where the outbox's guarantees stop: an enqueue that takes an
// UPDATE waiting for staging; an END refused because a compaction failed, which leaves in
// the file a record memory has dropped, so that a restart exceeds the record limit; and a
// crash that takes a newline, after which the store runs on and never starts again.
module OutboxExamples {
  import opened Common
  import opened EventContract
  import opened OutboxModel
  import opened OutboxSpec
  import opened OutboxProofs
  import opened OutboxCalls
  import opened OutboxExact
  import opened OutboxSizes
  import opened OutboxRuns
  import opened OutboxPressure
  import opened OutboxSeam

  function Ev(phase: Phase, n: nat, body: string): Event { Event("e", "c", phase, n, "", body) }

  function Enq(e: Event, cursor: nat, choice: Option<string>): Call {
    CallEnqueue(e, cursor, false, false, choice)
  }

  // ---------- steps ----------

  lemma RunSnoc(cfg: Config, w: World, cs: seq<Call>, c: Call)
    requires SelfKeyed(w.mem.records)
    ensures Run(cfg, w, cs + [c]) == Step(cfg, Run(cfg, w, cs), c).0
    ensures var before := Run(cfg, w, cs);
            Careful(cfg, w, cs + [c]) <==> Careful(cfg, w, cs) && CareTaken(cfg, before, c)
  {
    assert (cs + [c])[..|cs + [c]| - 1] == cs;
  }

  lemma RunNext(cfg: Config, w: World, cs: seq<Call>, n: nat)
    requires SelfKeyed(w.mem.records) && n < |cs|
    ensures Run(cfg, w, cs[..n + 1]) == Step(cfg, Run(cfg, w, cs[..n]), cs[n]).0
    ensures Careful(cfg, w, cs[..n + 1]) <==>
            Careful(cfg, w, cs[..n]) && CareTaken(cfg, Run(cfg, w, cs[..n]), cs[n])
  {
    assert cs[..n + 1] == cs[..n] + [cs[n]];
    RunSnoc(cfg, w, cs[..n], cs[n]);
  }

  /** A key ends with its sequence number, here of one digit. */
  lemma KeyEnds(cfg: Config, e: Event)
    requires e.eventSeq < 10
    ensures Key(cfg, e) != [] && Key(cfg, e)[|Key(cfg, e)| - 1] == "0123456789"[e.eventSeq]
  {
    assert Decimal(e.eventSeq) == ["0123456789"[e.eventSeq]];
  }

  lemma KeysDiffer(cfg: Config, e: Event, f: Event)
    requires e.eventSeq < f.eventSeq < 10
    ensures Key(cfg, e) != Key(cfg, f)
  {
    KeyEnds(cfg, e);
    KeyEnds(cfg, f);
    hide Key;
  }

  lemma EvValid(cfg: Config, phase: Phase, n: nat, body: string)
    requires cfg.deviceId == "d" && n > 0 && KnownPhase(phase)
    ensures ValidEvent(cfg.deviceId, Ev(phase, n, body))
  {
    assert !IsSpace("d"[0]) && !IsSpace("e"[0]) && !IsSpace("c"[0]);
  }

  lemma EventReplays(cfg: Config, w: World, e: Entry)
    requires Logged(cfg, w) && GoodEvent(cfg, e)
    ensures Replay(cfg, w.disk.log).Some?
    ensures var m := Replay(cfg, w.disk.log).value;
            Apply(cfg, m, e) ==
            Some(m.(records := m.records[e.op.record.key := e.op.record], nextAlarmSN := e.op.nextSN))
  {
  }

  /** A store with room for the record and its bytes: the event is appended. */
  lemma PlainEnqueue(cfg: Config, w: World, e: Event, cursor: nat, alarm: bool, choice: Option<string>)
    requires Logged(cfg, w) && w.open && ValidEvent(cfg.deviceId, e) && Key(cfg, e) !in w.mem.records
    requires |w.mem.records| < cfg.maxRecords
    requires FileSize(cfg, w.disk) + cfg.lineSize(Prepare(cfg, w, e, cursor, alarm, false).1) <= cfg.maxBytes
    ensures SelfKeyed(w.mem.records)
    ensures var (w0, entry) := Prepare(cfg, w, e, cursor, alarm, false);
            var (w1, res) := Enqueue(cfg, Begin(w), e, cursor, alarm, false, choice);
            && res.Added? && w1.open && w1.disk == Extended(w.disk, entry)
            && w1.written == [w1.disk] && w1.faults == w.faults
            && w1.mem == w0.mem.(records := w.mem.records[Key(cfg, e) := entry.op.record])
            && FileSize(cfg, w1.disk) == FileSize(cfg, w.disk) + cfg.lineSize(entry)
            && Replay(cfg, w1.disk.log).Some?
            && Replay(cfg, w1.disk.log).value.records
               == Replay(cfg, w.disk.log).value.records[Key(cfg, e) := entry.op.record]
  {
    hide Logged, Key, ValidEvent, ValidRecord, KeyMatches, AppendBoundary, Compact, Grows, Exact, Apply;
    Keyed(cfg, w);
    PrepareGood(cfg, w, e, cursor, alarm, false);
    var entry := Prepare(cfg, w, e, cursor, alarm, false).1;
    ReplaySnoc(cfg, w.disk.log, entry);
    EventReplays(cfg, w, entry);
  }

  // ---------- an UPDATE in staging is taken ----------

  /** One record, and bytes to spare. */
  function OneRecord(): Config { Config("d", 1, 10, (s: string) => s, (e: Entry) => 1) }

  /** An UPDATE, its failed staging, and the next UPDATE of the same event. */
  function TakingRun(): seq<Call> {
    var key := Key(OneRecord(), Ev(Update, 1, ""));
    [Enq(Ev(Update, 1, ""), 1, None), CallStagingFailure(key, None, false), Enq(Ev(Update, 2, ""), 2, Some(key))]
  }

  /** A full store whose one record is the UPDATE in staging. */
  ghost predicate Staged(w: World) {
    var (cfg, key) := (OneRecord(), Key(OneRecord(), Ev(Update, 1, "")));
    && Logged(cfg, w) && w.open && w.faults == [] && w.mem.records.Keys == {key} && StagedUpdate(w.mem.records[key])
    && w.mem.records[key].event == Ev(Update, 1, "") && w.mem.records[key].alarmState.Ignored?
  }

  /** A store whose one record is the UPDATE, not yet staged. */
  ghost predicate OneUpdate(w: World) {
    var (cfg, key) := (OneRecord(), Key(OneRecord(), Ev(Update, 1, "")));
    && Logged(cfg, w) && w.open && w.faults == [] && w.mem.records.Keys == {key}
    && FileSize(cfg, w.disk) == 1 && w.mem.records[key].key == key
    && w.mem.records[key].event == Ev(Update, 1, "") && w.mem.records[key].alarmState.Ignored?
  }

  lemma StagedAfterOne() returns (w1: World)
    ensures SelfKeyed(NewStore([]).mem.records) && CareTaken(OneRecord(), NewStore([]), TakingRun()[0])
    ensures w1 == Step(OneRecord(), NewStore([]), TakingRun()[0]).0 && OneUpdate(w1)
  {
    hide Key, Logged, ValidEvent, Enqueue, Replay, Exact, FileSize;
    var cfg := OneRecord();
    EmptyExact(cfg, []);
    EmptyFile(cfg);
    EvValid(cfg, Update, 1, "");
    PlainEnqueue(cfg, NewStore([]), Ev(Update, 1, ""), 1, false, None);
    SafeClean(cfg, NewStore([]), TakingRun()[0]);
    StepLoggedIff(cfg, NewStore([]), TakingRun()[0]);
    w1 := Step(cfg, NewStore([]), TakingRun()[0]).0;
    assert w1.mem.records.Keys == {Key(cfg, Ev(Update, 1, ""))};
  }

  lemma StagedAfterTwo(w1: World)
    requires OneUpdate(w1)
    ensures SelfKeyed(w1.mem.records) && CareTaken(OneRecord(), w1, TakingRun()[1])
    ensures Staged(Step(OneRecord(), w1, TakingRun()[1]).0)
  {
    hide Key, Logged, ValidEvent, Replay, FileSize, Compact;
    var cfg := OneRecord();
    Keyed(cfg, w1);
    var w2 := Step(cfg, w1, TakingRun()[1]).0;
    SafeClean(cfg, w1, TakingRun()[1]);
    StepLoggedIff(cfg, w1, TakingRun()[1]);
    assert w2.mem.records.Keys == {Key(cfg, Ev(Update, 1, ""))};
  }

  lemma EmptyFile(cfg: Config)
    ensures FileSize(cfg, File([], None)) == 0
  {
  }

  /** A careful run of three calls after which a waiting record is gone unmarked. */
  lemma StagedUpdateTaken()
    ensures var (cfg, cs) := (OneRecord(), TakingRun());
            var key := Key(cfg, Ev(Update, 1, ""));
            && Careful(cfg, NewStore([]), cs)
            && key in Run(cfg, NewStore([]), cs[..2]).mem.records
            && StagedUpdate(Run(cfg, NewStore([]), cs[..2]).mem.records[key])
            && !Marks(cs[2], key) && key !in Run(cfg, NewStore([]), cs).mem.records
  {
    var (cfg, cs) := (OneRecord(), TakingRun());
    var key := Key(cfg, Ev(Update, 1, ""));
    hide Step, Key, Careful, Run, CareTaken, SelfKeyed, Staged, OneUpdate, TakingRun;
    TakingSteps();
    RunNext(cfg, NewStore([]), cs, 0);
    RunNext(cfg, NewStore([]), cs, 1);
    RunNext(cfg, NewStore([]), cs, 2);
    var w1 := StagedAfterOne();
    StagedAfterTwo(w1);
    TakesNext(Step(cfg, w1, cs[1]).0);
  }

  lemma TakingSteps()
    ensures var (cfg, cs) := (OneRecord(), TakingRun());
            && |cs| == 3 && cs[..3] == cs
            && Run(cfg, NewStore([]), cs[..0]) == NewStore([]) && Careful(cfg, NewStore([]), cs[..0])
            && !Marks(cs[2], Key(cfg, Ev(Update, 1, "")))
  {
    hide Key;
  }

  lemma TakesNext(w: World)
    requires Staged(w)
    ensures var key := Key(OneRecord(), Ev(Update, 1, ""));
            && SelfKeyed(w.mem.records) && CareTaken(OneRecord(), w, TakingRun()[2])
            && key in w.mem.records && StagedUpdate(w.mem.records[key])
            && key !in Step(OneRecord(), w, TakingRun()[2]).0.mem.records
  {
    hide Staged, Logged, Key, Enqueue, IsCoalesceChoice, Takes, Evictable, SelfKeyed, SnapshotEntry;
    var (cfg, e) := (OneRecord(), Ev(Update, 2, ""));
    var key := Key(cfg, Ev(Update, 1, ""));
    StagedChosen(w);
    WaitingLeavesIff(cfg, Begin(w), e, 2, false, false, Some(key), key);
  }

  lemma StagedChosen(w: World)
    requires Staged(w)
    ensures var (cfg, e) := (OneRecord(), Ev(Update, 2, ""));
            var key := Key(cfg, Ev(Update, 1, ""));
            && Logged(cfg, Begin(w)) && IsCoalesceChoice(w.mem.records, e, Some(key))
            && key in w.mem.records && !Evictable(w.mem.records[key])
            && SelfKeyed(w.mem.records) && Takes(cfg, Begin(w), e, Some(key), key)
            && StagedUpdate(w.mem.records[key])
  {
    hide Logged, Key, SelfKeyed, SnapshotEntry, ValidEvent;
    var (cfg, e) := (OneRecord(), Ev(Update, 2, ""));
    Keyed(cfg, w);
    BeginKeeps(cfg, w);
    EvValid(cfg, Update, 2, "");
    KeysDiffer(cfg, Ev(Update, 1, ""), e);
    assert |w.mem.records| == |w.mem.records.Keys| == 1;
  }

  // ---------- a refused END leaves its victim in the file ----------

  /** A small record takes one byte of a snapshot and a big one five. */
  function TightRecord(r: Record): nat { if r.event.body == "big" then 5 else 1 }

  function TightSizes(): Encoding { Encoding(1, TightRecord) }

  /** A byte over what the line holds. */
  function TightLine(e: Entry): nat {
    match e.op
    case Snapshot(_, _, _, rs) => 1 + Weigh(TightSizes(), rs)
    case EventOp(r, _) => 1 + TightRecord(r)
    case _ => 1
  }

  /** Three records and eight bytes. */
  function Tight(): Config { Config("d", 3, 8, (s: string) => s, TightLine) }

  /** The encoder keeps to the sizes of the JSON lines. */
  lemma TightPlainSizes()
    ensures Plain(Tight(), TightSizes())
  {
  }

  function TightEnd(n: nat): Call { Enq(Ev(End, n, if n == 3 then "big" else ""), n, None) }

  function CorneredRun(): seq<Call> {
    [TightEnd(1), TightEnd(2), TightEnd(3), TightEnd(4), TightEnd(5), CallReopen]
  }

  /** A new store whose second compaction will fail. */
  function FaultyStore(): World { NewStore([false, true]) }

  lemma {:induction false} SnapshotSize(records: map<string, Record>)
    requires SelfKeyed(records)
    ensures |SnapshotSeq(records)| == |records|
    decreases records.Keys
  {
    if records != map[] {
      WithoutKeys(records, First(records));
      SnapshotSize(records - {First(records)});
    }
  }

  lemma {:induction false} SmallWeigh(rs: seq<Record>)
    requires forall i | 0 <= i < |rs| :: rs[i].event.body != "big"
    ensures Weigh(TightSizes(), rs) == |rs|
  {
    if rs != [] { SmallWeigh(rs[1..]); }
  }

  function TightKey(n: nat): string { Key(Tight(), Ev(End, n, if n == 3 then "big" else "")) }

  /** An open store of small ENDs that nothing waits for. */
  ghost predicate Resting(w: World) {
    && Recoverable(Tight(), w) && w.open && w.disk.seam.None?
    && forall k | k in w.mem.records ::
         w.mem.records[k].event.phase.End? && w.mem.records[k].event.body != "big" && Evictable(w.mem.records[k])
  }

  lemma NoCandidate(w: World, n: nat)
    requires Resting(w)
    ensures SelfKeyed(w.mem.records) && Logged(Tight(), w) && CareTaken(Tight(), w, TightEnd(n))
  {
    Keyed(Tight(), w);
    hide Logged;
  }

  lemma StillLogged(w: World, n: nat)
    requires Resting(w)
    ensures SelfKeyed(w.mem.records) && Logged(Tight(), Step(Tight(), w, TightEnd(n)).0)
  {
    hide Logged, ChoiceOk, CallerSafe, Step, RestartOk;
    NoCandidate(w, n);
    SafeClean(Tight(), w, TightEnd(n));
    StepLoggedIff(Tight(), w, TightEnd(n));
  }

  lemma TightLines(r: Record, next: nat)
    ensures Tight().deviceId == "d" && Tight().maxRecords == 3 && Tight().maxBytes == 8
    ensures Tight().lineSize(Entry(JOURNAL_VERSION, "d", EventOp(r, next))) == if r.event.body == "big" then 6 else 2
  {
  }

  lemma TightSnapshot(m: Mem)
    requires SelfKeyed(m.records) && forall k | k in m.records :: m.records[k].event.body != "big"
    ensures Tight().lineSize(SnapshotEntry(Tight(), m)) == 1 + |m.records| && Tight().maxBytes == 8
  {
    SnapshotSize(m.records);
    SnapshotSeqIs(m.records);
    SmallWeigh(SnapshotSeq(m.records));
  }

  /** A small END is stored while there is room. */
  lemma TightPlain(w: World, n: nat)
    requires Resting(w) && 0 < n < 10 && n != 3 && TightKey(n) !in w.mem.records
    requires |w.mem.records| < 3 && FileSize(Tight(), w.disk) <= 6
    ensures SelfKeyed(w.mem.records)
    ensures var w1 := Step(Tight(), w, TightEnd(n)).0;
            && Resting(w1) && FileSize(Tight(), w1.disk) == FileSize(Tight(), w.disk) + 2
            && w1.mem.records.Keys == w.mem.records.Keys + {TightKey(n)} && w1.faults == w.faults
            && Replay(Tight(), w.disk.log).Some? && Replay(Tight(), w1.disk.log).Some?
            && Replay(Tight(), w1.disk.log).value.records.Keys
               == Replay(Tight(), w.disk.log).value.records.Keys + {TightKey(n)}
  {
    assert Replay(Tight(), w.disk.log).Some?;
    hide Logged, Key, ValidEvent, FileSize, Replay, Step, ChoiceOk, CallerSafe, SelfKeyed, Tight, Resting,
      NewRecord;
    var (cfg, e) := (Tight(), Ev(End, n, ""));
    var r := NewRecord(cfg, e, n, None, false);
    RecordBody(cfg, e, n);
    TightLines(r, w.mem.nextAlarmSN);
    EvValid(cfg, End, n, "");
    StillLogged(w, n);
    RestingShape(w);
    PlainEnqueue(cfg, w, e, n, false, None);
    var w1 := Step(cfg, w, TightEnd(n)).0;
    RestingPut(w, w1, n);
    PutKeys(w.mem.records, TightKey(n), r);
    PutKeys(Replay(cfg, w.disk.log).value.records, TightKey(n), r);
  }

  lemma RecordBody(cfg: Config, e: Event, cursor: nat)
    ensures NewRecord(cfg, e, cursor, None, false).event == e
  {
  }

  lemma PutKeys<V>(m: map<string, V>, k: string, v: V)
    ensures m[k := v].Keys == m.Keys + {k}
  {
  }

  lemma RestingShape(w: World)
    requires Resting(w)
    ensures Logged(Tight(), w) && w.open && w.disk.seam.None?
  {
  }

  lemma RestingPut(w: World, w1: World, n: nat)
    requires Resting(w) && Logged(Tight(), w1) && w1.open && w1.disk.seam.None? && n != 3
    requires w1.mem.records == w.mem.records[TightKey(n) := NewRecord(Tight(), Ev(End, n, ""), n, None, false)]
    ensures Resting(w1)
  {
    hide Logged, Key;
  }

  /** The big END fits behind no snapshot of two records. The first compaction succeeds, one
      record leaves memory, the second compaction fails, and the END is refused with that
      record still in the file. */
  lemma TightCornered(w: World)
    requires Resting(w) && Exact(Tight(), w) && w.faults == [false, true]
    requires |w.mem.records| == 2 && FileSize(Tight(), w.disk) == 4 && TightKey(3) !in w.mem.records
    ensures SelfKeyed(w.mem.records)
    ensures var (w1, st) := Step(Tight(), w, TightEnd(3));
            && st == ErrStorage && Resting(w1) && w1.mem.records.Keys < w.mem.records.Keys && |w1.mem.records| == 1
            && FileSize(Tight(), w1.disk) == 3
            && Replay(Tight(), w1.disk.log).Some? && Replay(Tight(), w1.disk.log).value.records == w.mem.records
  {
    hide Logged, Exact, Key, ValidEvent, SelfKeyed, Write, Tight, Replay, FileSize, Resting, CareTaken, NewRecord;
    var (cfg, e) := (Tight(), Ev(End, 3, "big"));
    RecordBody(cfg, e, 3);
    TightLines(NewRecord(cfg, e, 3, None, false), w.mem.nextAlarmSN);
    EvValid(cfg, End, 3, "big");
    StillLogged(w, 3);
    RestingShape(w);
    var entry := Prepare(cfg, Begin(w), e, 3, false, false).1;
    var w1 := TightRefused(Begin(w), w, entry);
    RestingLess(w, w1);
  }

  lemma RestingLess(w: World, w1: World)
    requires Resting(w) && Logged(Tight(), w1) && w1.open && w1.disk.seam.None?
    requires forall k | k in w1.mem.records :: k in w.mem.records && w1.mem.records[k] == w.mem.records[k]
    ensures Resting(w1)
  {
    hide Logged;
  }

  lemma TightRefused(w: World, was: World, e: Entry) returns (w2: World)
    requires Resting(was) && Exact(Tight(), was) && w == Begin(was) && w.faults == [false, true]
    requires |w.mem.records| == 2 && FileSize(Tight(), w.disk) == 4 && Tight().lineSize(e) == 6
    ensures SelfKeyed(w.mem.records) && Write(Tight(), w, e, End) == (w2, ErrStorage)
    ensures |w2.mem.records| == 1 && w2.mem.records.Keys < w.mem.records.Keys && w2.open == w.open
    ensures forall k | k in w2.mem.records :: w2.mem.records[k] == w.mem.records[k]
    ensures FileSize(Tight(), w2.disk) == 3 && w2.disk.seam.None? && Replay(Tight(), w2.disk.log).Some?
    ensures Replay(Tight(), w2.disk.log).value.records == w.mem.records
  {
    hide Logged, SelfKeyed, Tight, SnapshotEntry, Replay, Evictable, FileSize;
    var cfg := Tight();
    var w1 := TightCompacted(w, was, e);
    var k := OldestExists(w.mem.records);
    WithoutKeys(w.mem.records, k);
    TightSnapshot(w.mem.(records := w.mem.records - {k}));
    w2 := AppendBoundary(cfg, w1, e).0;
    hide OldestTerminal;
  }

  /** The append's own compaction works, and does not help. */
  lemma TightCompacted(w: World, was: World, e: Entry) returns (w1: World)
    requires Resting(was) && Exact(Tight(), was) && w == Begin(was) && w.faults == [false, true]
    requires |w.mem.records| == 2 && FileSize(Tight(), w.disk) == 4 && Tight().lineSize(e) == 6
    ensures SelfKeyed(w.mem.records) && Append(Tight(), w, e) == (w1, ErrCapacity)
    ensures w1.mem == w.mem && w1.open == w.open && w1.faults == [true]
    ensures w1.disk.seam.None? && FileSize(Tight(), w1.disk) == 3 && Replay(Tight(), w1.disk.log).Some?
    ensures Replay(Tight(), w1.disk.log).value.records == w.mem.records
  {
    hide Logged, Tight, SnapshotEntry, Replay;
    RestingShape(was);
    BeginKeeps(Tight(), was);
    Keyed(Tight(), w);
    LoggedMem(Tight(), w);
    TightSnapshot(w.mem);
    CompactRestores(Tight(), w);
    ReplayOne(Tight(), SnapshotEntry(Tight(), w.mem));
    w1 := Compact(Tight(), w).0;
    LoggedReplays(Tight(), w1);
  }

  lemma OldestExists(records: map<string, Record>) returns (k: string)
    requires SelfKeyed(records) && records != map[] && forall k | k in records :: Evictable(records[k])
    ensures OldestTerminal(records) == Some(k) && k in records && SelfKeyed(records - {k})
  {
    var any :| any in records;
    assert any in Terminals(records);
    k := OldestTerminal(records).value;
  }

  /** The world after `n` calls of the run, and what its file replays to. */
  ghost predicate Reached(n: nat, w: World, file: set<string>) {
    && n <= 6 && w == Run(Tight(), FaultyStore(), CorneredRun()[..n])
    && Careful(Tight(), FaultyStore(), CorneredRun()[..n])
    && Resting(w) && Replay(Tight(), w.disk.log).Some? && Replay(Tight(), w.disk.log).value.records.Keys == file
  }

  lemma NextPlain(n: nat, w: World, file: set<string>) returns (w1: World)
    requires n in {0, 1, 3, 4} && Reached(n, w, file) && TightKey(n + 1) !in w.mem.records
    requires |w.mem.records| < 3 && FileSize(Tight(), w.disk) <= 6
    ensures Reached(n + 1, w1, file + {TightKey(n + 1)})
    ensures w1.mem.records.Keys == w.mem.records.Keys + {TightKey(n + 1)}
    ensures |w1.mem.records| == |w.mem.records| + 1 && w1.faults == w.faults
    ensures FileSize(Tight(), w1.disk) == FileSize(Tight(), w.disk) + 2
  {
    hide Tight, TightEnd, TightKey, Resting, FileSize, Replay, Step, Run, Careful, CareTaken, CorneredRun, FaultyStore;
    CallAt(n);
    RunNext(Tight(), FaultyStore(), CorneredRun(), n);
    NoCandidate(w, n + 1);
    TightPlain(w, n + 1);
    w1 := Step(Tight(), w, TightEnd(n + 1)).0;
    OneMore(w.mem.records, w1.mem.records, TightKey(n + 1));
  }

  lemma CallAt(n: nat)
    requires n < 5
    ensures |CorneredRun()| == 6 && CorneredRun()[n] == TightEnd(n + 1) && SelfKeyed(FaultyStore().mem.records)
  {
  }

  lemma OneMore<V>(m: map<string, V>, m1: map<string, V>, k: string)
    requires k !in m && m1.Keys == m.Keys + {k}
    ensures |m1| == |m| + 1
  {
    assert |m1.Keys| == |m.Keys| + 1;
  }

  lemma NextCornered(w: World) returns (w1: World)
    requires Reached(2, w, w.mem.records.Keys) && Exact(Tight(), w) && TightKey(3) !in w.mem.records
    requires |w.mem.records| == 2 && FileSize(Tight(), w.disk) == 4 && w.faults == [false, true]
    ensures Reached(3, w1, w.mem.records.Keys) && w1.mem.records.Keys < w.mem.records.Keys
    ensures |w1.mem.records| == 1 && FileSize(Tight(), w1.disk) == 3
    ensures Step(Tight(), w, TightEnd(3)).1 == ErrStorage
  {
    hide CorneredRun, Tight, TightEnd, TightKey, Resting, FileSize, Replay, Step, Run, Careful, CareTaken, Exact,
      FaultyStore;
    CallAt(2);
    RunNext(Tight(), FaultyStore(), CorneredRun(), 2);
    NoCandidate(w, 3);
    TightCornered(w);
    w1 := Step(Tight(), w, TightEnd(3)).0;
  }

  lemma TightKeyDiffers(m: nat, n: nat)
    requires m < n < 10
    ensures TightKey(m) != TightKey(n)
  {
    KeysDiffer(Tight(), Ev(End, m, if m == 3 then "big" else ""), Ev(End, n, if n == 3 then "big" else ""));
  }

  ghost function TwoKeys(): set<string> { {} + {TightKey(1)} + {TightKey(2)} }

  lemma FourKeys(file: set<string>)
    requires file == TwoKeys()
    ensures TightKey(1) != TightKey(2) && |file| == 2 && TightKey(3) !in file && TightKey(4) !in file
    ensures TightKey(5) !in file + {TightKey(4)} && |file + {TightKey(4)} + {TightKey(5)}| == 4
  {
    TightKeyDiffers(1, 2);
    TightKeyDiffers(1, 3);
    TightKeyDiffers(2, 3);
    TightKeyDiffers(1, 4);
    TightKeyDiffers(2, 4);
    TightKeyDiffers(1, 5);
    TightKeyDiffers(2, 5);
    TightKeyDiffers(4, 5);
    hide TightKey;
  }

  lemma StartReached() returns (w: World)
    ensures Reached(0, w, {}) && FileSize(Tight(), w.disk) == 0 && |w.mem.records| == 0 && w.mem.records.Keys == {}
    ensures w == FaultyStore() && w.faults == [false, true]
  {
    EmptyExact(Tight(), [false, true]);
    assert CorneredRun()[..0] == [];
    w := FaultyStore();
  }

  lemma NotExact(n: nat, w: World, file: set<string>)
    requires Reached(n, w, file) && w.mem.records.Keys < file
    ensures !Exact(Tight(), w)
  {
    hide Run, Careful, CorneredRun, Logged, Resting, Tight;
  }

  /** Small ENDs that find room leave file and memory equal. */
  lemma SameKeysExact(n: nat, w: World)
    requires Reached(n, w, w.mem.records.Keys)
    ensures Exact(Tight(), w)
  {
    hide Run, Careful, CorneredRun, Tight, FileSize;
    var d := Replay(Tight(), w.disk.log).value.records;
    assert forall k | k in w.mem.records :: d[k] == w.mem.records[k];
    assert d == w.mem.records;
  }

  lemma NextReopen(w: World, file: set<string>)
    requires Reached(5, w, file) && FileSize(Tight(), w.disk) == 7
    ensures var cs := CorneredRun();
            && SelfKeyed(FaultyStore().mem.records)
            && Careful(Tight(), FaultyStore(), cs) && Run(Tight(), FaultyStore(), cs).mem.records.Keys == file
  {
    var cs := CorneredRun();
    assert cs[5] == CallReopen && cs[..6] == cs;
    CallAt(0);
    hide CorneredRun, FileSize, Run, Careful, Tight, Step, CareTaken, FaultyStore;
    RunNext(Tight(), FaultyStore(), cs, 5);
    RestingShape(w);
    ReopenAll(Tight(), w);
    hide Resting;
    TightLines(Record("", 0, Ev(End, 1, ""), Dead, Dead, 0, 0, "", 0, 0, 0, ""), 0);
  }

  lemma ReopenAll(cfg: Config, w: World)
    requires SelfKeyed(w.mem.records) && Replay(cfg, w.disk.log).Some? && w.disk.seam.None?
    ensures FileSize(cfg, w.disk) <= cfg.maxBytes ==> Step(cfg, w, CallReopen).0.mem == Replay(cfg, w.disk.log).value
    ensures CareTaken(cfg, w, CallReopen)
  {
    hide Replay, FileSize;
  }

  lemma FirstTwo() returns (w: World)
    ensures Reached(2, w, TwoKeys()) && w.mem.records.Keys == TwoKeys() && |w.mem.records| == 2
    ensures FileSize(Tight(), w.disk) == 4 && w.faults == [false, true]
  {
    hide Reached, Tight, TightKey, FileSize, FaultyStore;
    TightKeyDiffers(1, 2);
    var w0 := StartReached();
    var w1 := NextPlain(0, w0, {});
    w := NextPlain(1, w1, {} + {TightKey(1)});
  }

  lemma FirstThree() returns (w: World)
    ensures Reached(3, w, TwoKeys()) && w.mem.records.Keys < TwoKeys() && |w.mem.records| == 1
    ensures FileSize(Tight(), w.disk) == 3
  {
    hide Reached, Tight, TightKey, FileSize, TwoKeys, Exact, Step;
    FourKeys(TwoKeys());
    var w2 := FirstTwo();
    SameKeysExact(2, w2);
    w := NextCornered(w2);
  }

  lemma LastThree(w: World)
    requires Reached(3, w, TwoKeys()) && w.mem.records.Keys < TwoKeys() && |w.mem.records| == 1
    requires FileSize(Tight(), w.disk) == 3
    ensures var cs := CorneredRun();
            && SelfKeyed(FaultyStore().mem.records)
            && Careful(Tight(), FaultyStore(), cs) && |Run(Tight(), FaultyStore(), cs).mem.records| == 4
  {
    hide Reached, Tight, TightKey, FileSize, TwoKeys, Run, Careful, CorneredRun, FaultyStore;
    FourKeys(TwoKeys());
    var w4 := NextPlain(3, w, TwoKeys());
    var w5 := NextPlain(4, w4, TwoKeys() + {TightKey(4)});
    NextReopen(w5, TwoKeys() + {TightKey(4)} + {TightKey(5)});
    var end := Run(Tight(), FaultyStore(), CorneredRun());
    assert |end.mem.records| == |end.mem.records.Keys|;
  }

  lemma ReachedRun(n: nat, w: World, file: set<string>)
    requires Reached(n, w, file)
    ensures SelfKeyed(FaultyStore().mem.records) && w == Run(Tight(), FaultyStore(), CorneredRun()[..n])
  {
    hide Run, Careful, CorneredRun, Resting;
  }

  /** With sizes as the encoder's, a careful run of six calls whose second compaction fails:
      the third END is refused, memory then lacks a record the file holds, and the restart at
      the end finds four records where three are allowed. */
  lemma RefusedEndStays()
    ensures var (cfg, cs, w) := (Tight(), CorneredRun(), FaultyStore());
            && Plain(cfg, TightSizes()) && SelfKeyed(w.mem.records) && Careful(cfg, w, cs)
            && !Exact(cfg, Run(cfg, w, cs[..3]))
            && |Run(cfg, w, cs).mem.records| == 4 == cfg.maxRecords + 1
  {
    assert |CorneredRun()| == 6;
    TightPlainSizes();
    hide Reached, Careful, Run, CorneredRun, FileSize, Exact, TwoKeys, Plain;
    var w3 := FirstThree();
    ReachedRun(3, w3, TwoKeys());
    NotExact(3, w3, TwoKeys());
    LastThree(w3);
  }

  // ---------- a lost newline ----------

  function Roomy(): Config { Config("d", 10, 100, (s: string) => s, (e: Entry) => 1) }

  /** The store dies as the newline of the first END is lost, starts again, and stores two more. */
  function UnendedRun(): seq<Call> {
    [CallCrash(Enq(Ev(End, 1, ""), 1, None), 1, true), Enq(Ev(End, 2, ""), 2, None), Enq(Ev(End, 3, ""), 3, None)]
  }

  function RoomyKey(n: nat): string { Key(Roomy(), Ev(End, n, "")) }

  /** An open store of ENDs whose file has `n` entries, the first of which lost its newline. */
  ghost predicate Running(w: World, keys: set<string>, n: nat) {
    && Logged(Roomy(), w) && w.open && w.disk.seam == Some(0) && |w.disk.log| == n
    && FileSize(Roomy(), w.disk) == n - 1 && w.mem.records.Keys == keys
    && forall k | k in w.mem.records :: w.mem.records[k].event.phase.End?
  }

  lemma RoomyStart() returns (w1: World)
    ensures var (w, c) := (NewStore([]), UnendedRun()[0]);
            && SelfKeyed(w.mem.records) && CareTaken(Roomy(), w, c) && w1 == Step(Roomy(), w, c).0
    ensures Running(w1, {RoomyKey(1)}, 1)
  {
    hide Logged, Key, Replay, ValidEvent, Enqueue, Exact, FileSize;
    var (cfg, w, e) := (Roomy(), NewStore([]), Ev(End, 1, ""));
    var c := UnendedRun()[0];
    EmptyExact(cfg, []);
    EvValid(cfg, End, 1, "");
    EmptyFile(cfg);
    PlainEnqueue(cfg, w, e, 1, false, None);
    var done := Enqueue(cfg, Begin(w), e, 1, false, false, None).0;
    assert CrashFile(cfg, w, c.during, 1, true) == CutShort(done.disk) == File(done.disk.log, Some(0));
    var via := CrashStep(cfg, w, c);
    RestartFinds(cfg, Crashed(cfg, w, c), via);
    w1 := Step(cfg, w, c).0;
    ExactLogged(cfg, w1);
    assert FileSize(cfg, w1.disk) == FileSize(cfg, done.disk) - 1 by { CutSize(cfg, done.disk.log); }
  }

  lemma CutSize(cfg: Config, log: seq<Entry>)
    ensures FileSize(cfg, File(log, Some(0))) == FileSize(cfg, File(log, None)) - 1
  {
  }

  lemma RoomyNext(w: World, keys: set<string>, n: nat, m: nat) returns (w1: World)
    requires Running(w, keys, n) && 0 < n < 4 && 0 < m < 10 && RoomyKey(m) !in keys && |w.mem.records| < 4
    ensures SelfKeyed(w.mem.records) && CareTaken(Roomy(), w, Enq(Ev(End, m, ""), m, None))
    ensures w1 == Step(Roomy(), w, Enq(Ev(End, m, ""), m, None)).0 && Running(w1, keys + {RoomyKey(m)}, n + 1)
    ensures |w1.mem.records| == |w.mem.records| + 1
  {
    hide Logged, Key, Replay, ValidEvent, Enqueue, FileSize, IsCoalesceCandidate, SelfKeyed, Poisons;
    var (cfg, e) := (Roomy(), Ev(End, m, ""));
    var c := Enq(e, m, None);
    Keyed(cfg, w);
    EndsOnly(w.mem.records, e);
    EvValid(cfg, End, m, "");
    PlainEnqueue(cfg, w, e, m, false, None);
    SafeClean(cfg, w, c);
    StepLoggedIff(cfg, w, c);
    w1 := Step(cfg, w, c).0;
    OneMore(w.mem.records, w1.mem.records, RoomyKey(m));
  }

  lemma EndsOnly(records: map<string, Record>, e: Event)
    requires forall k | k in records :: records[k].event.phase.End?
    ensures IsCoalesceChoice(records, e, None)
  {
  }

  lemma RoomyDown(w: World, keys: set<string>)
    requires Running(w, keys, 3)
    ensures SelfKeyed(w.mem.records)
    ensures var (down, st) := Step(Roomy(), w, CallReopen); st == ErrClosed && Down(Roomy(), down)
  {
    Keyed(Roomy(), w);
    hide Logged, Replay, FileSize;
  }

  lemma RoomyKeys()
    ensures RoomyKey(2) !in {RoomyKey(1)} && RoomyKey(3) !in {RoomyKey(1)} + {RoomyKey(2)}
  {
    KeysDiffer(Roomy(), Ev(End, 1, ""), Ev(End, 2, ""));
    KeysDiffer(Roomy(), Ev(End, 1, ""), Ev(End, 3, ""));
    KeysDiffer(Roomy(), Ev(End, 2, ""), Ev(End, 3, ""));
    hide Key;
  }

  lemma UnendedCalls()
    ensures var (cs, w) := (UnendedRun(), NewStore([]));
            && |cs| == 3 && cs[..0] == [] && cs[..3] == cs && SelfKeyed(w.mem.records)
            && cs[1] == Enq(Ev(End, 2, ""), 2, None) && cs[2] == Enq(Ev(End, 3, ""), 3, None)
            && Run(Roomy(), w, cs[..0]) == w && Careful(Roomy(), w, cs[..0])
  {
  }

  lemma RoomyThree() returns (w3: World)
    ensures var (cfg, cs, w) := (Roomy(), UnendedRun(), NewStore([]));
            && SelfKeyed(w.mem.records) && Careful(cfg, w, cs) && Run(cfg, w, cs) == w3
            && Running(w3, {RoomyKey(1)} + {RoomyKey(2)} + {RoomyKey(3)}, 3)
  {
    hide Step, Running, RoomyKey, CareTaken, UnendedRun, Enq, Run, Careful, SelfKeyed;
    var (cfg, cs, w) := (Roomy(), UnendedRun(), NewStore([]));
    UnendedCalls();
    RoomyKeys();
    var w1 := RoomyStart();
    RunNext(cfg, w, cs, 0);
    RunningSize(w1, {RoomyKey(1)}, 1);
    var w2 := RoomyNext(w1, {RoomyKey(1)}, 1, 2);
    RunNext(cfg, w, cs, 1);
    w3 := RoomyNext(w2, {RoomyKey(1)} + {RoomyKey(2)}, 2, 3);
    RunNext(cfg, w, cs, 2);
  }

  /** A careful run whose first call is cut short by a crash that takes a newline. The two ENDs
      stored after the restart are in memory and were written without an error; the next
      start of the store fails, and so does every one after it. */
  lemma LostNewlineEndsStore(later: seq<Call>)
    ensures var (cfg, cs, w) := (Roomy(), UnendedRun(), NewStore([]));
            && SelfKeyed(w.mem.records) && Careful(cfg, w, cs)
            && Run(cfg, w, cs).mem.records.Keys == {RoomyKey(1), RoomyKey(2), RoomyKey(3)}
            && var (down, st) := Step(cfg, Run(cfg, w, cs), CallReopen);
               st == ErrClosed && !Run(cfg, down, later).open
  {
    hide Step, Running, RoomyKey, UnendedRun, Run, Careful, SelfKeyed, Down;
    var w3 := RoomyThree();
    var keys := {RoomyKey(1)} + {RoomyKey(2)} + {RoomyKey(3)};
    RoomyDown(w3, keys);
    RunningSize(w3, keys, 3);
    var down := Step(Roomy(), w3, CallReopen).0;
    DownStays(Roomy(), down, later);
    DownClosed(Roomy(), Run(Roomy(), down, later));
  }

  lemma RunningSize(w: World, keys: set<string>, n: nat)
    requires Running(w, keys, n)
    ensures w.mem.records.Keys == keys && |w.mem.records| == |keys|
  {
    assert |w.mem.records| == |w.mem.records.Keys|;
    hide Logged, FileSize;
  }

  lemma DownClosed(cfg: Config, w: World)
    requires Down(cfg, w)
    ensures !w.open
  {
  }
}
