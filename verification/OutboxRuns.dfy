// The outbox over whole runs: each call, then any sequence of calls, crashes and restarts.
module OutboxRuns {
  import opened Common
  import opened EventContract
  import opened OutboxModel
  import opened OutboxSpec
  import opened OutboxProofs
  import opened OutboxCalls
  import opened OutboxCrash
  import opened OutboxExact
  import opened OutboxSizes

  // ---------- one call ----------

  /** A careless mark that reaches the file, in a call that completes or that crashes. */
  ghost predicate Poisons(cfg: Config, w: World, c: Call)
    requires SelfKeyed(w.mem.records)
  {
    if c.CallCrash? then Poisoned(cfg, w, c.during, c.at) else Careless(cfg, w, c)
  }

  /** The entries of the file still replay after a call, or after a crash anywhere in one and
      the restart, exactly when no careless mark reached it. */
  lemma StepLoggedIff(cfg: Config, w: World, c: Call)
    requires Logged(cfg, w) && ChoiceOk(w.mem.records, c)
    requires SelfKeyed(w.mem.records) && RestartOk(cfg, w, c)
    ensures Logged(cfg, Step(cfg, w, c).0) <==> !Poisons(cfg, w, c)
  {
    if c.CallCrash? {
      CrashLoggedIff(cfg, w, c);
    } else {
      CompleteKeeps(cfg, w, c);
    }
  }

  /** The world that restarts after a crash. */
  ghost function Crashed(cfg: Config, w: World, c: Call): World
    requires SelfKeyed(w.mem.records) && c.CallCrash?
  {
    w.(faults := Complete(cfg, Begin(w), c.during).0.faults)
  }

  lemma CrashLoggedIff(cfg: Config, w: World, c: Call)
    requires Logged(cfg, w) && ChoiceOk(w.mem.records, c) && c.CallCrash?
    requires SelfKeyed(w.mem.records) && RestartOk(cfg, w, c)
    ensures Logged(cfg, Step(cfg, w, c).0) <==> !Poisons(cfg, w, c)
  {
    hide Complete, Poisoned, Less, IsCoalesceChoice, CrashFile, Restart, SameState;
    var via := CrashFileIs(cfg, w, c.during, c.at, c.cut);
    if Poisons(cfg, w, c) {
      RestartFails(cfg, Crashed(cfg, w, c), CrashFile(cfg, w, c.during, c.at, c.cut));
    } else {
      RestartKeeps(cfg, Crashed(cfg, w, c), via);
      ExactLogged(cfg, Step(cfg, w, c).0);
    }
    hide Logged;
  }

  lemma RestartFails(cfg: Config, w: World, disk: File)
    requires SelfKeyed(w.mem.records) && Sealed(disk) && Replay(cfg, disk.log).None?
    ensures !Logged(cfg, Restart(cfg, w, disk).0)
  {
  }

  /** What the caller of a call has to see to: a coalescing choice as the store makes it, marks
      that will load again, and restarts on files that no lost newline has spoilt. */
  ghost predicate CareTaken(cfg: Config, w: World, c: Call)
    requires SelfKeyed(w.mem.records)
  {
    ChoiceOk(w.mem.records, c) && CallerSafe(w.mem.records, c) && RestartOk(cfg, w, c)
  }

  lemma SafeClean(cfg: Config, w: World, c: Call)
    requires SelfKeyed(w.mem.records) && CallerSafe(w.mem.records, c)
    ensures !Poisons(cfg, w, c)
  {
  }

  /** A restart on the file of `via` finds what `via` held and perhaps evictable records more. */
  lemma RestartKeeps(cfg: Config, w: World, via: World)
    requires SelfKeyed(w.mem.records) && Recoverable(cfg, via)
    ensures var (w1, st) := Restart(cfg, w, via.disk);
            && st == Ok && Exact(cfg, w1) && Agrees(w1.mem, via.mem) && w1.open
            && w1.disk == via.disk && w1.faults == w.faults
  {
    ReopenKeeps(cfg, via, w.faults);
  }

  /** Where a crash and restart lead: `via` has the state before the call, the state after
      it, or the one before it less unguarded records, and the outbox then holds what `via`
      held and perhaps evictable records more. */
  lemma CrashStep(cfg: Config, w: World, c: Call) returns (via: World)
    requires Logged(cfg, w) && SelfKeyed(w.mem.records) && c.CallCrash? && CareTaken(cfg, w, c)
    ensures var w1 := Complete(cfg, Begin(w), c.during);
            || SameState(via, w) || (Less(cfg, w.mem, via.mem) && Exact(cfg, via))
            || (SameState(via, w1.0) && w1.1 == Ok)
    ensures Recoverable(cfg, via) && via.disk == CrashFile(cfg, w, c.during, c.at, c.cut)
    ensures var (w1, st) := Step(cfg, w, c);
            st == Ok && Exact(cfg, w1) && Agrees(w1.mem, via.mem) && w1.open && w1.disk == via.disk
  {
    hide Complete, Poisoned, Less, Restart, CrashFile, SameState, IsCoalesceChoice, CallerSafe, Exact, Logged;
    SafeClean(cfg, w, c);
    via := CrashFileIs(cfg, w, c.during, c.at, c.cut);
    RestartKeeps(cfg, Crashed(cfg, w, c), via);
  }

  /** The call trips making room for the bytes of a START or END. */
  ghost predicate Corners(cfg: Config, w: World, c: Call)
    requires SelfKeyed(w.mem.records)
  {
    c.CallEnqueue?
    && CornersEnqueue(cfg, Begin(w), c.event, c.cursor, c.alarmEnabled, c.evidenceEnabled, c.choice)
  }

  lemma BeginKeeps(cfg: Config, w: World)
    ensures Logged(cfg, w) ==> Logged(cfg, Begin(w))
    ensures Exact(cfg, w) ==> Exact(cfg, Begin(w))
  {
  }

  lemma CompleteExact(cfg: Config, w: World, c: Call)
    requires Exact(cfg, w) && ChoiceOk(w.mem.records, c) && (Restarts(c) ==> Sealed(w.disk))
    ensures SelfKeyed(w.mem.records)
    ensures var (w1, st) := Complete(cfg, Begin(w), c);
            && (Exact(cfg, w1) <==> !Careless(cfg, w, c) && !Corners(cfg, w, c))
            && (st == Ok && !Careless(cfg, w, c) ==> Exact(cfg, w1))
  {
    hide CornersEnqueue, Exact, Logged, Enqueue, MarkCall, Ack, Reopen, Stored, Grows, Key, IsCoalesceChoice,
      CallerSafe;
    BeginKeeps(cfg, w);
    ExactLogged(cfg, w);
    CompleteKeeps(cfg, w, c);
    ExactLogged(cfg, Complete(cfg, Begin(w), c).0);
    var w0 := Begin(w);
    match c {
      case CallEnqueue(e, cursor, alarm, evidence, choice) =>
        EnqueueExact(cfg, w0, e, cursor, alarm, evidence, choice);
        EnqueueKeeps(cfg, w0, e, cursor, alarm, evidence, choice);
      case CallAck(cursor) => AckKeeps(cfg, w0, cursor);
      case CallReopen => ReopenKeeps(cfg, w0, w0.faults);
      case CallCrash(_, _, _) => ReopenKeeps(cfg, w0, w0.faults);
      case _ => MarkKeeps(cfg, w0, c);
    }
  }

  /** File and memory hold the same records after a call exactly when the call neither
      poisons the file nor trips making room for bytes. */
  lemma StepExact(cfg: Config, w: World, c: Call)
    requires Exact(cfg, w) && ChoiceOk(w.mem.records, c)
    requires SelfKeyed(w.mem.records) && RestartOk(cfg, w, c)
    ensures Exact(cfg, Step(cfg, w, c).0) <==> !Poisons(cfg, w, c) && !Corners(cfg, w, c)
  {
    hide Exact, Logged, Poisons, Less, Complete, Restart, CrashFile, SameState, IsCoalesceChoice;
    ExactLogged(cfg, w);
    if c.CallCrash? {
      StepLoggedIff(cfg, w, c);
      ExactLogged(cfg, Step(cfg, w, c).0);
      if !Poisons(cfg, w, c) {
        var via := CrashFileIs(cfg, w, c.during, c.at, c.cut);
        PoisonedIs(cfg, w, c);
        RestartKeeps(cfg, Crashed(cfg, w, c), via);
      }
    } else {
      CompleteExact(cfg, w, c);
      PoisonedIs(cfg, w, c);
    }
  }

  lemma PoisonedIs(cfg: Config, w: World, c: Call)
    requires SelfKeyed(w.mem.records)
    ensures Poisons(cfg, w, c) <==> if c.CallCrash? then Poisoned(cfg, w, c.during, c.at) else Careless(cfg, w, c)
  {
  }

  predicate MarksKey(c: Call, k: string) { IsMark(c) && c.key == k }

  /** The call marks the record under `k`, or crashes while it does. */
  predicate Marks(c: Call, k: string) {
    MarksKey(if c.CallCrash? then c.during else c, k)
  }

  lemma CompleteKeepsGuarded(cfg: Config, w: World, c: Call, k: string)
    requires Logged(cfg, w) && ChoiceOk(w.mem.records, c) && (Restarts(c) ==> Sealed(w.disk))
    requires k in w.mem.records && Guarded(w.mem.records[k])
    requires !MarksKey(c, k)
    ensures SelfKeyed(w.mem.records)
    ensures var w1 := Complete(cfg, w, c).0; k in w1.mem.records && w1.mem.records[k] == w.mem.records[k]
  {
    match c {
      case CallEnqueue(e, cursor, alarm, evidence, choice) => EnqueueKeeps(cfg, w, e, cursor, alarm, evidence, choice);
      case CallAck(cursor) => AckKeeps(cfg, w, cursor);
      case CallReopen => ReopenKeeps(cfg, w, w.faults);
      case CallCrash(_, _, _) => ReopenKeeps(cfg, w, w.faults);
      case _ => AppendKeepsMemory(cfg, w, c);
    }
  }

  /** Only a mark on its own key changes a guarded record; nothing removes it, not even a
      crash between two writes of one call. */
  lemma StepKeepsGuarded(cfg: Config, w: World, c: Call, k: string)
    requires Logged(cfg, w) && SelfKeyed(w.mem.records) && CareTaken(cfg, w, c)
    requires k in w.mem.records && Guarded(w.mem.records[k]) && !Marks(c, k)
    ensures var w1 := Step(cfg, w, c).0; k in w1.mem.records && w1.mem.records[k] == w.mem.records[k]
  {
    assert Logged(cfg, Begin(w));
    if c.CallCrash? {
      CompleteKeepsGuarded(cfg, Begin(w), c.during, k);
      var via := CrashStep(cfg, w, c);
      hide Step, Complete, Logged, Exact;
    } else {
      CompleteKeepsGuarded(cfg, Begin(w), c, k);
    }
  }

  lemma AppendKeepsMemory(cfg: Config, w: World, c: Call)
    requires SelfKeyed(w.mem.records) && IsMark(c)
    ensures var (w1, st) := MarkCall(cfg, w, c);
            && w1.mem == w.mem.(records := w1.mem.records)
            && (st != Ok ==> w1.mem.records == w.mem.records)
            && (st == Ok ==> c.key in w.mem.records
                             && w1.mem.records == w.mem.records[c.key := MarkedRecord(w.mem.records[c.key], c)])
  {
    if c.key in w.mem.records { MarkShape(w.mem.records[c.key], c); }
  }

  lemma CompleteAckMonotone(cfg: Config, w: World, c: Call)
    requires Logged(cfg, w) && ChoiceOk(w.mem.records, c) && (Restarts(c) ==> Sealed(w.disk))
    ensures SelfKeyed(w.mem.records)
    ensures Complete(cfg, w, c).0.mem.lastAck >= w.mem.lastAck
  {
    match c {
      case CallEnqueue(e, cursor, alarm, evidence, choice) => EnqueueKeeps(cfg, w, e, cursor, alarm, evidence, choice);
      case CallAck(cursor) => AckKeeps(cfg, w, cursor);
      case CallReopen => ReopenKeeps(cfg, w, w.faults);
      case CallCrash(_, _, _) => ReopenKeeps(cfg, w, w.faults);
      case _ => AppendKeepsMemory(cfg, w, c);
    }
  }

  /** The acknowledged cursor never moves back. */
  lemma StepAckMonotone(cfg: Config, w: World, c: Call)
    requires Logged(cfg, w) && SelfKeyed(w.mem.records) && CareTaken(cfg, w, c)
    ensures Step(cfg, w, c).0.mem.lastAck >= w.mem.lastAck
  {
    assert Logged(cfg, Begin(w));
    if c.CallCrash? {
      CompleteAckMonotone(cfg, Begin(w), c.during);
      var via := CrashStep(cfg, w, c);
      hide Step, Complete, Logged, Exact;
    } else {
      CompleteAckMonotone(cfg, Begin(w), c);
    }
  }

  lemma EnqueueBound(cfg: Config, w: World, e: Event, cursor: nat, alarm: bool, evidence: bool, choice: Option<string>)
    requires Logged(cfg, w) && IsCoalesceChoice(w.mem.records, e, choice)
    requires |w.mem.records| <= cfg.maxRecords
    ensures |Enqueue(cfg, w, e, cursor, alarm, evidence, choice).0.mem.records| <= cfg.maxRecords
  {
    if w.open && ValidEvent(cfg.deviceId, e) && Key(cfg, e) !in w.mem.records {
      MakeRoomKeeps(cfg, w, e, choice);
      var (w1, st) := MakeRoom(cfg, w, e, choice);
      if st == Ok {
        InsertKeeps(cfg, w1, e, cursor, alarm, evidence);
        GrowsBound(cfg, w1, Insert(cfg, w1, e, cursor, alarm, evidence).0, e);
      }
    }
  }

  lemma GrowsBound(cfg: Config, w: World, w1: World, e: Event)
    requires Grows(cfg, w, w1, e)
    ensures |w1.mem.records| <= |w.mem.records| + 1
  {
    var a, b := w1.mem.records.Keys, w.mem.records.Keys + {Key(cfg, e)};
    SubsetSize(a, b);
    assert |b| <= |w.mem.records.Keys| + 1;
  }

  lemma RestartFinds(cfg: Config, w: World, via: World)
    requires SelfKeyed(w.mem.records) && Recoverable(cfg, via)
    ensures Replay(cfg, via.disk.log).Some? && Restart(cfg, w, via.disk).0.mem == Replay(cfg, via.disk.log).value
  {
  }

  /** The record limit, once met, stays met, except that a restart brings back whatever the
      file replays to: it meets the limit exactly when that does. */
  lemma StepBound(cfg: Config, w: World, c: Call)
    requires Logged(cfg, w) && SelfKeyed(w.mem.records) && CareTaken(cfg, w, c)
    requires |w.mem.records| <= cfg.maxRecords
    ensures |Step(cfg, w, c).0.mem.records| <= cfg.maxRecords <==>
            match RestartFile(cfg, w, c)
            case None => true
            case Some(f) => Replay(cfg, f.log).Some? && |Replay(cfg, f.log).value.records| <= cfg.maxRecords
  {
    hide Logged, Enqueue, MarkCall, Replay, LogSize, CallerSafe, FileAt, IsCoalesceChoice;
    BeginKeeps(cfg, w);
    Keyed(cfg, w);
    var w0 := Begin(w);
    match c {
      case CallEnqueue(e, cursor, alarm, evidence, choice) => EnqueueBound(cfg, w0, e, cursor, alarm, evidence, choice);
      case CallAck(cursor) => AckKeeps(cfg, w0, cursor);
      case CallReopen => RestartFinds(cfg, w0, w0);
      case CallCrash(_, _, _) =>
        var via := CrashStep(cfg, w, c);
        RestartFinds(cfg, Crashed(cfg, w, c), via);
      case _ =>
        AppendKeepsMemory(cfg, w0, c);
        if MarkCall(cfg, w0, c).1 == Ok { PutSize(w.mem.records, c.key, MarkedRecord(w.mem.records[c.key], c)); }
    }
  }

  lemma CompleteBound(cfg: Config, w: World, c: Call)
    requires Exact(cfg, w) && ChoiceOk(w.mem.records, c) && (Restarts(c) ==> Sealed(w.disk))
    requires |w.mem.records| <= cfg.maxRecords
    ensures SelfKeyed(w.mem.records)
    ensures |Complete(cfg, w, c).0.mem.records| <= cfg.maxRecords
  {
    match c {
      case CallEnqueue(e, cursor, alarm, evidence, choice) => EnqueueBound(cfg, w, e, cursor, alarm, evidence, choice);
      case CallAck(cursor) =>
      case CallReopen => RestartSame(cfg, w, w);
      case CallCrash(_, _, _) => RestartSame(cfg, w, w);
      case _ =>
        AppendKeepsMemory(cfg, w, c);
        if MarkCall(cfg, w, c).1 == Ok { PutSize(w.mem.records, c.key, MarkedRecord(w.mem.records[c.key], c)); }
    }
  }

  lemma RestartSame(cfg: Config, w: World, via: World)
    requires SelfKeyed(w.mem.records) && Exact(cfg, via) && Sealed(via.disk)
    ensures Restart(cfg, w, via.disk).0.mem.records == via.mem.records
  {
  }

  lemma LessSize(cfg: Config, base: Mem, m: Mem)
    requires Less(cfg, base, m)
    ensures |m.records| <= |base.records|
  {
    assert m.records.Keys <= base.records.Keys;
    SubsetSize(m.records.Keys, base.records.Keys);
  }

  /** From an exact world the file always meets it, wherever in a call the crash falls. */
  lemma ExactBound(cfg: Config, w: World, c: Call)
    requires Exact(cfg, w) && SelfKeyed(w.mem.records) && CareTaken(cfg, w, c)
    requires |w.mem.records| <= cfg.maxRecords
    ensures |Step(cfg, w, c).0.mem.records| <= cfg.maxRecords
  {
    hide Exact, Logged, Less, Complete, Restart, CrashFile, SameState, ChoiceOk, CallerSafe, RestartOk;
    ExactLogged(cfg, w);
    BeginKeeps(cfg, w);
    if c.CallCrash? {
      var via := CrashStep(cfg, w, c);
      CrashExact(cfg, w, c, via);
      RestartSame(cfg, Crashed(cfg, w, c), via);
      CrashBound(cfg, w, c, via);
    } else {
      CompleteRestarts(cfg, w, c);
      CompleteBound(cfg, Begin(w), c);
    }
  }

  lemma CompleteRestarts(cfg: Config, w: World, c: Call)
    requires SelfKeyed(w.mem.records) && RestartOk(cfg, w, c)
    ensures var d := if c.CallCrash? then c.during else c; Restarts(d) ==> Sealed(w.disk)
  {
  }

  /** A crash out of an exact world leads to an exact one. */
  lemma CrashExact(cfg: Config, w: World, c: Call, via: World)
    requires Exact(cfg, w) && SelfKeyed(w.mem.records) && c.CallCrash? && CareTaken(cfg, w, c) && Logged(cfg, via)
    requires var w1 := Complete(cfg, Begin(w), c.during);
             || SameState(via, w) || Exact(cfg, via) || (SameState(via, w1.0) && w1.1 == Ok)
    ensures Exact(cfg, via)
  {
    hide Exact, Logged, Complete, SameState, RestartOk;
    CompleteRestarts(cfg, w, c);
    if SameState(via, w) {
      SameStateExact(cfg, via, w);
    } else if !Exact(cfg, via) {
      CompleteExact(cfg, w, c.during);
      SameStateExact(cfg, via, Complete(cfg, Begin(w), c.during).0);
    }
  }

  lemma CrashBound(cfg: Config, w: World, c: Call, via: World)
    requires Exact(cfg, w) && SelfKeyed(w.mem.records) && c.CallCrash? && CareTaken(cfg, w, c)
    requires |w.mem.records| <= cfg.maxRecords
    requires var w1 := Complete(cfg, Begin(w), c.during).0;
             SameState(via, w) || Less(cfg, w.mem, via.mem) || SameState(via, w1)
    ensures |via.mem.records| <= cfg.maxRecords
  {
    hide Exact, Complete, Less, RestartOk, CallerSafe;
    CompleteRestarts(cfg, w, c);
    BeginKeeps(cfg, w);
    CompleteBound(cfg, Begin(w), c.during);
    if Less(cfg, w.mem, via.mem) { LessSize(cfg, w.mem, via.mem); }
  }

  lemma PutSize<V>(m: map<string, V>, k: string, v: V)
    requires k in m
    ensures |m[k := v]| == |m|
  {
    assert m[k := v].Keys == m.Keys;
  }

  // ---------- whole runs ----------

  /** The world after a sequence of calls, crashes and restarts included. */
  ghost function Run(cfg: Config, w: World, cs: seq<Call>): (r: World)
    requires SelfKeyed(w.mem.records)
    ensures SelfKeyed(r.mem.records)
  {
    if cs == [] then w else Step(cfg, Run(cfg, w, cs[..|cs| - 1]), cs[|cs| - 1]).0
  }

  /** Care is taken of every call of the run when it is made. */
  ghost predicate Careful(cfg: Config, w: World, cs: seq<Call>)
    requires SelfKeyed(w.mem.records)
  {
    cs == [] ||
    (var front := cs[..|cs| - 1];
     Careful(cfg, w, front) && CareTaken(cfg, Run(cfg, w, front), cs[|cs| - 1]))
  }

  /** Replay refinement: after any careful run the entries of the file replay to memory's
      records and cursor, with nothing else that waits, and fit the byte limit; a load finds
      them as long as no lost newline has put two of them on a line. */
  lemma {:induction false} RunRecoverable(cfg: Config, w: World, cs: seq<Call>)
    requires Logged(cfg, w) && SelfKeyed(w.mem.records) && Careful(cfg, w, cs)
    ensures Logged(cfg, Run(cfg, w, cs))
    ensures Recoverable(cfg, Run(cfg, w, cs)) <==> Sealed(Run(cfg, w, cs).disk)
  {
    hide Logged, CallerSafe, ChoiceOk, RestartOk, Step, Poisons;
    if cs != [] {
      var front, c := cs[..|cs| - 1], cs[|cs| - 1];
      RunRecoverable(cfg, w, front);
      StepLoggedIff(cfg, Run(cfg, w, front), c);
      SafeClean(cfg, Run(cfg, w, front), c);
    }
  }

  /** No call of the run trips making room for bytes. */
  ghost predicate NoneCorners(cfg: Config, w: World, cs: seq<Call>)
    requires SelfKeyed(w.mem.records)
  {
    cs == [] ||
    (var front := cs[..|cs| - 1];
     NoneCorners(cfg, w, front) && !Corners(cfg, Run(cfg, w, front), cs[|cs| - 1]))
  }

  /** File and memory hold the same records at every moment of the run. */
  ghost predicate ExactThroughout(cfg: Config, w: World, cs: seq<Call>)
    requires SelfKeyed(w.mem.records)
  {
    forall n | 0 <= n <= |cs| :: Exact(cfg, Run(cfg, w, cs[..n]))
  }

  lemma ExactFront(cfg: Config, w: World, cs: seq<Call>)
    requires SelfKeyed(w.mem.records) && cs != []
    ensures ExactThroughout(cfg, w, cs) <==>
            ExactThroughout(cfg, w, cs[..|cs| - 1]) && Exact(cfg, Run(cfg, w, cs))
  {
    hide Exact, Run;
    var front := cs[..|cs| - 1];
    assert cs[..|cs|] == cs;
    assert forall n | 0 <= n <= |front| :: front[..n] == cs[..n];
  }

  /** File and memory hold the same records throughout a careful run exactly when no START
      or END gets stuck making room for its bytes. */
  lemma {:induction false} RunExact(cfg: Config, w: World, cs: seq<Call>)
    requires Exact(cfg, w) && SelfKeyed(w.mem.records) && Careful(cfg, w, cs)
    ensures ExactThroughout(cfg, w, cs) <==> NoneCorners(cfg, w, cs)
  {
    if cs == [] {
      assert cs[..0] == cs;
    } else {
      var front, c := cs[..|cs| - 1], cs[|cs| - 1];
      RunExact(cfg, w, front);
      ExactFront(cfg, w, cs);
      var before := Run(cfg, w, front);
      assert front[..|front|] == front;
      hide Exact, CallerSafe, ChoiceOk;
      if ExactThroughout(cfg, w, front) {
        SafeClean(cfg, before, c);
        StepExact(cfg, before, c);
      }
      hide Step, Corners;
    }
  }

  /** Then the record limit, once met, holds throughout as well. */
  lemma {:induction false} RunBound(cfg: Config, w: World, cs: seq<Call>)
    requires Exact(cfg, w) && SelfKeyed(w.mem.records) && Careful(cfg, w, cs) && NoneCorners(cfg, w, cs)
    requires |w.mem.records| <= cfg.maxRecords
    ensures Exact(cfg, Run(cfg, w, cs)) && |Run(cfg, w, cs).mem.records| <= cfg.maxRecords
  {
    if cs != [] {
      var front, c := cs[..|cs| - 1], cs[|cs| - 1];
      var before := Run(cfg, w, front);
      RunBound(cfg, w, front);
      SafeClean(cfg, before, c);
      StepExact(cfg, before, c);
      ExactBound(cfg, before, c);
      hide Step, Corners, Exact, CallerSafe, ChoiceOk, Poisons;
    }
  }

  // ---------- with the encoder's sizes ----------

  /** While no compaction fails on the file system, no START or END trips. */
  lemma ReliableNeverCorners(cfg: Config, enc: Encoding, w: World, c: Call)
    requires Plain(cfg, enc) && Logged(cfg, w) && SelfKeyed(w.mem.records) && ChoiceOk(w.mem.records, c)
    requires Reliable(w.faults)
    ensures !Corners(cfg, w, c)
  {
    hide Plain, Logged, Cornered, MakeRoom, Key, ValidEvent, IsCoalesceChoice, Shrinks, Exact, Reliable;
    BeginKeeps(cfg, w);
    if c.CallEnqueue? {
      MakeRoomKeeps(cfg, Begin(w), c.event, c.choice);
      RoomReliable(cfg, Begin(w), c.event, c.choice);
      var w1 := MakeRoom(cfg, Begin(w), c.event, c.choice).0;
      var (w0, entry) := Prepare(cfg, w1, c.event, c.cursor, c.alarmEnabled, c.evidenceEnabled);
      PreparedLogged(cfg, w1, c.event, c.cursor, c.alarmEnabled, c.evidenceEnabled);
      NeverCornered(cfg, enc, w0, cfg.lineSize(entry));
    }
  }

  lemma PreparedLogged(cfg: Config, w: World, e: Event, cursor: nat, alarm: bool, evidence: bool)
    requires Logged(cfg, w)
    ensures var w0 := Prepare(cfg, w, e, cursor, alarm, evidence).0; Logged(cfg, w0) && w0.faults == w.faults
  {
    hide NewRecord;
  }

  lemma NeverCornered(cfg: Config, enc: Encoding, w: World, need: nat)
    requires Plain(cfg, enc) && Logged(cfg, w) && Reliable(w.faults)
    ensures SelfKeyed(w.mem.records) && !Cornered(cfg, w, need)
  {
    hide Plain, Logged, Trips, FaultTrips, Reliable, Weight, SnapshotEntry;
    LoggedMem(cfg, w);
    MemoryFits(cfg, enc, w);
    LaterReliable(w.faults);
    TripsIsFault(cfg, enc, w.mem, need, w.faults);
    TripsIsFault(cfg, enc, w.mem, need, Later(w.faults));
    ReliableNeverTrips(cfg, w.mem, need, w.faults);
    ReliableNeverTrips(cfg, w.mem, need, Later(w.faults));
  }

  /** Only a compaction that fails on the file system can part file and memory: in a careful
      run without one they hold the same records throughout, and the record limit, once met,
      holds throughout, restarts and crashes included. */
  lemma {:induction false} RunPlain(cfg: Config, enc: Encoding, w: World, cs: seq<Call>)
    requires Plain(cfg, enc) && Exact(cfg, w) && SelfKeyed(w.mem.records) && Careful(cfg, w, cs)
    requires Reliable(w.faults) && |w.mem.records| <= cfg.maxRecords
    ensures NoneCorners(cfg, w, cs) && ExactThroughout(cfg, w, cs)
    ensures |Run(cfg, w, cs).mem.records| <= cfg.maxRecords && Reliable(Run(cfg, w, cs).faults)
  {
    hide Plain, Exact, Step, Corners, CareTaken, ExactThroughout, Reliable;
    RunExact(cfg, w, cs);
    if cs != [] {
      var front, c := cs[..|cs| - 1], cs[|cs| - 1];
      var before := Run(cfg, w, front);
      RunPlain(cfg, enc, w, front);
      RunBound(cfg, w, front);
      ExactLogged(cfg, before);
      CareChoice(cfg, before, c);
      ReliableNeverCorners(cfg, enc, before, c);
      ExactBound(cfg, before, c);
      StepReliable(cfg, before, c);
    }
  }

  lemma CareChoice(cfg: Config, w: World, c: Call)
    requires SelfKeyed(w.mem.records) && CareTaken(cfg, w, c)
    ensures ChoiceOk(w.mem.records, c)
  {
  }

  /** Pressure safety over a run: a guarded record that nobody marks is there at the
      end, unchanged, in memory and in the file; the cursor never moves back. */
  lemma {:induction false} RunKeepsGuarded(cfg: Config, w: World, cs: seq<Call>, k: string)
    requires Logged(cfg, w) && SelfKeyed(w.mem.records) && Careful(cfg, w, cs)
    requires k in w.mem.records && Guarded(w.mem.records[k])
    requires forall i | 0 <= i < |cs| :: !Marks(cs[i], k)
    ensures var end := Run(cfg, w, cs);
            && k in end.mem.records && end.mem.records[k] == w.mem.records[k]
            && Replay(cfg, end.disk.log).Some? && k in Replay(cfg, end.disk.log).value.records
            && Replay(cfg, end.disk.log).value.records[k] == w.mem.records[k]
            && end.mem.lastAck >= w.mem.lastAck
  {
    RunRecoverable(cfg, w, cs);
    if cs != [] {
      var front, c := cs[..|cs| - 1], cs[|cs| - 1];
      assert c == cs[|cs| - 1];
      RunKeepsGuarded(cfg, w, front, k);
      RunRecoverable(cfg, w, front);
      StepKeepsGuarded(cfg, Run(cfg, w, front), c, k);
      StepAckMonotone(cfg, Run(cfg, w, front), c);
    }
  }

  function NewStore(faults: seq<bool>): World { World(EmptyMem, File([], None), true, [], faults) }

  /** A new, empty outbox starts exact. */
  lemma EmptyExact(cfg: Config, faults: seq<bool>)
    ensures Reopen(cfg, File([], None), faults) == Some(NewStore(faults))
    ensures Exact(cfg, NewStore(faults)) && Recoverable(cfg, NewStore(faults))
  {
  }
}
