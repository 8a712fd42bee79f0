// Two runs that show what the journal's evictions can do. In one a crash between the compaction
// and the write of an append takes the newest record with it, its cursor is given out again,
// and the daemon misses a START. In the other the daemon comes too late and never streams.
module PipelineExample {
  import opened Common
  import opened EventContract
  import opened OutboxModel
  import opened OutboxSpec
  import opened OutboxProofs
  import opened OutboxCalls
  import opened OutboxExamples
  import opened OutboxOrigin
  import opened OutboxRuns
  import opened Pipeline
  import opened PipelineProofs
  import opened PipelineGaps
  import J = EventJournal

  lemma QuietHistory(u: Setup, s: Sys, t: Sys)
    requires t.box == s.box && t.onDisk == s.onDisk && OnDisk(u.cfg, s.box) <= s.onDisk
    ensures t.(onDisk := t.onDisk + OnDisk(u.cfg, t.box)) == t
  {
    assert t.onDisk + OnDisk(u.cfg, t.box) == t.onDisk;
  }

  // ---------- one such run ----------

  /** A journal of two records, and an outbox with room to spare. */
  function Demo(): Setup {
    Setup(Config("d", 10, 100, (s: string) => s, (e: Entry) => 1), J.Limits(2, 100, (c: nat, e: Event) => 1),
          Delivery(false, false, false))
  }

  const FirstStart := J.Rec(1, Ev(Start, 1, ""), 1)
  const FirstUpdate := J.Rec(2, Ev(Update, 2, ""), 1)
  const FirstEnd := Ev(End, 3, "")
  const NextStart := Event("f", "c", Start, 1, "", "")

  /** The journal holds all of `recs`; `acked` is acknowledged, `size` lines are in the outbox. */
  ghost predicate Stage(s: Sys, recs: seq<J.Rec>, acked: nat, size: nat) {
    && Sound(Demo(), s)
    && s.journal.records == recs == s.all && s.lost == {} && s.journal.nextCursor == |recs|
    && s.box.mem.lastAck == acked && s.box.open && FileSize(Demo().cfg, s.box.disk) == size
    && |s.box.mem.records| <= size
  }

  predicate Calm(acts: seq<Action>) { forall i | 0 <= i < |acts| :: !acts[i].EngineCrash? && !acts[i].DaemonCrash? }

  /** The run so far, without a crash. */
  ghost predicate Reaches(ss: seq<Sys>, acts: seq<Action>, s: Sys) {
    IsRun(Demo(), ss, acts) && ss[|acts|] == s && Calm(acts)
  }

  lemma RunOn(ss: seq<Sys>, acts: seq<Action>, a: Action)
    requires IsRun(Demo(), ss, acts) && SelfKeyed(ss[|acts|].box.mem.records)
    ensures IsRun(Demo(), ss + [Next(Demo(), ss[|acts|], a)], acts + [a])
  {
    hide Next;
    var (ss1, acts1) := (ss + [Next(Demo(), ss[|acts|], a)], acts + [a]);
    forall i | 0 <= i < |acts1|
      ensures SelfKeyed(ss1[i].box.mem.records) && ss1[i + 1] == Next(Demo(), ss1[i], acts1[i])
    {
      if i < |acts| { assert ss1[i] == ss[i] && ss1[i + 1] == ss[i + 1] && acts1[i] == acts[i]; }
    }
  }

  lemma Extend(ss: seq<Sys>, acts: seq<Action>, s: Sys, a: Action)
    requires Reaches(ss, acts, s) && SelfKeyed(s.box.mem.records) && !a.EngineCrash? && !a.DaemonCrash?
    ensures Reaches(ss + [Next(Demo(), s, a)], acts + [a], Next(Demo(), s, a))
  {
    hide Next;
    RunOn(ss, acts, a);
  }

  lemma CalmSpared(ss: seq<Sys>, acts: seq<Action>)
    requires IsRun(Demo(), ss, acts) && Calm(acts)
    ensures SparedRun(Demo(), ss, acts)
  {
    hide Next, UnderWay, RestartOk, J.RoomMade;
  }

  lemma ReachesGenuine(ss: seq<Sys>, acts: seq<Action>, s: Sys)
    requires Reaches(ss, acts, s)
    ensures Sound(Demo(), s) && Genuine(Demo(), s)
  {
    hide Next, Sound, Genuine;
    CalmSpared(ss, acts);
    RunSound(Demo(), ss, acts, |acts|);
  }

  lemma StageStart()
    ensures var s := Fresh([]);
            Stage(s, [], 0, 0) && Reaches([s], [], s)
  {
    StartSound(Demo(), []);
  }

  lemma StageSound(s: Sys, recs: seq<J.Rec>, acked: nat, size: nat)
    requires Stage(s, recs, acked, size)
    ensures Sound(Demo(), s) && SelfKeyed(s.box.mem.records) && Logged(Demo().cfg, s.box)
  {
    SoundBox(Demo(), s);
  }

  lemma Produced(s: Sys, recs: seq<J.Rec>, e: Event) returns (t: Sys)
    requires Stage(s, recs, 0, 0) && recs in {[], [FirstStart]} && KnownPhase(e.phase)
    ensures SelfKeyed(s.box.mem.records) && t == Next(Demo(), s, Produce(e))
    ensures Stage(t, recs + [J.Rec(|recs| + 1, e, 1)], 0, 0) && t.link == s.link && t.loop == s.loop
  {
    hide Sound, OnDisk, SelfKeyed, FileSize;
    StageSound(s, recs, 0, 0);
    NextSound(Demo(), s, Produce(e));
    t := Next(Demo(), s, Produce(e));
    assert J.Sum([]) == 0 && J.Sum([FirstStart]) == 1;
  }

  lemma Connected(s: Sys, recs: seq<J.Rec>) returns (t: Sys)
    requires Stage(s, recs, 0, 0) && s.loop.Idle?
    ensures SelfKeyed(s.box.mem.records) && t == Next(Demo(), s, Connect)
    ensures Stage(t, recs, 0, 0) && t.link == Requested(0) && t.loop.AwaitReply?
  {
    hide Sound, OnDisk, SelfKeyed, FileSize;
    StageSound(s, recs, 0, 0);
    NextSound(Demo(), s, Connect);
    t := Next(Demo(), s, Connect);
  }

  lemma Served(s: Sys) returns (t: Sys)
    requires Stage(s, [FirstStart, FirstUpdate], 0, 0) && s.link == Requested(0)
    ensures SelfKeyed(s.box.mem.records) && t == Next(Demo(), s, ServeSubscribe)
    ensures Stage(t, [FirstStart, FirstUpdate], 0, 0) && t.loop == s.loop
    ensures t.link == Open([Reply(false), Notify(FirstStart), Notify(FirstUpdate)])
  {
    hide Sound, OnDisk, SelfKeyed, FileSize;
    var recs := [FirstStart, FirstUpdate];
    StageSound(s, recs, 0, 0);
    NextSound(Demo(), s, ServeSubscribe);
    t := Next(Demo(), s, ServeSubscribe);
    assert recs[1..] == [FirstUpdate] && J.After([FirstUpdate], 0) == [FirstUpdate];
    assert J.After(recs, 0) == [FirstStart] + [FirstUpdate] == recs;
    assert !J.Gap([FirstUpdate], 1);
    assert !J.Gap(recs, 0);
    assert [Reply(false)] + Notifies(recs) == [Reply(false), Notify(FirstStart), Notify(FirstUpdate)];
  }

  /** One message read, in either state that expects it. */
  lemma Read(s: Sys, recs: seq<J.Rec>, acked: nat, size: nat, m: Msg, rest: seq<Msg>) returns (t: Sys)
    requires Stage(s, recs, acked, size) && s.link == Open([m] + rest)
    requires (s.loop.AwaitReply? && m == Reply(false)) || (s.loop.Streaming? && m.Notify?)
    ensures SelfKeyed(s.box.mem.records) && t == Next(Demo(), s, Receive)
    ensures Stage(t, recs, acked, size) && t.link == Open(rest) && t.box == s.box
    ensures t.loop == if m.Notify? then Received(m.rec) else Streaming
  {
    hide Sound, OnDisk, SelfKeyed, FileSize, Next, DoReceive;
    StageSound(s, recs, acked, size);
    NextSound(Demo(), s, Receive);
    t := Next(Demo(), s, Receive);
    NextReceives(s);
    ReceiveTakes(s, m, rest);
  }

  lemma NextReceives(s: Sys)
    requires Sound(Demo(), s) && SelfKeyed(s.box.mem.records)
    ensures Next(Demo(), s, Receive) == DoReceive(s)
  {
    hide OnDisk;
    QuietHistory(Demo(), s, DoReceive(s));
  }

  lemma ReceiveTakes(s: Sys, m: Msg, rest: seq<Msg>)
    requires s.link == Open([m] + rest)
    requires (s.loop.AwaitReply? && m == Reply(false)) || (s.loop.Streaming? && m.Notify?)
    ensures DoReceive(s) == s.(link := Open(rest), loop := if m.Notify? then Received(m.rec) else Streaming)
  {
    HeadOff(m, rest);
  }

  lemma HeadOff(m: Msg, rest: seq<Msg>)
    ensures [m] + rest != [] && ([m] + rest)[0] == m && ([m] + rest)[1..] == rest
  {
  }

  lemma PreparedFor(cfg: Config, w: World, e: Event, cursor: nat, alarm: bool)
    ensures var (w0, entry) := Prepare(cfg, w, e, cursor, alarm, false);
            w0.mem.lastAck == w.mem.lastAck && entry.op.record.event == e
  {
  }

  lemma StoreIs(u: Setup, s: Sys, r: J.Rec, choice: Option<string>)
    requires SelfKeyed(s.box.mem.records) && s.loop == Received(r)
    requires IsCoalesceChoice(s.box.mem.records, r.event, choice)
    ensures var alarm := AlarmEnabled(u.delivery, r.event.phase);
            var (w, res) := Enqueue(u.cfg, Begin(s.box), r.event, r.cursor, alarm, u.delivery.evidence, choice);
            res.Added? ==> Act(u, s, Store(choice)) == s.(box := w, loop := Storing(r))
  {
    hide Enqueue, IsCoalesceChoice;
  }

  /** The record in hand is new to the outbox and gets in. */
  lemma Kept(s: Sys, recs: seq<J.Rec>, acked: nat, size: nat, r: J.Rec) returns (t: Sys)
    requires Stage(s, recs, acked, size) && size < 10 && s.loop == Received(r)
    requires ValidEvent("d", r.event) && Key(Demo().cfg, r.event) !in s.box.mem.records
    requires forall k | k in s.box.mem.records :: !s.box.mem.records[k].event.phase.Update?
    ensures SelfKeyed(s.box.mem.records) && t == Next(Demo(), s, Store(None))
    ensures Stage(t, recs, acked, size + 1) && t.link == s.link && t.loop == Storing(r)
    ensures t.box.mem.records.Keys == s.box.mem.records.Keys + {Key(Demo().cfg, r.event)}
    ensures forall k | k in t.box.mem.records && k in s.box.mem.records ::
              t.box.mem.records[k].event == s.box.mem.records[k].event || t.box.mem.records[k].event == r.event
    ensures t.box.mem.records[Key(Demo().cfg, r.event)].event == r.event
  {
    hide Sound, OnDisk, SelfKeyed, FileSize, Logged, Key, ValidEvent, Enqueue, Replay, Act, Next, Extended, DoStore,
      Prepare, NewRecord, ValidRecord, Begin;
    var u := Demo();
    StageSound(s, recs, acked, size);
    PreparedFor(u.cfg, s.box, r.event, r.cursor, AlarmEnabled(u.delivery, r.event.phase));
    NextSound(u, s, Store(None));
    t := Next(u, s, Store(None));
    OnlyHistory(u, s, Store(None));
    StoreIs(u, s, r, None);
    PlainEnqueue(u.cfg, s.box, r.event, r.cursor, AlarmEnabled(u.delivery, r.event.phase), None);
  }

  /** And is acknowledged. */
  lemma Acked(s: Sys, recs: seq<J.Rec>, acked: nat, size: nat, r: J.Rec) returns (t: Sys)
    requires Stage(s, recs, acked, size) && size < 10 && s.loop == Storing(r) && r.cursor > acked
    ensures SelfKeyed(s.box.mem.records) && t == Next(Demo(), s, Acknowledge)
    ensures Stage(t, recs, r.cursor, size + 1) && t.link == s.link && t.loop.Streaming?
    ensures t.box.mem.records == s.box.mem.records
  {
    hide Sound, OnDisk, SelfKeyed, Logged, Replay;
    var u := Demo();
    StageSound(s, recs, acked, size);
    NextSound(u, s, Acknowledge);
    t := Next(u, s, Acknowledge);
    ReplaySnoc(u.cfg, s.box.disk.log, Entry(JOURNAL_VERSION, "", AckOp(r.cursor)));
  }

  // ---------- the run ----------

  const BothRecs := [FirstStart, FirstUpdate]

  lemma Subscribed() returns (ss: seq<Sys>, acts: seq<Action>, s: Sys)
    ensures Reaches(ss, acts, s) && Stage(s, BothRecs, 0, 0) && s.loop.Streaming?
    ensures s.link == Open([Notify(FirstStart), Notify(FirstUpdate)]) && |acts| == 5
  {
    hide Stage, Reaches, Next;
    var s0 := Fresh([]);
    StageStart();
    var s1 := Produced(s0, [], FirstStart.event);
    Extend([s0], [], s0, Produce(FirstStart.event));
    assert [] + [FirstStart] == [FirstStart];
    var s2 := Produced(s1, [FirstStart], FirstUpdate.event);
    Extend([s0] + [s1], [] + [Produce(FirstStart.event)], s1, Produce(FirstUpdate.event));
    assert [FirstStart] + [FirstUpdate] == BothRecs;
    ss, acts, s := Served2([s0] + [s1] + [s2], [] + [Produce(FirstStart.event)] + [Produce(FirstUpdate.event)], s2);
  }

  lemma Served2(ss0: seq<Sys>, acts0: seq<Action>, s2: Sys) returns (ss: seq<Sys>, acts: seq<Action>, s: Sys)
    requires Reaches(ss0, acts0, s2) && Stage(s2, BothRecs, 0, 0) && s2.loop.Idle? && s2.link.Closed?
    ensures Reaches(ss, acts, s) && Stage(s, BothRecs, 0, 0) && s.loop.Streaming?
    ensures s.link == Open([Notify(FirstStart), Notify(FirstUpdate)]) && |acts| == |acts0| + 3
  {
    hide Stage, Reaches, Next;
    var s3 := Connected(s2, BothRecs);
    Extend(ss0, acts0, s2, Connect);
    var s4 := Served(s3);
    Extend(ss0 + [s3], acts0 + [Connect], s3, ServeSubscribe);
    var rest := [Notify(FirstStart), Notify(FirstUpdate)];
    assert s4.link == Open([Reply(false)] + rest);
    s := Read(s4, BothRecs, 0, 0, Reply(false), rest);
    Extend(ss0 + [s3] + [s4], acts0 + [Connect] + [ServeSubscribe], s4, Receive);
    ss, acts := ss0 + [s3] + [s4] + [s], acts0 + [Connect] + [ServeSubscribe] + [Receive];
  }

  /** Read, store and acknowledge one record. */
  lemma Taken(ss0: seq<Sys>, acts0: seq<Action>, s0: Sys, acked: nat, size: nat, r: J.Rec, rest: seq<Msg>)
    returns (ss: seq<Sys>, acts: seq<Action>, s: Sys)
    requires Reaches(ss0, acts0, s0) && Stage(s0, BothRecs, acked, size) && s0.loop.Streaming? && size < 9
    requires s0.link == Open([Notify(r)] + rest) && r.cursor > acked
    requires ValidEvent("d", r.event) && Key(Demo().cfg, r.event) !in s0.box.mem.records
    requires forall k | k in s0.box.mem.records :: !s0.box.mem.records[k].event.phase.Update?
    ensures Reaches(ss, acts, s) && Stage(s, BothRecs, r.cursor, size + 2) && s.loop.Streaming? && s.link == Open(rest)
    ensures s.box.mem.records.Keys == s0.box.mem.records.Keys + {Key(Demo().cfg, r.event)}
    ensures s0.box.mem.records == map[] ==> s.box.mem.records[Key(Demo().cfg, r.event)].event == r.event
    ensures |acts| == |acts0| + 3
  {
    hide Stage, Reaches, Next, Key, ValidEvent;
    var s1 := Read(s0, BothRecs, acked, size, Notify(r), rest);
    Extend(ss0, acts0, s0, Receive);
    var s2 := Kept(s1, BothRecs, acked, size, r);
    Extend(ss0 + [s1], acts0 + [Receive], s1, Store(None));
    s := Acked(s2, BothRecs, acked, size + 1, r);
    Extend(ss0 + [s1] + [s2], acts0 + [Receive] + [Store(None)], s2, Acknowledge);
    ss, acts := ss0 + [s1] + [s2] + [s], acts0 + [Receive] + [Store(None)] + [Acknowledge];
  }

  lemma EventIdInKey(e: Event)
    requires |e.eventId| == 1 && e.channelId == "c"
    ensures |Key(Demo().cfg, e)| > 4 && Key(Demo().cfg, e)[4] == e.eventId[0]
  {
    var prefix := "d" + "|" + "c" + "|" + e.eventId;
    assert |prefix| == 5 && prefix[4] == e.eventId[0];
  }

  lemma NextStartNew(s: Sys)
    requires s.all == BothRecs && s.lost == {} && Genuine(Demo(), s)
    ensures !KeyHeld(s.onDisk, Key(Demo().cfg, NextStart))
  {
    EventIdInKey(NextStart);
    EventIdInKey(FirstStart.event);
    EventIdInKey(FirstUpdate.event);
    hide Key;
    forall h | h in s.onDisk ensures h.key[4] == 'e' {
      assert h in Accepted(Demo(), Ever(s));
    }
  }

  lemma Acknowledged() returns (ss: seq<Sys>, acts: seq<Action>, s: Sys)
    ensures Reaches(ss, acts, s) && Stage(s, BothRecs, 2, 4) && s.loop.Streaming? && |acts| == 11
  {
    hide Stage, Reaches, Next, Key, ValidEvent;
    ss, acts, s := Subscribed();
    assert s.box.mem.records == map[] by { EmptyBox(s); }
    EvValid(Demo().cfg, Start, 1, "");
    EvValid(Demo().cfg, Update, 2, "");
    KeysDiffer(Demo().cfg, FirstStart.event, FirstUpdate.event);
    assert s.link == Open([Notify(FirstStart)] + [Notify(FirstUpdate)]);
    ss, acts, s := Taken(ss, acts, s, 0, 0, FirstStart, [Notify(FirstUpdate)]);
    assert s.link == Open([Notify(FirstUpdate)] + []);
    ss, acts, s := Taken(ss, acts, s, 1, 2, FirstUpdate, []);
  }

  lemma EmptyBox(s: Sys)
    requires Stage(s, BothRecs, 0, 0)
    ensures s.box.mem.records == map[]
  {
  }

  /** Fourteen actions: the engine accepts a START and an UPDATE and the daemon acknowledges
      both; the engine dies appending the END, its journal compacted and the END not written;
      it starts again and accepts the START of another event, which gets the UPDATE's cursor
      and is told to nobody. The daemon is past that cursor, so that it misses the START, now
      and whatever the two do from there. */
  lemma BoundaryLost(later: seq<Action>) returns (ss: seq<Sys>, acts: seq<Action>, r: J.Rec)
    ensures IsRun(Demo(), ss, acts) && |acts| == 14 && acts[11] == EngineCrash(FirstEnd)
    ensures r.event == NextStart && r in ss[14].all && r.cursor == 2 == ss[14].box.mem.lastAck
    ensures SelfKeyed(ss[14].box.mem.records)
    ensures AllLoadable(Demo(), ss[14], later) ==> HeldAs(Demo(), r) !in Ahead(Demo(), ss[14], later).onDisk
  {
    hide Reaches, Stage, IsRun, Missed, AllLoadable, Next, Ahead;
    var s: Sys;
    ss, acts, s := Acknowledged();
    var s1, s2, s3;
    s1, s2, s3, r := Restarted3(ss, acts, s);
    ReachedRun(ss, acts, s);
    RunOn(ss, acts, EngineCrash(FirstEnd));
    ss, acts := ss + [s1], acts + [EngineCrash(FirstEnd)];
    RunOn(ss, acts, Produce(NextStart));
    ss, acts := ss + [s2], acts + [Produce(NextStart)];
    RunOn(ss, acts, Broadcast);
    ss, acts := ss + [s3], acts + [Broadcast];
    MissedDisk(Demo(), s3, r);
    if AllLoadable(Demo(), s3, later) { RunMissed(Demo(), s3, later, r); }
  }

  lemma ReachedRun(ss: seq<Sys>, acts: seq<Action>, s: Sys)
    requires Reaches(ss, acts, s)
    ensures IsRun(Demo(), ss, acts) && |ss| == |acts| + 1 && ss[|acts|] == s
  {
    hide Next, Sound;
  }

  lemma Restarted3(ss: seq<Sys>, acts: seq<Action>, s: Sys) returns (s1: Sys, s2: Sys, s3: Sys, r: J.Rec)
    requires Reaches(ss, acts, s) && Stage(s, BothRecs, 2, 4) && s.loop.Streaming?
    ensures SelfKeyed(s.box.mem.records) && s1 == Next(Demo(), s, EngineCrash(FirstEnd))
    ensures s2 == Next(Demo(), s1, Produce(NextStart)) && s3 == Next(Demo(), s2, Broadcast)
    ensures r.event == NextStart && r.cursor == 2 == s3.box.mem.lastAck && Missed(Demo(), s3, r)
  {
    hide Reaches, Sound, Genuine, Key, KeyHeld, Next, J.RoomMade, J.Append, Clear, Missed, OnDisk, SelfKeyed, FileSize;
    var u := Demo();
    var key := Key(u.cfg, NextStart);
    ReachesGenuine(ss, acts, s);
    NextStartNew(s);
    StageSound(s, BothRecs, 2, 4);
    RoomTaken(s.journal);
    CrashClear(u, s, FirstEnd, key);
    s1 := Next(u, s, EngineCrash(FirstEnd));
    RolledBack(s);
    Renumbered(s1.journal);
    r := ProducedMissed(u, s1, NextStart);
    s2 := Next(u, s1, Produce(NextStart));
    s3 := Next(u, s2, Broadcast);
    BoxStays(u, s1, NextStart);
  }

  /** The engine is back with the START alone. */
  lemma RolledBack(s: Sys)
    requires Stage(s, BothRecs, 2, 4) && SelfKeyed(s.box.mem.records)
    ensures Next(Demo(), s, EngineCrash(FirstEnd)).journal == J.Journal([FirstStart], 1, 1, 0)
  {
    hide Sound, OnDisk, SelfKeyed, FileSize, J.RoomMade, J.Reopen;
    RoomTaken(s.journal);
  }

  /** And gives the next START the cursor of the UPDATE it lost. */
  lemma Renumbered(j: J.Journal)
    requires j == J.Journal([FirstStart], 1, 1, 0)
    ensures J.Append(Demo().lim, j, NextStart).1 == J.Accepted(2)
  {
    hide J.Evict, J.Fits;
    FitsAfter();
  }

  lemma FitsAfter()
    ensures J.Evict(Demo().lim, [FirstStart], 1, 1) == Some([FirstStart])
  {
    assert J.Sum([]) == 0 && J.Sum([FirstStart]) == 1;
  }

  lemma BoxStays(u: Setup, s: Sys, e: Event)
    requires SelfKeyed(s.box.mem.records)
    ensures Next(u, Next(u, s, Produce(e)), Broadcast).box == s.box
  {
    hide OnDisk, J.Append;
  }

  /** Making room for the END evicts the UPDATE, the newest record. */
  lemma RoomTaken(j: J.Journal)
    requires j.records == BothRecs && j.nextCursor == 2
    ensures J.RoomMade(Demo().lim, j, FirstEnd) == [FirstStart]
    ensures J.Reopen(Demo().lim, [FirstStart]) == Some(J.Journal([FirstStart], 1, 1, 0))
  {
    var lim := Demo().lim;
    assert J.Sum([]) == 0 && J.Sum([FirstStart]) == 1;
    assert BothRecs[1..] == [FirstUpdate] && J.OldestUpdate([FirstUpdate]) == 0;
    assert J.OldestUpdate(BothRecs) == 1 && J.RemoveAt(BothRecs, 1) == [FirstStart];
    assert J.Evict(lim, BothRecs, 1, 1) == J.Evict(lim, [FirstStart], 1, 1) == Some([FirstStart]);
  }

  // ---------- a daemon that comes too late ----------

  function TooLate(): seq<Action> { [Produce(FirstStart.event), Produce(FirstUpdate.event), Produce(FirstEnd)] }

  /** The END takes the UPDATE's place in the journal. */
  lemma EndEvicts(j: J.Journal)
    requires j == J.Journal(BothRecs, j.bytes, 2, j.dropped)
    ensures J.Append(Demo().lim, j, FirstEnd).1 == J.Accepted(3)
    ensures J.Append(Demo().lim, j, FirstEnd).0.records == [FirstStart, J.Rec(3, FirstEnd, 1)]
  {
    RoomEvicted();
    hide J.Evict, J.Fits;
  }

  lemma RoomEvicted()
    ensures J.Evict(Demo().lim, BothRecs, 1, 1) == Some([FirstStart])
  {
    RoomTaken(J.Journal(BothRecs, 2, 2, 0));
    FitsAfter();
    assert BothRecs[1..] == [FirstUpdate] && J.OldestUpdate([FirstUpdate]) == 0;
    assert J.OldestUpdate(BothRecs) == 1 && J.RemoveAt(BothRecs, 1) == [FirstStart];
  }

  lemma LateStart() returns (s: Sys)
    ensures SelfKeyed(Fresh([]).box.mem.records) && s == Ahead(Demo(), Fresh([]), TooLate())
    ensures Sound(Demo(), s) && SelfKeyed(s.box.mem.records) && |s.all| == 3 && s.box.mem.lastAck == 0
    ensures s.journal.records == [FirstStart, J.Rec(3, FirstEnd, 1)] && s.link.Closed? && s.loop.Idle?
  {
    hide Sound, Next, Ahead, OnDisk, FileSize, SelfKeyed, J.Append, Reaches;
    var s0 := Fresh([]);
    StageStart();
    StageSound(s0, [], 0, 0);
    var s1 := Produced(s0, [], FirstStart.event);
    assert [] + [FirstStart] == [FirstStart];
    var s2 := Produced(s1, [FirstStart], FirstUpdate.event);
    assert [FirstStart] + [FirstUpdate] == BothRecs;
    StageSound(s2, BothRecs, 0, 0);
    EndEvicts(s2.journal);
    NextSound(Demo(), s2, Produce(FirstEnd));
    s := Next(Demo(), s2, Produce(FirstEnd));
    ProducedShape(s2, FirstEnd);
    AheadThree(Demo(), s0, Produce(FirstStart.event), Produce(FirstUpdate.event), Produce(FirstEnd));
  }

  lemma ProducedShape(s: Sys, e: Event)
    requires SelfKeyed(s.box.mem.records) && J.Append(Demo().lim, s.journal, e).1.Accepted?
    ensures var t := Next(Demo(), s, Produce(e));
            && t.journal == J.Append(Demo().lim, s.journal, e).0 && |t.all| == |s.all| + 1
            && t.box == s.box && t.link == s.link && t.loop == s.loop
  {
    hide OnDisk, J.Append;
  }

  /** A START, an UPDATE and an END before the daemon first connects, in a journal of two: the
      UPDATE is gone, and over any run the daemon never receives anything at all. */
  lemma NeverStreams(later: seq<Action>)
    ensures SelfKeyed(Fresh([]).box.mem.records)
    ensures var s := Ahead(Demo(), Fresh([]), TooLate());
            Orderly(Demo(), s, later) ==>
              var t := Ahead(Demo(), s, later); t.box.mem.lastAck == 0 && !t.loop.Streaming? && !InHand(t)
  {
    hide Sound, Ahead, Orderly, Next;
    var s := LateStart();
    if Orderly(Demo(), s, later) {
      assert forall r | r in s.journal.records :: r.cursor != 2;
      RunOutage(Demo(), s, later, 2);
    }
  }
}
