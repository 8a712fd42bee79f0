// Every history the engine produces is a good one.
module EngineProofs {
  import opened Common
  import opened EngineModel
  import opened EngineSpec
  import opened EngineTrace
  import opened EngineFacts

  // ---------- the invariant ----------

  /** The stream, the last observation and the active event agree. */
  ghost predicate StreamOk(c: Core) {
    && (c.haveStream ==>
          && c.last.Some? && c.channelId == c.last.value.channelId
          && c.order.Order? && c.order.epoch == c.last.value.epoch && c.order.frameId == c.last.value.frameId)
    && (!c.haveStream ==> c.order.Unordered? && c.active.None?)
    && (c.active.Some? ==> OnStream(c.active.value, c.last.value))
  }

  /** The observation continues the event's channel and epoch, no earlier in frames. */
  ghost predicate OnStream(e: Event, o: Observation) {
    e.channelId == o.channelId && e.epoch == o.epoch && e.frameId <= o.frameId
  }

  ghost predicate LinkOk(c: Core) {
    && Open(c.log) == c.active.Some? && c.cfg.confirmFrames <= U32_MAX && (c.active.Some? ==> c.cfg.enabled)
    && c.serial <= U64_MAX
    && (c.active.Some? ==>
          var it := LastEmit(c.log).value;
          && it.event == c.active.value && it.at == c.lastEmit && it.cfg == c.cfg && it.serial == c.serial
          && it.event.eventType == c.cfg.ruleType && it.event.ruleId == c.cfg.ruleId)
    && (LastEmit(c.log).Some? ==> LastEmit(c.log).value.serial <= c.serial)
  }

  ghost predicate TimeOk(c: Core) {
    && (c.active.None? ==>
          && c.absentSince.None?
          && (if c.trigger.None? then Streak(c.log, true) == 0
              else
                && Streak(c.log, true) >= 1
                && c.trigger.value == Trigger(Clip(Streak(c.log, true)), StreakStart(c.log)))
          && (CoolUntil(c.log).Some? ==> c.cooldown == CoolUntil(c.log)))
    && (c.active.Some? ==> c.trigger.None? && c.absentSince == AbsentFrom(c.log))
  }

  ghost predicate FactOk(c: Core) {
    && (c.active.None? ==> c.facts == {} && c.pending == NoPending)
    && (c.active.Some? ==>
          && c.facts == FactsBefore(c.log)
          && c.pending.deltaIn == Clip(NovelSince(c.log, In)) && c.pending.deltaOut == Clip(NovelSince(c.log, Out))
          && (c.active.value.phase.Update? ==> c.active.value.trackIds <= c.pending.trackIds))
    && (c.cfg.ruleType.Occupancy? ==> c.facts == {})
  }

  /** Nothing is recorded while analytics is disabled. */
  ghost predicate ConfigKept(c: Core) {
    && c.tracks == TracksOf(c.log)
    && (!c.cfg.enabled ==> c.log == [] || Last(c.log).Cleared?)
  }

  /** The active event's latest frame is the last observation, counted under this configuration. */
  ghost predicate FrameLink(c: Core) {
    c.active.Some? ==>
      && LastFrame(c.log).Some?
      && var f := LastFrame(c.log).value;
      c.last == Some(f.o) && f.under == c.cfg && c.latestCount == Some(f.count)
  }

  /** Everything but the link to the latest frame, which an arriving observation breaks
      until its frame is recorded. */
  ghost predicate Base(c: Core) {
    && GoodLog(c.hash, c.log) && ConfigKept(c)
    && (if c.sink then StreamOk(c) && LinkOk(c) && TimeOk(c) && FactOk(c) else !Open(c.log))
  }

  ghost predicate Inv(c: Core) {
    Base(c) && (c.sink ==> FrameLink(c))
  }

  lemma GoodSnoc(hash: string -> nat, log: Log, item: Item)
    requires GoodLog(hash, log) && ItemOk(hash, log, item)
    ensures GoodLog(hash, log + [item])
  {
    Snoc(log, item);
  }

  // ---------- ending and clearing ----------

  /** The engine found the end by an unbroken absence of at least the grace. */
  ghost predicate ByAbsence(c: Core, reason: Reason, now: Time) {
    && reason.Disappeared? && Streak(c.log, false) >= 1 && Last(c.log).now == now
    && (c.cfg.graceMs == 0 || Elapsed(now, AbsentFrom(c.log), c.cfg.graceMs * 1000))
  }

  /** An END continues the event's sequence and takes the pending deltas. */
  lemma EndOk(c: Core, o: Observation, reason: Reason, count: nat, now: Time, cool: bool)
    requires Inv(c) && c.sink && c.active.Some? && c.last == Some(o) && count == LatestCount(c)
    requires cool ==> ByAbsence(c, reason, now)
    ensures NextOk(c.log, EndedEvent(c, o, reason, count), now, c.cfg, c.serial, cool)
  {
    FrameValid(c.hash, c.log);
    hide GoodLog, NovelSince, FactsBefore, Streak, AbsentFrom, TracksOf, CoolUntil, UpdateTracks, StreakStart;
  }

  lemma EmitEndKeeps(c: Core, o: Observation, reason: Reason, count: nat, now: Time, cool: bool)
    requires Inv(c) && c.sink && (c.active.Some? ==> c.last == Some(o) && count == LatestCount(c))
    requires cool ==> ByAbsence(c, reason, now)
    ensures var (c1, n) := EmitEnd(c, o, reason, count, now, cool);
            && Inv(c1) && c1.sink && (n >= 0 ==> c1.active.None?)
            && (n < 0 ==> c1 == c) && n <= 1
            && c1.haveStream == c.haveStream && c1.last == c.last && c1.order == c.order
            && c1.channelId == c.channelId && c1.cfg == c.cfg && c1.hash == c.hash
  {
    hide GoodLog, Streak, AbsentFrom, StreakStart, FactsBefore, NovelSince, CoolUntil, LastEmit, LastFrame,
      TracksOf, Open, NextOk, ByAbsence;
    if c.active.Some? && c.active.value.seqNo < U64_MAX {
      var (c1, n) := EmitEnd(c, o, reason, count, now, cool);
      var e := EndedEvent(c, o, reason, count);
      var item := Emitted(e, now, c.cfg, c.serial, cool);
      assert c1.log == c.log + [item];
      EndOk(c, o, reason, count, now, cool);
      GoodSnoc(c.hash, c.log, item);
      EmitSnoc(c.log, e, now, c.cfg, c.serial, cool);
      Snoc(c.log, item);
    }
  }

  lemma ClearRuntimeKeeps(c: Core)
    requires Inv(c) && (c.sink ==> c.active.None?)
    ensures Inv(ClearRuntime(c))
  {
    GoodSnoc(c.hash, c.log, Cleared);
    ClearSnoc(c.log);
    Snoc(c.log, Cleared);
    hide GoodLog, Streak, AbsentFrom, StreakStart, FactsBefore, NovelSince, CoolUntil, LastEmit, LastFrame, TracksOf,
      Open;
  }

  /** The last observation continues the active event. */
  lemma EndOnLastKeeps(c: Core, reason: Reason)
    requires Inv(c) && c.sink
    ensures var (c1, n) := EndOnLast(c, reason);
            && Inv(c1) && c1.sink && (n >= 0 ==> c1.active.None?) && (n < 0 ==> c1 == c)
            && c1.haveStream == c.haveStream && c1.last == c.last && c1.order == c.order
            && c1.channelId == c.channelId && c1.cfg == c.cfg && c1.hash == c.hash
  {
    if c.active.Some? && c.last.Some? {
      EmitEndKeeps(c, c.last.value, reason, LatestCount(c), TimeOf(c.cfg, c.last.value), false);
    }
  }

  // ---------- one accepted frame ----------

  /** `d` is `c` after tracks were updated and the frame entered the history. */
  ghost predicate FrameTaken(c: Core, d: Core, f: Item) {
    && f.Frame? && FrameOk(c.log, f) && c.last == Some(f.o) && f.under == c.cfg && c.haveStream
    && d == c.(tracks := UpdateTracks(c.cfg, c.tracks, f.o, f.now), latestCount := Some(f.count),
               facts := if c.active.Some? && !c.cfg.ruleType.Occupancy? then f.facts else c.facts,
               log := c.log + [f])
  }

  /** What the frame's history looks like, in terms of the history before it. */
  lemma FrameFacts(c: Core, d: Core, f: Item)
    requires Base(c) && c.sink && FrameTaken(c, d, f)
    ensures GoodLog(d.hash, d.log) && LinkOk(d) && StreamOk(d) && FrameLink(d) && d.tracks == TracksOf(d.log)
    ensures Last(d.log) == f
    ensures CoolUntil(d.log) == CoolUntil(c.log)
    ensures Streak(d.log, f.condition) == Streak(c.log, f.condition) + 1 && Streak(d.log, !f.condition) == 0
    ensures FactsBefore(d.log) == f.facts
    ensures forall k :: NovelSince(d.log, k) == NovelSince(c.log, k) + |Novel(FactsBefore(c.log), f.facts, k)|
    ensures AbsentFrom(d.log) ==
            (if f.condition then None else if AbsentFrom(c.log).Some? then AbsentFrom(c.log) else f.now)
    ensures StreakStart(d.log) ==
            (if !f.condition then None else if Streak(c.log, true) == 0 then f.now else StreakStart(c.log))
  {
    GoodSnoc(c.hash, c.log, f);
    FrameSnoc(c.log, f);
    Snoc(c.log, f);
    hide GoodLog, Streak, AbsentFrom, StreakStart, FactsBefore, NovelSince, CoolUntil, LastEmit, LastFrame, TracksOf,
      UpdateTracks, FrameOk;
  }

  lemma TriggerFollows(c: Core, d: Core, f: Item)
    requires Base(c) && c.sink && c.active.None? && c.cfg.enabled && FrameTaken(c, d, f)
    ensures Inv(UpdateTrigger(d, f.condition, f.now))
  {
    hide TracksOf, LastFrame, UpdateTracks, FrameOk, GoodLog, FactsBefore, NovelSince, CoolUntil, Streak, StreakStart,
      AbsentFrom, LastEmit, Open;
    FrameFacts(c, d, f);
  }

  lemma StartIsOk(d: Core, f: Item, s: Summary)
    requires Inv(d) && d.sink && d.active.None? && d.cfg.enabled && d.serial < U64_MAX
    requires f.Frame? && f.condition && d.log != [] && Last(d.log) == f && Qualified(d, f.now)
    requires d.last == Some(f.o) && f.under == d.cfg && ValidObservation(f.o) && SummaryFits(d.cfg, {}, f.facts, s)
    ensures var d1 := EmitStart(d, f.o, s, f.count, f.now).0;
            && d1.active.Some? && d1.active.value.phase.Start?
            && StartOk(d.hash, d.log, d1.active.value, f.now, d.cfg, d1.serial)
  {
    hide EventId, ContextOk, StartTimely, Qualified, Streak, GoodLog, TracksOf, FactsBefore, NovelSince, CoolUntil,
      StreakStart, StreamOk, TimeOk, FactOk, ValidObservation, FactSet, FrameOk, LastFrame, Novel;
    var d1 := EmitStart(d, f.o, s, f.count, f.now).0;
    StartIsTimely(d, f);
    StartContext(d, f, s, d1.serial);
    assert d1.active.value == StartedEvent(d, f.o, s, f.count, d1.serial) && d1.serial == d.serial + 1;
  }

  lemma StartIsTimely(d: Core, f: Item)
    requires Inv(d) && d.sink && d.active.None?
    requires f.Frame? && f.condition && d.log != [] && Last(d.log) == f && Qualified(d, f.now)
    ensures StartTimely(d.log, f.now, d.cfg)
  {
    hide GoodLog, LastEmit, LastFrame, TracksOf, FactsBefore, NovelSince, StreakStart, AbsentFrom;
  }

  lemma StartContext(d: Core, f: Item, s: Summary, serial: nat)
    requires f.Frame? && d.log != [] && Last(d.log) == f && f.under == d.cfg && ValidObservation(f.o)
    requires s.first.Some? ==> s.first.value.ruleId == d.cfg.ruleId
    ensures ContextOk(d.log, StartedEvent(d, f.o, s, f.count, serial), d.cfg)
  {
    hide EventId;
  }

  /** A START meets confirmation, debounce and cooldown, and counts its frame's facts. */
  lemma StartKeeps(d: Core, f: Item, s: Summary)
    requires Inv(d) && d.sink && d.active.None? && d.cfg.enabled && d.serial < U64_MAX
    requires f.Frame? && f.condition && d.log != [] && Last(d.log) == f && Qualified(d, f.now)
    requires d.haveStream && d.last == Some(f.o) && f.under == d.cfg && d.latestCount == Some(f.count)
    requires ValidObservation(f.o) && SummaryFits(d.cfg, {}, f.facts, s)
    ensures Inv(EmitStart(d, f.o, s, f.count, f.now).0.(trigger := None, absentSince := None))
  {
    hide GoodLog, FactsBefore, NovelSince, CoolUntil, Streak, StreakStart, AbsentFrom, LastEmit, Open, StartOk,
      StartTimely, Qualified, EventId, TracksOf, LastFrame, ContextOk, ValidObservation, FactSet;
    var d1 := EmitStart(d, f.o, s, f.count, f.now).0;
    var e := d1.active.value;
    var item := Emitted(e, f.now, d.cfg, d1.serial, false);
    assert d1.log == d.log + [item];
    StartIsOk(d, f, s);
    GoodSnoc(d.hash, d.log, item);
    EmitSnoc(d.log, e, f.now, d.cfg, d1.serial, false);
    Snoc(d.log, item);
    FactsOfLast(d.log);
  }

  lemma FactsOfLast(log: Log)
    requires log != [] && Last(log).Frame?
    ensures FactsBefore(log) == Last(log).facts && LastFrame(log) == Some(Last(log))
  {
  }

  /** The summary accounts for the facts of one frame against those seen before. */
  ghost predicate SummaryFits(cfg: Config, seen: Seen, facts: Seen, s: Summary) {
    && FactSet(cfg, s.facts) == facts && (cfg.ruleType.Occupancy? ==> facts == {})
    && s.deltaIn == |Novel(seen, facts, In)| <= U32_MAX && s.deltaOut == |Novel(seen, facts, Out)| <= U32_MAX
    && (s.novel == 0 ==> s.deltaIn == 0 && s.deltaOut == 0)
    && (s.first.Some? ==> s.first.value.ruleId == cfg.ruleId)
  }

  /** No active event: the trigger follows the streak, and a START meets every rule. */
  lemma WhenIdleKeeps(c: Core, d: Core, f: Item, s: Summary)
    requires Base(c) && c.sink && c.active.None? && c.cfg.enabled && FrameTaken(c, d, f)
    requires SummaryFits(c.cfg, {}, f.facts, s)
    ensures Inv(WhenIdle(d, f.o, s, f.count, f.condition, f.now).0)
  {
    hide Inv, Base, FactSet, Novel, SummaryFits, UpdateTracks, PersonCount, ValidObservation;
    var d1 := UpdateTrigger(d, f.condition, f.now);
    TriggerFollows(c, d, f);
    Snoc(c.log, f);
    if Qualified(d1, f.now) && d1.serial < U64_MAX {
      StartKeeps(d1, f, s);
    }
  }

  lemma NothingNovel(before: Seen)
    ensures forall k: Direction :: Novel(before, {}, k) == {}
  {
  }

  lemma AbsentSinceFollows(c: Core, d: Core, f: Item)
    requires Base(c) && c.sink && c.active.Some? && FrameTaken(c, d, f) && !f.condition && f.facts == {}
    ensures var c1 := if d.absentSince.None? then d.(absentSince := f.now) else d;
            && Inv(c1) && c1.absentSince == AbsentFrom(c1.log) && Last(c1.log) == f && Streak(c1.log, false) >= 1
  {
    hide TracksOf, LastFrame, UpdateTracks, FrameOk, GoodLog, FactsBefore, NovelSince, CoolUntil, Streak, StreakStart,
      AbsentFrom, LastEmit, Open, Novel;
    NothingNovel(FactsBefore(c.log));
    FrameFacts(c, d, f);
  }

  /** Condition lost while active: grace first, then an END by absence. */
  lemma WhenAbsentKeeps(c: Core, d: Core, f: Item)
    requires Base(c) && c.sink && c.active.Some? && FrameTaken(c, d, f) && !f.condition && f.facts == {}
    ensures Inv(WhenAbsent(d, f.o, f.count, f.now).0)
  {
    AbsentSinceFollows(c, d, f);
    var c1 := if d.absentSince.None? then d.(absentSince := f.now) else d;
    hide Inv, Base, FrameOk, UpdateTracks, Streak, AbsentFrom;
    if c1.cfg.graceMs == 0 || Elapsed(f.now, c1.absentSince, c1.cfg.graceMs * 1000) {
      EmitEndKeeps(c1, f.o, Disappeared, f.count, f.now, true);
    }
  }

  /** Pending deltas keep pace with the facts that are new in this frame. */
  lemma PendingFollows(c: Core, d: Core, d2: Core, f: Item)
    requires Base(c) && c.sink && c.active.Some? && FrameTaken(c, d, f) && f.condition
    requires d2 == d.(absentSince := None, pending := d2.pending) && c.pending.trackIds <= d2.pending.trackIds
    requires d2.pending.deltaIn == SatAdd(c.pending.deltaIn, |Novel(c.facts, f.facts, In)|)
    requires d2.pending.deltaOut == SatAdd(c.pending.deltaOut, |Novel(c.facts, f.facts, Out)|)
    requires c.cfg.ruleType.Occupancy? ==> f.facts == {}
    ensures Inv(d2)
  {
    hide TracksOf, LastFrame, UpdateTracks, FrameOk, GoodLog, FactsBefore, NovelSince, CoolUntil, Streak, StreakStart,
      AbsentFrom, LastEmit, Open, Novel;
    FrameFacts(c, d, f);
  }

  /** An UPDATE continues the sequence, spaced by the interval, and takes the pending deltas. */
  lemma UpdateKeeps(c: Core, o: Observation, count: nat, now: Time)
    requires Inv(c) && c.sink && c.active.Some? && c.last == Some(o) && count == LatestCount(c)
    requires c.absentSince.None?
    ensures Inv(MaybeEmitUpdate(c, o, count, now).0)
  {
    var (c1, n) := MaybeEmitUpdate(c, o, count, now);
    if n > 0 {
      var e := c1.active.value;
      var item := Emitted(e, now, c.cfg, c.serial, false);
      assert c1.log == c.log + [item];
      FrameValid(c.hash, c.log);
      assert NextOk(c.log, e, now, c.cfg, c.serial, false);
      GoodSnoc(c.hash, c.log, item);
      EmitSnoc(c.log, e, now, c.cfg, c.serial, false);
      Snoc(c.log, item);
      hide GoodLog, FactsBefore, NovelSince, CoolUntil, Streak, StreakStart, AbsentFrom, LastEmit, Open, NextOk,
        TracksOf, LastFrame, ContextOk, ValidObservation;
    }
  }

  lemma {:induction false} FrameValid(hash: string -> nat, log: Log)
    requires GoodLog(hash, log)
    ensures LastFrame(log).Some? ==> ValidObservation(LastFrame(log).value.o)
  {
    hide ValidObservation, StartOk, NextOk, UpdateTracks, PersonCount;
    if log != [] { FrameValid(hash, Front(log)); }
  }

  lemma {:induction false} TracksKept(have: seq<nat>, more: seq<nat>)
    ensures have <= AddTracks(have, more)
  {
    if more != [] { TracksKept(have, more[..|more| - 1]); }
  }

  lemma WhenPresentKeeps(c: Core, d: Core, f: Item, s: Summary)
    requires Base(c) && c.sink && c.active.Some? && FrameTaken(c, d, f) && f.condition
    requires SummaryFits(c.cfg, c.facts, f.facts, s)
    ensures Inv(WhenPresent(d, f.o, s, f.count, f.now).0)
  {
    NothingNovel(c.facts);
    TracksKept(c.pending.trackIds, s.trackIds);
    var d1 := d.(absentSince := None);
    var d2 :=
      if d.cfg.ruleType.Occupancy? then
        (if f.count != d.activeCount then MarkUpdate(d1, f.count, 0, 0, [], CountChanged) else d1)
      else if s.novel > 0 then MarkUpdate(d1, f.count, s.deltaIn, s.deltaOut, s.trackIds, ByDirection)
      else d1;
    assert c.pending.deltaIn <= U32_MAX && c.pending.deltaOut <= U32_MAX;
    hide Inv, Base, FactSet, Novel, FrameOk, UpdateTracks;
    PendingFollows(c, d, d2, f);
    hide AddTracks;
    UpdateKeeps(d2, f.o, f.count, f.now);
  }

  /** The frame that an accepted observation adds, and the state once it is recorded. */
  function FrameOf(c: Core, o: Observation): Item {
    var now := TimeOf(c.cfg, o);
    var count := PersonCount(UpdateTracks(c.cfg, c.tracks, o, now));
    var s := Summarize(c.cfg, c.facts, o.facts);
    Frame(now, if c.cfg.ruleType.Occupancy? then count > 0 else s.matches > 0, FactSet(c.cfg, s.facts), o, c.cfg, count)
  }

  function Taken(c: Core, o: Observation): Core {
    var f := FrameOf(c, o);
    c.(tracks := UpdateTracks(c.cfg, c.tracks, o, f.now), latestCount := Some(f.count),
       facts := if c.active.Some? && !c.cfg.ruleType.Occupancy? then f.facts else c.facts, log := c.log + [f])
  }

  lemma OccupancyFactless(cfg: Config, fs: seq<Fact>)
    ensures cfg.ruleType.Occupancy? ==> FactSet(cfg, fs) == {}
  {
  }

  lemma FrameOfOk(c: Core, o: Observation)
    requires ValidObservation(o) && c.tracks == TracksOf(c.log)
    ensures FrameOk(c.log, FrameOf(c, o))
    ensures SummaryFits(c.cfg, c.facts, FrameOf(c, o).facts, Summarize(c.cfg, c.facts, o.facts))
    ensures !FrameOf(c, o).condition ==> FrameOf(c, o).facts == {} || c.cfg.ruleType.Occupancy?
    ensures c.cfg.ruleType.Occupancy? ==> FrameOf(c, o).facts == {}
  {
    SummaryExact(c.cfg, c.facts, o);
    OccupancyFactless(c.cfg, o.facts);
    hide UpdateTracks, PersonCount, Summarize, ValidObservation, TimeOf, FactSet, TracksOf, Novel;
  }

  lemma ProcessAcceptedKeeps(c: Core, o: Observation)
    requires Base(c) && c.sink && ValidObservation(o) && c.haveStream && c.last == Some(o)
    ensures Inv(ProcessAccepted(c, o).0)
  {
    if !c.cfg.enabled {
      DisabledKeeps(c);
    } else {
      var (f, d, s) := (FrameOf(c, o), Taken(c, o), Summarize(c.cfg, c.facts, o.facts));
      FrameOfOk(c, o);
      assert c.active.None? ==> c.facts == {};
      hide UpdateTracks, PersonCount, Summarize, TimeOf, FactSet, FrameOk, Base, SummaryFits;
      assert FrameTaken(c, d, f);
      hide FrameTaken;
      if c.active.None? {
        WhenIdleKeeps(c, d, f, s);
      } else if !f.condition {
        WhenAbsentKeeps(c, d, f);
      } else {
        WhenPresentKeeps(c, d, f, s);
      }
    }
  }

  lemma DisabledKeeps(c: Core)
    requires Base(c) && c.sink && !c.cfg.enabled
    ensures Inv(ClearPending(c).(latestCount := Some(0), tracks := map[]))
  {
    hide GoodLog;
  }

  // ---------- the four operations ----------

  lemma EndThenClear(c: Core, reason: Reason)
    requires Inv(c) && c.sink
    ensures var (c1, n) := EndOnLast(c, reason);
            Inv(c1) && c1.sink && (n >= 0 ==> Inv(ClearRuntime(c1)) && c1.active.None?)
  {
    EndOnLastKeeps(c, reason);
    if EndOnLast(c, reason).1 >= 0 { ClearRuntimeKeeps(EndOnLast(c, reason).0); }
  }

  lemma SwitchChannelKeeps(c: Core, o: Observation)
    requires Inv(c) && c.sink
    ensures var (c1, n) := SwitchChannel(c, o);
            Inv(c1) && c1.sink && (n >= 0 ==> (c1.haveStream ==> c1.channelId == o.channelId))
  {
    EndThenClear(c, StreamReset);
  }

  /** Taking an ordered observation as the latest keeps it on the active event's stream. */
  lemma TakeKeeps(c: Core, o: Observation, order: Order, r: OrderResult)
    requires Inv(c) && c.sink && ValidObservation(o)
    requires c.haveStream ==> c.channelId == o.channelId
    requires (order, r) == Classify(c.order, o) && (r.First? || r.Accepted? || r.EpochAdvance?)
    requires r.EpochAdvance? ==> c.active.None?
    ensures Base(c.(order := order, haveStream := true, channelId := o.channelId, last := Some(o)))
  {
    hide GoodLog, FactsBefore, NovelSince, CoolUntil, Streak, StreakStart, AbsentFrom, LastEmit, Open, TracksOf,
      LastFrame;
  }

  lemma AdvanceEpochKeeps(c: Core, r: OrderResult)
    requires Inv(c) && c.sink
    ensures var (c1, n) := AdvanceEpoch(c, r);
            && Inv(c1) && c1.sink
            && (n >= 0 ==> c1.order == c.order && c1.haveStream == c.haveStream && c1.channelId == c.channelId
                           && (r.EpochAdvance? ==> c1.active.None?))
  {
    EndThenClear(c, StreamReset);
    EndOnLastKeeps(c, StreamReset);
  }

  lemma ProcessKeeps(c: Core, o: Observation)
    requires Inv(c) && c.sink
    ensures Inv(Process(c, o).0)
  {
    hide Inv, ValidObservation, SwitchChannel, AdvanceEpoch;
    if ValidObservation(o) {
      SwitchChannelKeeps(c, o);
      var (c1, n1) := SwitchChannel(c, o);
      if n1 >= 0 {
        var (order, r) := Classify(c1.order, o);
        if r.First? || r.Accepted? || r.EpochAdvance? {
          AdvanceEpochKeeps(c1, r);
          var (c2, n2) := AdvanceEpoch(c1, r);
          if n2 >= 0 {
            TakeKeeps(c2, o, order, r);
            ProcessAcceptedKeeps(c2.(order := order, haveStream := true, channelId := o.channelId, last := Some(o)), o);
          }
        }
      }
    }
  }

  lemma InitKeeps(cfg: Config, version: nat, hash: string -> nat, sink: bool)
    requires ValidConfig(cfg)
    ensures Inv(Init(cfg, version, hash, sink).value) && Init(cfg, version, hash, sink).value.hash == hash
  {
  }

  lemma CloseKeeps(c: Core, reason: Reason)
    requires Inv(c) && c.sink
    ensures Inv(Close(c, reason).0)
  {
    EndThenClear(c, reason);
    hide Inv;
  }

  lemma ReconfigureKeeps(c: Core, cfg: Config, version: nat)
    requires Inv(c) && c.sink
    ensures Inv(Reconfigure(c, cfg, version).0)
  {
    var reason := if cfg.enabled then Reconfigured else AnalyticsDisabled;
    EndThenClear(c, reason);
    if ValidConfig(cfg) && NextVersion(c.version, version).Some? && EndOnLast(c, reason).1 >= 0 {
      NewConfigKeeps(EndOnLast(c, reason).0, cfg, NextVersion(c.version, version).value);
    }
    hide Inv, EndOnLast;
  }

  lemma NewConfigKeeps(c: Core, cfg: Config, version: nat)
    requires Inv(c) && c.sink && c.active.None? && ValidConfig(cfg)
    ensures Inv(ClearRuntime(c).(cfg := cfg, version := version))
  {
    GoodSnoc(c.hash, c.log, Cleared);
    ClearSnoc(c.log);
    Snoc(c.log, Cleared);
    hide GoodLog, Streak, AbsentFrom, StreakStart, FactsBefore, NovelSince, CoolUntil, LastEmit, LastFrame, TracksOf,
      Open;
  }

  lemma DeinitKeeps(c: Core)
    requires Inv(c) && c.sink
    ensures Inv(Deinit(c).0)
  {
    EndOnLastKeeps(c, ProcessRestart);
    var (c1, n) := EndOnLast(c, ProcessRestart);
    if n >= 0 { GoodSnoc(c.hash, c1.log, Cleared); ClearSnoc(c1.log); }
  }

  // ---------- without a sink nothing is emitted ----------

  lemma QuietKeeps(c: Core, d: Core, item: Item)
    requires Inv(c) && !c.sink && !d.sink && d.hash == c.hash && d.log == c.log + [item]
    requires
      || (item.Cleared? && d.tracks == map[])
      || (item.Frame? && d.cfg.enabled && FrameOk(c.log, item)
          && d.tracks == UpdateTracks(item.under, c.tracks, item.o, item.now))
    ensures Inv(d)
  {
    hide UpdateTracks, FrameOk;
    GoodSnoc(c.hash, c.log, item);
    if item.Cleared? { ClearSnoc(c.log); } else { FrameSnoc(c.log, item); }
  }

  /** What emissions never touch; without a sink the history stands still too. */
  ghost predicate Same(c: Core, d: Core) {
    d.sink == c.sink && d.hash == c.hash && d.tracks == c.tracks && d.cfg == c.cfg && (!c.sink ==> d.log == c.log)
  }

  lemma EndSame(c: Core, o: Observation, reason: Reason, count: nat, now: Time, cool: bool)
    ensures Same(c, EmitEnd(c, o, reason, count, now, cool).0)
  {
    hide StartedEvent, UpdatedEvent, EndedEvent, WithContext;
  }

  lemma EndOnLastSame(c: Core, reason: Reason)
    ensures Same(c, EndOnLast(c, reason).0)
  {
    if c.active.Some? && c.last.Some? {
      EndSame(c, c.last.value, reason, LatestCount(c), TimeOf(c.cfg, c.last.value), false);
    }
    hide EmitEnd;
  }

  lemma WhenIdleSame(c: Core, o: Observation, s: Summary, count: nat, condition: bool, now: Time)
    ensures Same(c, WhenIdle(c, o, s, count, condition, now).0)
  {
    var c1 := UpdateTrigger(c, condition, now);
    assert Same(c, c1);
    StartSame(c1, o, s, count, now);
    hide Qualified, EmitStart, UpdateTrigger;
  }

  lemma StartSame(c: Core, o: Observation, s: Summary, count: nat, now: Time)
    ensures Same(c, EmitStart(c, o, s, count, now).0)
  {
    hide StartedEvent, UpdatedEvent, EndedEvent, WithContext, EventId, FactSet;
  }

  lemma UpdateSame(c: Core, o: Observation, count: nat, now: Time)
    ensures Same(c, MaybeEmitUpdate(c, o, count, now).0)
  {
    hide StartedEvent, UpdatedEvent, EndedEvent, WithContext;
  }

  lemma WhenAbsentSame(c: Core, o: Observation, count: nat, now: Time)
    ensures Same(c, WhenAbsent(c, o, count, now).0)
  {
    var c1 := if c.absentSince.None? then c.(absentSince := now) else c;
    EndSame(c1, o, Disappeared, count, now, true);
    hide EmitEnd;
  }

  lemma WhenPresentSame(c: Core, o: Observation, s: Summary, count: nat, now: Time)
    ensures Same(c, WhenPresent(c, o, s, count, now).0)
  {
    var c1 := c.(absentSince := None);
    var c2 :=
      if c.cfg.ruleType.Occupancy? then
        (if count != c.activeCount then MarkUpdate(c1, count, 0, 0, [], CountChanged) else c1)
      else if s.novel > 0 then MarkUpdate(c1, count, s.deltaIn, s.deltaOut, s.trackIds, ByDirection)
      else c1;
    UpdateSame(c2, o, count, now);
    hide AddTracks, MaybeEmitUpdate;
  }

  lemma QuietSame(c: Core, d: Core)
    requires Inv(c) && !c.sink && Same(c, d)
    ensures Inv(d)
  {
  }

  lemma EndOnLastQuiet(c: Core, reason: Reason)
    requires Inv(c) && !c.sink
    ensures Same(c, EndOnLast(c, reason).0) && Inv(EndOnLast(c, reason).0)
    ensures Inv(ClearRuntime(EndOnLast(c, reason).0))
  {
    var c1 := EndOnLast(c, reason).0;
    EndOnLastSame(c, reason);
    QuietSame(c, c1);
    QuietKeeps(c1, ClearRuntime(c1), Cleared);
  }

  lemma AcceptedSame(c: Core, o: Observation)
    requires c.cfg.enabled
    ensures Same(Taken(c, o), ProcessAccepted(c, o).0)
  {
    var (f, d, s) := (FrameOf(c, o), Taken(c, o), Summarize(c.cfg, c.facts, o.facts));
    WhenIdleSame(d, o, s, f.count, f.condition, f.now);
    WhenAbsentSame(d, o, f.count, f.now);
    WhenPresentSame(d, o, s, f.count, f.now);
    hide UpdateTracks, PersonCount, Summarize, TimeOf, FactSet, WhenIdle, WhenAbsent, WhenPresent;
  }

  lemma ProcessAcceptedQuiet(c: Core, o: Observation)
    requires Inv(c) && !c.sink && ValidObservation(o)
    ensures var d := ProcessAccepted(c, o).0; Inv(d) && !d.sink
  {
    var d := ProcessAccepted(c, o).0;
    if !c.cfg.enabled {
      hide GoodLog;
    } else {
      FrameOfOk(c, o);
      AcceptedSame(c, o);
      hide UpdateTracks, FrameOk, ProcessAccepted, Base, PersonCount, Summarize, TimeOf, FactSet;
      QuietKeeps(c, d, FrameOf(c, o));
    }
  }

  lemma SwitchChannelQuiet(c: Core, o: Observation)
    requires Inv(c) && !c.sink
    ensures Inv(SwitchChannel(c, o).0) && !SwitchChannel(c, o).0.sink
  {
    EndOnLastQuiet(c, StreamReset);
    var e := ClearRuntime(EndOnLast(c, StreamReset).0);
    hide EndOnLast;
    QuietSame(e, e.(haveStream := false, order := Unordered));
    hide Inv;
  }

  lemma AdvanceEpochQuiet(c: Core, r: OrderResult)
    requires Inv(c) && !c.sink
    ensures Inv(AdvanceEpoch(c, r).0) && !AdvanceEpoch(c, r).0.sink
  {
    EndOnLastQuiet(c, StreamReset);
    hide Inv, EndOnLast;
  }

  lemma ProcessQuiet(c: Core, o: Observation)
    requires Inv(c) && !c.sink
    ensures Inv(Process(c, o).0)
  {
    if ValidObservation(o) {
      SwitchChannelQuiet(c, o);
      var (c1, n1) := SwitchChannel(c, o);
      var (order, r) := Classify(c1.order, o);
      AdvanceEpochQuiet(c1, r);
      var (c2, n2) := AdvanceEpoch(c1, r);
      var c3 := c2.(order := order, haveStream := true, channelId := o.channelId, last := Some(o));
      hide ValidObservation, SwitchChannel, AdvanceEpoch, Classify, EndOnLast, ProcessAccepted, Inv;
      assert Same(c2, c3);
      QuietSame(c2, c3);
      hide Same;
      ProcessAcceptedQuiet(c3, o);
    }
  }

  lemma ReconfigureQuiet(c: Core, cfg: Config, version: nat)
    requires Inv(c) && !c.sink
    ensures Inv(Reconfigure(c, cfg, version).0)
  {
    var reason := if cfg.enabled then Reconfigured else AnalyticsDisabled;
    EndOnLastQuiet(c, reason);
    var c1 := EndOnLast(c, reason).0;
    if ValidConfig(cfg) && NextVersion(c.version, version).Some? && EndOnLast(c, reason).1 >= 0 {
      QuietKeeps(c1, ClearRuntime(c1).(cfg := cfg, version := NextVersion(c.version, version).value), Cleared);
    }
  }

  lemma DeinitQuiet(c: Core)
    requires Inv(c) && !c.sink
    ensures Inv(Deinit(c).0)
  {
    EndOnLastQuiet(c, ProcessRestart);
    if EndOnLast(c, ProcessRestart).1 >= 0 { QuietKeeps(EndOnLast(c, ProcessRestart).0, Deinit(c).0, Cleared); }
  }

  // ---------- runs ----------

  /** Every call, successful or failing, keeps the invariant. */
  lemma StepKeeps(c: Core, call: Call)
    requires Inv(c)
    ensures Inv(Step(c, call).0)
  {
    hide Inv, Process, Close, Reconfigure, Deinit;
    match call
    case DoProcess(o) => if c.sink { ProcessKeeps(c, o); } else { ProcessQuiet(c, o); }
    case DoClose(reason) => if c.sink { CloseKeeps(c, reason); } else { CloseQuiet(c, reason); }
    case DoReconfigure(cfg, version) =>
      if c.sink { ReconfigureKeeps(c, cfg, version); } else { ReconfigureQuiet(c, cfg, version); }
    case DoDeinit => if c.sink { DeinitKeeps(c); } else { DeinitQuiet(c); }
  }

  lemma CloseQuiet(c: Core, reason: Reason)
    requires Inv(c) && !c.sink
    ensures Inv(Close(c, reason).0)
  {
    EndOnLastQuiet(c, reason);
    hide Inv;
  }

  lemma ProcessHash(c: Core, o: Observation)
    ensures Process(c, o).0.hash == c.hash
  {
    EndOnLastSame(c, StreamReset);
    var (c1, n1) := SwitchChannel(c, o);
    var (order, r) := Classify(c1.order, o);
    EndOnLastSame(c1, StreamReset);
    var (c2, n2) := AdvanceEpoch(c1, r);
    var c3 := c2.(order := order, haveStream := true, channelId := o.channelId, last := Some(o));
    if c3.cfg.enabled { AcceptedSame(c3, o); }
    hide ValidObservation, EndOnLast, ProcessAccepted, Classify;
  }

  lemma HashKept(c: Core, call: Call)
    ensures Step(c, call).0.hash == c.hash
  {
    match call
    case DoProcess(o) => ProcessHash(c, o); hide Process;
    case DoClose(reason) => EndOnLastSame(c, reason); hide EndOnLast;
    case DoReconfigure(cfg, _) =>
      EndOnLastSame(c, if cfg.enabled then Reconfigured else AnalyticsDisabled); hide EndOnLast;
    case DoDeinit => EndOnLastSame(c, ProcessRestart); hide EndOnLast;
  }

  /** Over any interleaving of process, close, reconfigure and deinit, failing calls
      included, the history is a good one. */
  lemma {:induction false} RunGood(c: Core, calls: seq<Call>)
    requires Inv(c)
    ensures Inv(Run(c, calls)) && Run(c, calls).hash == c.hash && GoodLog(c.hash, Run(c, calls).log)
  {
    if calls != [] {
      var front := Run(c, calls[..|calls| - 1]);
      RunGood(c, calls[..|calls| - 1]);
      StepKeeps(front, calls[|calls| - 1]);
      HashKept(front, calls[|calls| - 1]);
      hide Step;
    }
  }
}
