// What a correct history looks like, stated on the history alone: the lifecycle
// grammar, the timing of each phase, and the accounting of directional facts.
module EngineTrace {
  import opened Common
  import opened EngineModel
  import opened EngineSpec

  type Log = seq<Item>

  function Front(log: Log): Log
    requires log != []
  {
    log[..|log| - 1]
  }

  function Last(log: Log): Item
    requires log != []
  {
    log[|log| - 1]
  }

  /** The most recent emission. */
  function LastEmit(log: Log): (r: Option<Item>)
    ensures r.Some? ==> r.value.Emitted?
  {
    if log == [] then None else if Last(log).Emitted? then Some(Last(log)) else LastEmit(Front(log))
  }

  /** A lifecycle is open: the last emission was not an END. */
  predicate Open(log: Log) {
    LastEmit(log).Some? && !LastEmit(log).value.event.phase.End?
  }

  /** How many of the latest items are frames with the given condition. */
  function Streak(log: Log, condition: bool): (n: nat)
    ensures n <= |log|
  {
    if log == [] || !Last(log).Frame? || Last(log).condition != condition then 0 else 1 + Streak(Front(log), condition)
  }

  /** Timeline of the first frame of the current streak of true conditions. */
  function StreakStart(log: Log): Time {
    var n := Streak(log, true);
    if n == 0 || !log[|log| - n].Frame? then None else log[|log| - n].now
  }

  /** First valid timeline value in the current streak of false conditions. */
  function AbsentFrom(log: Log): Time {
    if Streak(log, false) == 0 then None
    else if AbsentFrom(Front(log)).Some? then AbsentFrom(Front(log)) else Last(log).now
  }

  /** End of the cooldown that the latest non-frame item imposes, if it does. */
  function CoolUntil(log: Log): Time {
    if log == [] then None
    else
      match Last(log)
      case Frame(_, _, _, _, _, _) => CoolUntil(Front(log))
      case Cleared => None
      case Emitted(_, at, cfg, _, natural) =>
        if natural && at.Some? && cfg.cooldownMs > 0
        then Some(AddMs(at.value, cfg.cooldownMs)) else None
  }

  // ---------- facts ----------

  /** Facts of the previous accepted frame of the open lifecycle. */
  function FactsBefore(log: Log): Seen {
    if log == [] then {}
    else
      match Last(log)
      case Frame(_, _, f, _, _, _) => f
      case Cleared => {}
      case Emitted(e, _, _, _, _) => if e.phase.End? then {} else FactsBefore(Front(log))
  }

  /** Facts in direction `d` that the previous frame did not have. */
  function Novel(before: Seen, now: Seen, d: Direction): Seen {
    set f | f in now && f !in before && f.1 == d
  }

  /** New facts in direction `d` since the last emission of the open lifecycle. */
  function NovelSince(log: Log, d: Direction): nat {
    if log == [] || !Last(log).Frame? then 0
    else NovelSince(Front(log), d) + |Novel(FactsBefore(Front(log)), Last(log).facts, d)|
  }

  function Clip(n: nat): nat { if n > U32_MAX then U32_MAX else n }

  function Delta(e: Event, d: Direction): nat {
    match d case In => e.deltaIn case Out => e.deltaOut case NoDirection => 0
  }

  // ---------- frames ----------

  function LastFrame(log: Log): (r: Option<Item>)
    ensures r.Some? ==> r.value.Frame?
  {
    if log == [] then None else if Last(log).Frame? then Some(Last(log)) else LastFrame(Front(log))
  }

  /** The track table that the frames since the last clearing lead to. */
  function TracksOf(log: Log): map<nat, Tracked> {
    if log == [] then map[]
    else
      match Last(log)
      case Frame(now, _, _, o, cfg, _) => UpdateTracks(cfg, TracksOf(Front(log)), o, now)
      case Cleared => map[]
      case Emitted(_, _, _, _, _) => TracksOf(Front(log))
  }

  /** A frame's facts, count, condition and timeline are those of its observation. */
  predicate FrameOk(before: Log, f: Item)
    requires f.Frame?
  {
    && ValidObservation(f.o) && f.now == TimeOf(f.under, f.o) && f.facts == FactSet(f.under, f.o.facts)
    && f.count == PersonCount(UpdateTracks(f.under, TracksOf(before), f.o, f.now))
    && (f.condition <==> if f.under.ruleType.Occupancy? then f.count > 0 else f.facts != {})
  }

  /** The event describes the latest frame, with its wall-clock time or none. */
  predicate ContextOk(before: Log, e: Event, cfg: Config) {
    && LastFrame(before).Some?
    && var f := LastFrame(before).value;
    && f.under == cfg
    && e.channelId == f.o.channelId && e.epoch == f.o.epoch && e.frameId == f.o.frameId && e.personCount == f.count
    && e.clock == f.o.clock && e.timeUs == f.o.captureUs && e.eventType == cfg.ruleType && e.ruleId == cfg.ruleId
  }

  // ---------- what each emission must satisfy ----------

  /** Same lifecycle, next in sequence. */
  predicate Follows(a: Event, b: Event) {
    && b.seqNo == a.seqNo + 1 && b.eventId == a.eventId && b.channelId == a.channelId && b.epoch == a.epoch
    && b.eventType == a.eventType && b.ruleId == a.ruleId && b.configVersion == a.configVersion
    && b.frameId >= a.frameId
  }

  /** An unbroken streak of true conditions, ending with this frame, that meets
      confirmation and debounce, after any cooldown. */
  predicate StartTimely(before: Log, at: Time, cfg: Config) {
    var n := Streak(before, true);
    && n >= 1 && Last(before).now == at
    && (n >= cfg.confirmFrames || Elapsed(at, StreakStart(before), cfg.confirmMs * 1000))
    && (cfg.debounceMs == 0 || at.None? || Elapsed(at, StreakStart(before), cfg.debounceMs * 1000))
    && (CoolUntil(before).Some? ==> at.Some? && at.value >= CoolUntil(before).value)
  }

  predicate StartOk(hash: string -> nat, before: Log, e: Event, at: Time, cfg: Config, serial: nat) {
    && !Open(before) && e.seqNo == 1
    && e.eventId == EventId(hash(e.channelId), e.epoch, serial) && 1 <= serial <= U64_MAX
    && (LastEmit(before).Some? ==> serial > LastEmit(before).value.serial)
    && StartTimely(before, at, cfg) && ContextOk(before, e, cfg)
    && e.deltaIn == |Novel({}, Last(before).facts, In)| && e.deltaOut == |Novel({}, Last(before).facts, Out)|
  }

  predicate NextOk(before: Log, e: Event, at: Time, cfg: Config, serial: nat, natural: bool) {
    && Open(before)
    && var prev := LastEmit(before).value;
    && Follows(prev.event, e) && prev.cfg == cfg && prev.serial == serial && ContextOk(before, e, cfg)
    && (prev.event.phase.Update? ==> prev.event.trackIds <= e.trackIds)
    && e.deltaIn == Clip(NovelSince(before, In)) && e.deltaOut == Clip(NovelSince(before, Out))
    && (e.phase.Update? && at.Some? && prev.at.Some? ==> Elapsed(at, prev.at, cfg.updateMs * 1000))
    && (natural ==>
          && e.phase.End? && e.reason.Disappeared? && Streak(before, false) >= 1 && Last(before).now == at
          && (cfg.graceMs == 0 || Elapsed(at, AbsentFrom(before), cfg.graceMs * 1000)))
  }

  predicate ItemOk(hash: string -> nat, before: Log, item: Item) {
    match item
    case Frame(_, _, _, _, _, _) => FrameOk(before, item)
    case Cleared => !Open(before) // clearing never abandons an open event
    case Emitted(e, at, cfg, serial, natural) =>
      if e.phase.Start? then !natural && StartOk(hash, before, e, at, cfg, serial)
      else NextOk(before, e, at, cfg, serial, natural)
  }

  predicate GoodLog(hash: string -> nat, log: Log) {
    log == [] || (GoodLog(hash, Front(log)) && ItemOk(hash, Front(log), Last(log)))
  }

  // ---------- appending ----------

  lemma Snoc(log: Log, item: Item)
    ensures Front(log + [item]) == log && Last(log + [item]) == item
  {
  }

  lemma FrameSnoc(log: Log, f: Item)
    requires f.Frame?
    ensures var l := log + [f];
            && LastEmit(l) == LastEmit(log) && CoolUntil(l) == CoolUntil(log)
            && Streak(l, f.condition) == Streak(log, f.condition) + 1 && Streak(l, !f.condition) == 0
            && FactsBefore(l) == f.facts && LastFrame(l) == Some(f)
            && TracksOf(l) == UpdateTracks(f.under, TracksOf(log), f.o, f.now)
            && (forall d :: NovelSince(l, d) == NovelSince(log, d) + |Novel(FactsBefore(log), f.facts, d)|)
            && AbsentFrom(l) == (if f.condition then None else if AbsentFrom(log).Some? then AbsentFrom(log) else f.now)
            && StreakStart(l) ==
               (if !f.condition then None else if Streak(log, true) == 0 then f.now else StreakStart(log))
  {
    Snoc(log, f);
    StreakFrames(log, true);
    hide UpdateTracks;
  }

  lemma {:induction false} StreakFrames(log: Log, condition: bool)
    ensures forall i | |log| - Streak(log, condition) <= i < |log| :: log[i].Frame? && log[i].condition == condition
  {
    if log != [] { StreakFrames(Front(log), condition); }
  }

  lemma EmitSnoc(log: Log, e: Event, at: Time, cfg: Config, serial: nat, natural: bool)
    ensures var l := log + [Emitted(e, at, cfg, serial, natural)];
            && LastEmit(l) == Some(Emitted(e, at, cfg, serial, natural))
            && Open(l) == !e.phase.End?
            && Streak(l, true) == 0 && Streak(l, false) == 0 && AbsentFrom(l) == None && StreakStart(l) == None
            && FactsBefore(l) == (if e.phase.End? then {} else FactsBefore(log))
            && LastFrame(l) == LastFrame(log) && TracksOf(l) == TracksOf(log)
            && (forall d :: NovelSince(l, d) == 0)
            && CoolUntil(l) == (if natural && at.Some? && cfg.cooldownMs > 0
                                then Some(AddMs(at.value, cfg.cooldownMs)) else None)
  {
    Snoc(log, Emitted(e, at, cfg, serial, natural));
  }

  lemma ClearSnoc(log: Log)
    ensures var l := log + [Cleared];
            && LastEmit(l) == LastEmit(log) && Open(l) == Open(log)
            && Streak(l, true) == 0 && Streak(l, false) == 0 && AbsentFrom(l) == None && StreakStart(l) == None
            && FactsBefore(l) == {} && LastFrame(l) == LastFrame(log) && TracksOf(l) == map[]
            && CoolUntil(l) == None && (forall d :: NovelSince(l, d) == 0)
  {
    Snoc(log, Cleared);
  }
}
