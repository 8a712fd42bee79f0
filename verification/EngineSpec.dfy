// One step of the event engine as a function. `log` is the history of what it saw
// and emitted, and the subject of the theorems in EngineProofs.dfy.
module EngineSpec {
  import opened Common
  import opened EngineModel

  datatype Phase = Start | Update | End

  datatype Reason =
    | NoReason | ByConfirm | CountChanged | ByDirection | Disappeared
    | StreamReset | Reconfigured | AnalyticsDisabled | ProcessRestart | OtherReason

  datatype Event = Event(
    eventId: string, channelId: string, epoch: nat, eventType: RuleType, ruleId: string,
    phase: Phase, seqNo: nat, reason: Reason, timeUs: int, clock: Clock, frameId: nat,
    personCount: nat, deltaIn: nat, deltaOut: nat, trackIds: seq<nat>, configVersion: nat)

  /** Frame: an accepted observation with its timeline value, whether the rule condition
      held, its matching facts, and the person count, under the configuration then in force.
      Emitted: an event, the timeline value and configuration it was emitted under,
      the lifecycle serial, and whether it is an END that the engine itself found by
      absence. Cleared: all runtime state was dropped. */
  datatype Item =
    | Frame(now: Time, condition: bool, facts: Seen, o: Observation, under: Config, count: nat)
    | Emitted(event: Event, at: Time, cfg: Config, serial: nat, natural: bool)
    | Cleared

  datatype Trigger = Trigger(frames: nat, since: Time)

  datatype Pending = Pending(
    update: bool, personCount: nat, deltaIn: nat, deltaOut: nat, trackIds: seq<nat>, reason: Reason)

  const NoPending := Pending(false, 0, 0, 0, [], NoReason)

  /** `hash` is the channel hash of event ids; any function will do. */
  datatype Core = Core(
    cfg: Config, version: nat, hash: string -> nat, sink: bool,
    order: Order, haveStream: bool, channelId: string, last: Option<Observation>,
    tracks: map<nat, Tracked>, facts: Seen,
    active: Option<Event>, activeCount: nat, latestCount: Option<nat>,
    trigger: Option<Trigger>, absentSince: Time, pending: Pending, lastEmit: Time, cooldown: Time,
    serial: nat, log: seq<Item>)

  function Init(cfg: Config, version: nat, hash: string -> nat, sink: bool): Option<Core> {
    if !ValidConfig(cfg) then None
    else
      Some(Core(cfg, if version == 0 then 1 else version, hash, sink, Unordered, false, "", None,
                map[], {}, None, 0, None, None, None, NoPending, None, None, 0, []))
  }

  // ---------- event ids ----------

  function Hex(n: nat, digits: nat): (s: string)
    ensures |s| == digits
  {
    if digits == 0 then "" else Hex(n / 16, digits - 1) + ["0123456789abcdef"[n % 16]]
  }

  function EventId(hash: nat, epoch: nat, serial: nat): string {
    "me-" + Hex(hash, 16) + "-" + Hex(epoch, 16) + "-" + Hex(serial, 16)
  }

  // ---------- clearing ----------

  function ClearPending(c: Core): Core {
    c.(trigger := None, absentSince := None, pending := NoPending, lastEmit := None)
  }

  function ClearRuntime(c: Core): Core {
    ClearPending(c).(active := None, activeCount := 0, latestCount := None, cooldown := None,
                     tracks := map[], facts := {}, log := c.log + [Cleared])
  }

  // ---------- emission ----------

  function WithContext(e: Event, o: Observation, count: nat, deltaIn: nat, deltaOut: nat): Event {
    e.(channelId := o.channelId, epoch := o.epoch,
       timeUs := if o.clock.Synced? || o.clock.Estimated? then o.captureUs else 0,
       clock := o.clock, frameId := o.frameId, personCount := count, deltaIn := deltaIn, deltaOut := deltaOut)
  }

  function Emit(c: Core, e: Event, at: Time, natural: bool): Core {
    if c.sink then c.(log := c.log + [Emitted(e, at, c.cfg, c.serial, natural)]) else c
  }

  function StartedEvent(c: Core, o: Observation, s: Summary, count: nat, serial: nat): Event {
    WithContext(
      Event(EventId(c.hash(o.channelId), o.epoch, serial), "", 0, c.cfg.ruleType,
            if s.first.Some? then s.first.value.ruleId else c.cfg.ruleId,
            Start, 1, ByConfirm, 0, Unavailable, 0, 0, 0, 0, s.trackIds, c.version),
      o, count, s.deltaIn, s.deltaOut)
  }

  function UpdatedEvent(c: Core, o: Observation, count: nat): Event
    requires c.active.Some?
  {
    WithContext(
      c.active.value.(seqNo := c.active.value.seqNo + 1, phase := Update, reason := c.pending.reason,
                      trackIds := c.pending.trackIds),
      o, count, c.pending.deltaIn, c.pending.deltaOut)
  }

  function EndedEvent(c: Core, o: Observation, reason: Reason, count: nat): Event
    requires c.active.Some?
  {
    WithContext(
      c.active.value.(seqNo := c.active.value.seqNo + 1, phase := End, reason := reason,
                      trackIds := if c.pending.trackIds != [] then c.pending.trackIds else c.active.value.trackIds),
      o, count, c.pending.deltaIn, c.pending.deltaOut)
  }

  /** Each emission returns how many events went out, or -1 when it cannot. */
  function EmitStart(c: Core, o: Observation, s: Summary, count: nat, now: Time): (Core, int) {
    if c.serial >= U64_MAX then (c, -1)
    else
      var serial := c.serial + 1;
      var e := StartedEvent(c, o, s, count, serial);
      var c1 := c.(serial := serial, facts := FactSet(c.cfg, s.facts), active := Some(e),
                   activeCount := count, lastEmit := now);
      (Emit(c1, e, now, false), 1)
  }

  function AddTracks(have: seq<nat>, more: seq<nat>): seq<nat> {
    if more == [] then have
    else
      var h := AddTracks(have, more[..|more| - 1]);
      var t := more[|more| - 1];
      if t in h || |h| >= MAX_FACTS then h else h + [t]
  }

  function MarkUpdate(c: Core, count: nat, deltaIn: nat, deltaOut: nat, ids: seq<nat>, reason: Reason): Core {
    c.(pending := Pending(true, count, SatAdd(c.pending.deltaIn, deltaIn), SatAdd(c.pending.deltaOut, deltaOut),
                          AddTracks(c.pending.trackIds, ids), reason))
  }

  function MaybeEmitUpdate(c: Core, o: Observation, count: nat, now: Time): (Core, int) {
    if c.active.None? || !c.pending.update then (c, 0)
    else if c.lastEmit.Some? && now.Some? && !Elapsed(now, c.lastEmit, c.cfg.updateMs * 1000) then (c, 0)
    else if c.active.value.seqNo >= U64_MAX then (c, -1)
    else
      var e := UpdatedEvent(c, o, count);
      // the responsible tracks stay pending until END
      var c1 := c.(active := Some(e), activeCount := count, lastEmit := now,
                   pending := NoPending.(trackIds := c.pending.trackIds));
      (Emit(c1, e, now, false), 1)
  }

  function EmitEnd(c: Core, o: Observation, reason: Reason, count: nat, now: Time, cool: bool): (Core, int) {
    if c.active.None? then (c, 0)
    else if c.active.value.seqNo >= U64_MAX then (c, -1)
    else
      var e := EndedEvent(c, o, reason, count);
      var c1 := Emit(c, e, now, cool);
      var c2 := if cool && now.Some? && c.cfg.cooldownMs > 0
                then c1.(cooldown := Some(AddMs(now.value, c.cfg.cooldownMs))) else c1;
      (ClearPending(c2).(active := None, activeCount := 0, facts := {}), 1)
  }

  function LatestCount(c: Core): nat {
    if c.latestCount.Some? then c.latestCount.value else c.activeCount
  }

  /** End the active event on the last observation, outside of any new one. */
  function EndOnLast(c: Core, reason: Reason): (Core, int) {
    if c.active.Some? && c.last.Some? then
      EmitEnd(c, c.last.value, reason, LatestCount(c), TimeOf(c.cfg, c.last.value), false)
    else (c, 0)
  }

  // ---------- the trigger ----------

  function UpdateTrigger(c: Core, condition: bool, now: Time): Core {
    if !condition then c.(trigger := None)
    else if c.trigger.None? then c.(trigger := Some(Trigger(1, now)))
    else if c.trigger.value.frames < U32_MAX then
      c.(trigger := Some(c.trigger.value.(frames := c.trigger.value.frames + 1)))
    else c
  }

  predicate CooldownElapsed(c: Core, now: Time) {
    c.cooldown.Some? ==> now.Some? && now.value >= c.cooldown.value
  }

  predicate Qualified(c: Core, now: Time) {
    && c.trigger.Some?
    && ((c.cfg.confirmFrames > 0 && c.trigger.value.frames >= c.cfg.confirmFrames)
        || Elapsed(now, c.trigger.value.since, c.cfg.confirmMs * 1000))
    && CooldownElapsed(c, now)
    && (c.cfg.debounceMs == 0 || Elapsed(now, c.trigger.value.since, c.cfg.debounceMs * 1000) || now.None?)
  }

  // ---------- an accepted observation ----------

  function WhenIdle(c: Core, o: Observation, s: Summary, count: nat, condition: bool, now: Time): (Core, int) {
    var c1 := UpdateTrigger(c, condition, now);
    if !Qualified(c1, now) then (c1, 0)
    else
      var (c2, n) := EmitStart(c1, o, s, count, now);
      if n < 0 then (c2, -1) else (c2.(trigger := None, absentSince := None), n)
  }

  function WhenAbsent(c: Core, o: Observation, count: nat, now: Time): (Core, int) {
    var c1 := if c.absentSince.None? then c.(absentSince := now) else c;
    if c1.cfg.graceMs == 0 || Elapsed(now, c1.absentSince, c1.cfg.graceMs * 1000) then
      EmitEnd(c1, o, Disappeared, count, now, true)
    else (c1, 0)
  }

  function WhenPresent(c: Core, o: Observation, s: Summary, count: nat, now: Time): (Core, int) {
    var c1 := c.(absentSince := None);
    var c2 :=
      if c.cfg.ruleType.Occupancy? then
        (if count != c.activeCount then MarkUpdate(c1, count, 0, 0, [], CountChanged) else c1)
      else if s.novel > 0 then MarkUpdate(c1, count, s.deltaIn, s.deltaOut, s.trackIds, ByDirection)
      else c1;
    MaybeEmitUpdate(c2, o, count, now)
  }

  function ProcessAccepted(c: Core, o: Observation): (Core, int) {
    var now := TimeOf(c.cfg, o);
    if !c.cfg.enabled then (ClearPending(c).(latestCount := Some(0), tracks := map[]), 0)
    else
      var tracks := UpdateTracks(c.cfg, c.tracks, o, now);
      var count := PersonCount(tracks);
      var s := Summarize(c.cfg, c.facts, o.facts);
      var condition := if c.cfg.ruleType.Occupancy? then count > 0 else s.matches > 0;
      var facts := FactSet(c.cfg, s.facts);
      var c1 := c.(tracks := tracks, latestCount := Some(count),
                   facts := if c.active.Some? && !c.cfg.ruleType.Occupancy? then facts else c.facts,
                   log := c.log + [Frame(now, condition, facts, o, c.cfg, count)]);
      if c1.active.None? then WhenIdle(c1, o, s, count, condition, now)
      else if !condition then WhenAbsent(c1, o, count, now)
      else WhenPresent(c1, o, s, count, now)
  }

  // ---------- the four operations ----------

  /** A new channel ends the active event and starts a new order. */
  function SwitchChannel(c: Core, o: Observation): (Core, int) {
    if c.haveStream && c.channelId != o.channelId then
      var (c1, n) := EndOnLast(c, StreamReset);
      if n < 0 then (c1, -1) else (ClearRuntime(c1).(haveStream := false, order := Unordered), n)
    else (c, 0)
  }

  function AdvanceEpoch(c: Core, r: OrderResult): (Core, int) {
    if r.EpochAdvance? then
      var (c1, n) := EndOnLast(c, StreamReset);
      if n < 0 then (c1, -1) else (ClearRuntime(c1), n)
    else (c, 0)
  }

  function Process(c: Core, o: Observation): (Core, int) {
    if !ValidObservation(o) then (c, -1)
    else
      var (c1, n1) := SwitchChannel(c, o);
      if n1 < 0 then (c1, -1) else ProcessOnChannel(c1, o, n1)
  }

  /** `n1` events went out already, for the stream that was left. */
  function ProcessOnChannel(c1: Core, o: Observation, n1: int): (Core, int) {
    var (order, r) := Classify(c1.order, o);
    if r.Invalid? then (c1, -1)
    else if r.Duplicate? || r.OutOfOrder? then (c1, n1)
    else
      var (c2, n2) := AdvanceEpoch(c1, r);
      if n2 < 0 then (c2, -1)
      else
        var c3 := c2.(order := order, haveStream := true, channelId := o.channelId, last := Some(o));
        var (c4, n4) := ProcessAccepted(c3, o);
        if n4 < 0 then (c4, -1) else (c4, n1 + n2 + n4)
  }

  predicate ValidReason(r: Reason) { !r.NoReason? && !r.OtherReason? }

  function Close(c: Core, reason: Reason): (Core, int) {
    if !ValidReason(reason) then (c, -1)
    else
      var (c1, n) := EndOnLast(c, reason);
      if n < 0 then (c1, -1) else (ClearRuntime(c1), n)
  }

  function NextVersion(have: nat, asked: nat): Option<nat> {
    if asked != 0 then (if asked <= have then None else Some(asked))
    else if have >= U64_MAX then None else Some(have + 1)
  }

  function Reconfigure(c: Core, cfg: Config, version: nat): (Core, int) {
    if !ValidConfig(cfg) || NextVersion(c.version, version).None? then (c, -1)
    else
      var (c1, n) := EndOnLast(c, if cfg.enabled then Reconfigured else AnalyticsDisabled);
      if n < 0 then (c1, -1)
      else (ClearRuntime(c1).(cfg := cfg, version := NextVersion(c.version, version).value), n)
  }

  const ZeroConfig := Config(false, 0, 0, 0, 0, 0, 0, 0, 0, None, "", NoRule, true)

  /** Deinit zeroes the structure, sink included: nothing is emitted afterwards. */
  function Deinit(c: Core): (Core, int) {
    var (c1, n) := EndOnLast(c, ProcessRestart);
    if n < 0 then (c1, -1)
    else
      (ClearRuntime(c1).(cfg := ZeroConfig, version := 0, sink := false, order := Unordered, haveStream := false,
                         channelId := "", last := None, serial := 0), n)
  }

  datatype Call =
    | DoProcess(o: Observation)
    | DoClose(reason: Reason)
    | DoReconfigure(cfg: Config, version: nat)
    | DoDeinit

  function Step(c: Core, call: Call): (Core, int) {
    match call
    case DoProcess(o) => Process(c, o)
    case DoClose(reason) => Close(c, reason)
    case DoReconfigure(cfg, version) => Reconfigure(c, cfg, version)
    case DoDeinit => Deinit(c)
  }

  function Run(c: Core, calls: seq<Call>): Core {
    if calls == [] then c else Step(Run(c, calls[..|calls| - 1]), calls[|calls| - 1]).0
  }
}
