// The engine object: fields and slot tables updated in place. Every operation is proved
// equal to its step function in EngineSpec.dfy, so the theorems there are about this code.
module EventEngine {
  import opened Common
  import opened EngineModel
  import opened EngineSpec
  import opened EngineTrace
  import opened EngineTables

  /** Observation validation as the two scans it is. */
  method ValidateTracks(ts: seq<Track>) returns (ok: bool)
    ensures ok <==>
      && (forall i | 0 <= i < |ts| :: ValidTrack(ts[i]))
      && (forall i, j | 0 <= j < i < |ts| :: ts[j].id != ts[i].id)
  {
    var i := 0;
    while i < |ts|
      invariant 0 <= i <= |ts|
      invariant forall k | 0 <= k < i :: ValidTrack(ts[k])
      invariant forall k, j | 0 <= j < k < i :: ts[j].id != ts[k].id
    {
      if !ValidTrack(ts[i]) { return false; }
      var j := 0;
      while j < i
        invariant 0 <= j <= i
        invariant forall k | 0 <= k < j :: ts[k].id != ts[i].id
      {
        if ts[j].id == ts[i].id { return false; }
        j := j + 1;
      }
      i := i + 1;
    }
    ok := true;
  }

  method ValidateFacts(fs: seq<Fact>) returns (ok: bool)
    ensures ok <==>
      && (forall i | 0 <= i < |fs| :: BoundedId(fs[i].ruleId) && !fs[i].ruleType.NoRule? && fs[i].score <= COORD_SCALE)
      && (forall i, j | 0 <= j < i < |fs| :: !FactsClash(fs[j], fs[i]))
  {
    var i := 0;
    while i < |fs|
      invariant 0 <= i <= |fs|
      invariant forall k | 0 <= k < i ::
                  BoundedId(fs[k].ruleId) && !fs[k].ruleType.NoRule? && fs[k].score <= COORD_SCALE
      invariant forall k, j | 0 <= j < k < i :: !FactsClash(fs[j], fs[k])
    {
      if !BoundedId(fs[i].ruleId) || fs[i].ruleType.NoRule? || fs[i].score > COORD_SCALE { return false; }
      var j := 0;
      while j < i
        invariant 0 <= j <= i
        invariant forall k | 0 <= k < j :: !FactsClash(fs[k], fs[i])
      {
        if FactsClash(fs[j], fs[i]) { return false; }
        j := j + 1;
      }
      i := i + 1;
    }
    ok := true;
  }

  method Validate(o: Observation) returns (ok: bool)
    ensures ok <==> ValidObservation(o)
  {
    if !o.labelsOk || !BoundedId(o.channelId) || o.epoch == 0 || o.frameId == 0 { return false; }
    if o.tbNum == 0 || o.tbDen == 0 { return false; }
    if (!o.ptsValid && o.pts != 0) || (o.ptsValid && o.pts < 0) { return false; }
    if o.width == 0 || o.height == 0 { return false; }
    match o.clock {
      case Unavailable => if o.captureUs != 0 { return false; }
      case InvalidClock => if o.captureUs != 0 { return false; }
      case _ => if o.captureUs <= 0 { return false; }
    }
    if |o.tracks| > MAX_TRACKS { return false; }
    var tracksOk := ValidateTracks(o.tracks);
    if !tracksOk || |o.facts| > MAX_FACTS { return false; }
    ok := ValidateFacts(o.facts);
  }

  /** A summary whose kept facts all match and fit the fact table. */
  ghost predicate Ready(cfg: Config, s: Summary) {
    |s.facts| <= MAX_FACTS && Pairs(s.facts) == FactSet(cfg, s.facts)
  }

  class Engine {
    var config: Config
    var version: nat
    const hash: string -> nat
    var sink: bool
    var order: Order
    var haveStream: bool
    var channelId: string
    var last: Option<Observation>
    const tracks: array<Slot>
    const ruleFacts: array<FactSlot>
    var active: Option<Event>
    var activeCount: nat
    var latestCount: Option<nat>
    var trigger: Option<Trigger>
    var absentSince: Time
    var pending: Pending
    var lastEmit: Time
    var cooldown: Time
    var serial: nat
    ghost var trackMap: map<nat, Tracked>
    ghost var seen: Seen
    ghost var log: Log

    /** The slot tables stand for the map and the set. */
    ghost predicate Valid()
      reads this`trackMap, this`seen, tracks, ruleFacts
    {
      && ValidTable(tracks) && ValidFacts(ruleFacts)
      && trackMap == TableOf(tracks[..]) && seen == SeenOf(ruleFacts[..])
    }

    ghost function Abs(): Core
      reads this
    {
      Core(config, version, hash, sink, order, haveStream, channelId, last, trackMap, seen, active, activeCount,
           latestCount, trigger, absentSince, pending, lastEmit, cooldown, serial, log)
    }

    constructor (cfg: Config, version: nat, hash: string -> nat, sink: bool)
      requires ValidConfig(cfg)
      ensures Valid() && fresh(tracks) && fresh(ruleFacts)
      ensures Init(cfg, version, hash, sink) == Some(Abs())
    {
      this.config, this.version, this.hash, this.sink := cfg, if version == 0 then 1 else version, hash, sink;
      order, haveStream, channelId, last := Unordered, false, "", None;
      tracks := new Slot[MAX_TRACKS](_ => FREE);
      ruleFacts := new FactSlot[MAX_TRACKS](_ => NO_FACT);
      active, activeCount, latestCount, trigger, absentSince := None, 0, None, None, None;
      pending, lastEmit, cooldown, serial, trackMap, seen, log := NoPending, None, None, 0, map[], {}, [];
      new;
      assert forall i | 0 <= i < MAX_TRACKS :: tracks[..][i] == FREE;
      AgreesIs(tracks[..], map[]);
      assert SeenOf(ruleFacts[..]) == {};
    }

    method ClearPendingFields()
      modifies this`trigger, this`absentSince, this`pending, this`lastEmit
      ensures Abs() == ClearPending(old(Abs()))
    {
      trigger, absentSince, pending, lastEmit := None, None, NoPending, None;
    }

    method ClearTracks()
      requires Valid()
      modifies tracks, this`trackMap
      ensures Valid() && Abs() == old(Abs()).(tracks := map[])
    {
      hide SeenOf;
      var i := 0;
      while i < tracks.Length
        invariant 0 <= i <= tracks.Length && forall k | 0 <= k < i :: tracks[k] == FREE
        modifies tracks
      {
        tracks[i] := FREE;
        i := i + 1;
      }
      trackMap := map[];
      AgreesIs(tracks[..], map[]);
    }

    method ForgetFacts()
      requires Valid()
      modifies ruleFacts, this`seen
      ensures Valid() && Abs() == old(Abs()).(facts := {})
    {
      hide TableOf, SeenOf;
      ClearFacts(ruleFacts);
      seen := {};
    }

    method RememberSummary(s: Summary)
      requires Valid() && Ready(config, s)
      modifies ruleFacts, this`seen
      ensures Valid() && Abs() == old(Abs()).(facts := FactSet(config, s.facts))
    {
      hide TableOf, SeenOf, FactSet, Pairs;
      var ok := RememberFacts(ruleFacts, s.facts);
      assert ok; // the fact table is never exhausted
      seen := SeenOf(ruleFacts[..]);
    }

    method ClearRuntimeFields()
      requires Valid()
      modifies this, tracks, ruleFacts
      ensures Valid() && Abs() == ClearRuntime(old(Abs()))
    {
      hide Valid;
      ClearTracks();
      ForgetFacts();
      active, activeCount, latestCount, cooldown := None, 0, None, None;
      ClearPendingFields();
      log := log + [Cleared];
    }

    method EmitEvent(e: Event, ghost at: Time, ghost natural: bool) returns (n: int)
      modifies this`log
      ensures n == 1 && Abs() == Emit(old(Abs()), e, at, natural)
    {
      if sink { log := log + [Emitted(e, at, config, serial, natural)]; }
      n := 1;
    }

    method StartEvent(o: Observation, s: Summary, count: nat, now: Time) returns (n: int)
      requires Valid() && active.None? && Ready(config, s)
      modifies this, ruleFacts
      ensures Valid() && (Abs(), n) == EmitStart(old(Abs()), o, s, count, now)
    {
      hide Valid, FactSet, Ready, StartedEvent;
      if serial >= U64_MAX { return -1; }
      var e := BuildStart(o, s, count);
      Activate(e, s, count, now);
      n := EmitEvent(e, now, false);
    }

    method Activate(e: Event, s: Summary, count: nat, now: Time)
      requires Valid() && Ready(config, s)
      modifies this`serial, this`active, this`activeCount, this`lastEmit, this`seen, ruleFacts
      ensures Valid()
      ensures Abs() == old(Abs()).(serial := old(serial) + 1, facts := FactSet(config, s.facts), active := Some(e),
                                   activeCount := count, lastEmit := now)
    {
      hide Valid, FactSet, Ready;
      RememberSummary(s);
      serial, active, activeCount, lastEmit := serial + 1, Some(e), count, now;
    }

    method BuildStart(o: Observation, s: Summary, count: nat) returns (e: Event)
      ensures e == StartedEvent(Abs(), o, s, count, serial + 1)
    {
      hide EventId, WithContext;
      e := Event(EventId(hash(o.channelId), o.epoch, serial + 1), "", 0, config.ruleType, config.ruleId,
                 Start, 1, ByConfirm, 0, Unavailable, 0, 0, 0, 0, s.trackIds, version);
      if s.first.Some? { e := e.(ruleId := s.first.value.ruleId); }
      e := WithContext(e, o, count, s.deltaIn, s.deltaOut);
    }

    method BuildUpdate(o: Observation, count: nat) returns (e: Event)
      requires active.Some?
      ensures e == UpdatedEvent(Abs(), o, count)
    {
      hide WithContext;
      e := active.value.(seqNo := active.value.seqNo + 1, phase := Update, reason := pending.reason,
                         trackIds := pending.trackIds);
      e := WithContext(e, o, count, pending.deltaIn, pending.deltaOut);
    }

    method BuildEnd(o: Observation, reason: Reason, count: nat) returns (e: Event)
      requires active.Some?
      ensures e == EndedEvent(Abs(), o, reason, count)
    {
      hide WithContext;
      e := active.value.(seqNo := active.value.seqNo + 1, phase := End, reason := reason);
      if pending.trackIds != [] { e := e.(trackIds := pending.trackIds); }
      e := WithContext(e, o, count, pending.deltaIn, pending.deltaOut);
    }

    method MarkUpdateFields(count: nat, deltaIn: nat, deltaOut: nat, ids: seq<nat>, reason: Reason)
      modifies this`pending
      ensures Abs() == MarkUpdate(old(Abs()), count, deltaIn, deltaOut, ids, reason)
    {
      var have := pending.trackIds;
      var i := 0;
      while i < |ids|
        invariant 0 <= i <= |ids| && have == AddTracks(pending.trackIds, ids[..i])
      {
        assert ids[..i + 1][..i] == ids[..i];
        if ids[i] !in have && |have| < MAX_FACTS { have := have + [ids[i]]; }
        i := i + 1;
      }
      assert ids[..i] == ids;
      pending := Pending(
        true, count, SatAdd(pending.deltaIn, deltaIn), SatAdd(pending.deltaOut, deltaOut), have, reason);
    }

    method EmitUpdateIfDue(o: Observation, count: nat, now: Time) returns (n: int)
      requires active.Some?
      modifies this`active, this`activeCount, this`lastEmit, this`pending, this`log
      ensures (Abs(), n) == MaybeEmitUpdate(old(Abs()), o, count, now)
    {
      hide UpdatedEvent;
      if !pending.update { return 0; }
      if lastEmit.Some? && now.Some? && !Elapsed(now, lastEmit, config.updateMs * 1000) { return 0; }
      if active.value.seqNo >= U64_MAX { return -1; }
      var e := BuildUpdate(o, count);
      Advanced(e, count, now);
      n := EmitEvent(e, now, false);
    }

    /** The responsible tracks stay pending until END. */
    method Advanced(e: Event, count: nat, now: Time)
      modifies this`active, this`activeCount, this`lastEmit, this`pending
      ensures Abs() == old(Abs()).(active := Some(e), activeCount := count, lastEmit := now,
                                   pending := NoPending.(trackIds := old(pending).trackIds))
    {
      active, activeCount, lastEmit := Some(e), count, now;
      pending := pending.(update := false, personCount := 0, deltaIn := 0, deltaOut := 0, reason := NoReason);
    }

    method EndEvent(o: Observation, reason: Reason, count: nat, now: Time, cool: bool) returns (n: int)
      requires Valid()
      modifies this, ruleFacts
      ensures Valid() && (Abs(), n) == EmitEnd(old(Abs()), o, reason, count, now, cool)
    {
      hide Valid, EndedEvent, ClearPending;
      if active.None? { return 0; }
      if active.value.seqNo >= U64_MAX { return -1; }
      var e := BuildEnd(o, reason, count);
      n := EmitEvent(e, now, cool);
      if cool && now.Some? && config.cooldownMs > 0 { cooldown := Some(AddMs(now.value, config.cooldownMs)); }
      Deactivate();
    }

    method Deactivate()
      requires Valid()
      modifies this, ruleFacts
      ensures Valid() && Abs() == ClearPending(old(Abs())).(active := None, activeCount := 0, facts := {})
    {
      hide Valid;
      active, activeCount := None, 0;
      ClearPendingFields();
      ForgetFacts();
    }

    method EndLast(reason: Reason) returns (n: int)
      requires Valid()
      modifies this, ruleFacts
      ensures Valid() && (Abs(), n) == EndOnLast(old(Abs()), reason)
    {
      hide Valid, EmitEnd, TimeOf;
      n := 0;
      if active.Some? && last.Some? {
        var count := if latestCount.Some? then latestCount.value else activeCount;
        n := EndEvent(last.value, reason, count, TimeOf(config, last.value), false);
      }
    }

    method UpdateTriggerCandidate(condition: bool, now: Time)
      modifies this`trigger
      ensures Abs() == UpdateTrigger(old(Abs()), condition, now)
    {
      if !condition {
        trigger := None;
      } else if trigger.None? {
        trigger := Some(Trigger(1, now));
      } else if trigger.value.frames < U32_MAX {
        trigger := Some(trigger.value.(frames := trigger.value.frames + 1));
      }
    }

    method TriggerQualified(now: Time) returns (yes: bool)
      ensures yes <==> Qualified(Abs(), now)
    {
      if trigger.None? { return false; }
      var confirmed := (config.confirmFrames > 0 && trigger.value.frames >= config.confirmFrames)
                       || Elapsed(now, trigger.value.since, config.confirmMs * 1000);
      if !confirmed { return false; }
      if cooldown.Some? && !(now.Some? && now.value >= cooldown.value) { return false; }
      yes := config.debounceMs == 0 || Elapsed(now, trigger.value.since, config.debounceMs * 1000) || now.None?;
    }

    method ProcessIdle(o: Observation, s: Summary, count: nat, condition: bool, now: Time) returns (n: int)
      requires Valid() && active.None? && Ready(config, s)
      modifies this, ruleFacts
      ensures Valid() && (Abs(), n) == WhenIdle(old(Abs()), o, s, count, condition, now)
    {
      hide Valid, EmitStart, Ready, Qualified;
      UpdateTriggerCandidate(condition, now);
      var start := TriggerQualified(now);
      if !start { return 0; }
      n := StartEvent(o, s, count, now);
      if n < 0 { return -1; }
      trigger, absentSince := None, None;
    }

    method ProcessAbsent(o: Observation, count: nat, now: Time) returns (n: int)
      requires Valid() && active.Some?
      modifies this, ruleFacts
      ensures Valid() && (Abs(), n) == WhenAbsent(old(Abs()), o, count, now)
    {
      hide Valid, EmitEnd;
      if absentSince.None? { absentSince := now; }
      if config.graceMs != 0 && !Elapsed(now, absentSince, config.graceMs * 1000) { return 0; }
      n := EndEvent(o, Disappeared, count, now, true);
    }

    method ProcessPresent(o: Observation, s: Summary, count: nat, now: Time) returns (n: int)
      requires Valid() && active.Some?
      modifies this`absentSince, this`active, this`activeCount, this`lastEmit, this`pending, this`log
      ensures Valid() && (Abs(), n) == WhenPresent(old(Abs()), o, s, count, now)
    {
      hide Valid, MaybeEmitUpdate, AddTracks;
      absentSince := None;
      if config.ruleType.Occupancy? {
        if count != activeCount { MarkUpdateFields(count, 0, 0, [], CountChanged); }
      } else if s.novel > 0 {
        MarkUpdateFields(count, s.deltaIn, s.deltaOut, s.trackIds, ByDirection);
      }
      n := EmitUpdateIfDue(o, count, now);
    }

    method UpdatePersons(o: Observation, now: Time) returns (count: nat)
      requires Valid()
      modifies tracks, this`trackMap, this`latestCount
      ensures Valid() && count == PersonCount(trackMap)
      ensures Abs() == old(Abs()).(tracks := UpdateTracks(config, old(Abs()).tracks, o, now),
                                   latestCount := Some(count))
    {
      hide TableOf, SeenOf, UpdateTracks, PersonCount;
      count := UpdateTrackTable(config, tracks, o, now);
      trackMap := TableOf(tracks[..]);
      latestCount := Some(count);
    }

    method Summary(o: Observation) returns (s: Summary)
      requires Valid() && ValidObservation(o)
      ensures Ready(config, s) && s == Summarize(config, seen, o.facts)
    {
      s := MatchingRules(config, ruleFacts, o);
      KeptPairs(config, SeenOf(ruleFacts[..]), o);
    }

    method Accept(o: Observation) returns (n: int)
      requires Valid() && ValidObservation(o)
      modifies this, tracks, ruleFacts
      ensures Valid() && (Abs(), n) == ProcessAccepted(old(Abs()), o)
    {
      hide Valid, UpdateTracks, PersonCount, Summarize, FactSet, Ready, TimeOf, ValidObservation, WhenIdle,
        WhenAbsent, WhenPresent;
      var now := TimeOf(config, o);
      if !config.enabled {
        latestCount := Some(0);
        ClearTracks();
        ClearPendingFields();
        return 0;
      }
      var s := Summary(o);
      var count := UpdatePersons(o, now);
      var condition := if config.ruleType.Occupancy? then count > 0 else s.matches > 0;
      if active.Some? && !config.ruleType.Occupancy? { RememberSummary(s); }
      log := log + [Frame(now, condition, FactSet(config, s.facts), o, config, count)];
      if active.None? {
        n := ProcessIdle(o, s, count, condition, now);
      } else if !condition {
        n := ProcessAbsent(o, count, now);
      } else {
        n := ProcessPresent(o, s, count, now);
      }
    }

    method Switch(o: Observation) returns (n: int)
      requires Valid()
      modifies this, tracks, ruleFacts
      ensures Valid() && (Abs(), n) == SwitchChannel(old(Abs()), o)
    {
      hide Valid, ClearRuntime, EndOnLast;
      n := 0;
      if haveStream && channelId != o.channelId {
        n := EndLast(StreamReset);
        if n < 0 { return -1; }
        ClearRuntimeFields();
        haveStream, order := false, Unordered;
      }
    }

    method Advance(r: OrderResult) returns (n: int)
      requires Valid()
      modifies this, tracks, ruleFacts
      ensures Valid() && (Abs(), n) == AdvanceEpoch(old(Abs()), r)
    {
      hide Valid, ClearRuntime, EndOnLast;
      n := 0;
      if r.EpochAdvance? {
        n := EndLast(StreamReset);
        if n < 0 { return -1; }
        ClearRuntimeFields();
      }
    }

    method OnChannel(o: Observation, emitted: nat) returns (n: int)
      requires Valid() && ValidObservation(o)
      modifies this, tracks, ruleFacts
      ensures Valid() && (Abs(), n) == ProcessOnChannel(old(Abs()), o, emitted)
    {
      hide Valid, ValidObservation, AdvanceEpoch, ProcessAccepted, Classify;
      var (nextOrder, r) := Classify(order, o);
      if r.Invalid? { return -1; }
      if r.Duplicate? || r.OutOfOrder? { return emitted; }
      var ended := Advance(r);
      if ended < 0 { return -1; }
      order, haveStream, channelId, last := nextOrder, true, o.channelId, Some(o);
      var accepted := Accept(o);
      if accepted < 0 { return -1; }
      n := emitted + ended + accepted;
    }

    method ProcessObservation(o: Observation) returns (n: int)
      requires Valid()
      modifies this, tracks, ruleFacts
      ensures Valid() && (Abs(), n) == Process(old(Abs()), o)
    {
      hide Valid, ValidObservation, SwitchChannel, ProcessOnChannel;
      var ok := Validate(o);
      if !ok { return -1; }
      var emitted := Switch(o);
      if emitted < 0 { return -1; }
      n := OnChannel(o, emitted);
    }

    method CloseEngine(reason: Reason) returns (n: int)
      requires Valid()
      modifies this, tracks, ruleFacts
      ensures Valid() && (Abs(), n) == Close(old(Abs()), reason)
    {
      hide Valid, ClearRuntime, EndOnLast;
      if !ValidReason(reason) { return -1; }
      n := EndLast(reason);
      if n < 0 { return -1; }
      ClearRuntimeFields();
    }

    method ReconfigureEngine(cfg: Config, asked: nat) returns (n: int)
      requires Valid()
      modifies this, tracks, ruleFacts
      ensures Valid() && (Abs(), n) == Reconfigure(old(Abs()), cfg, asked)
    {
      hide Valid, ClearRuntime, EndOnLast, ValidConfig;
      if !ValidConfig(cfg) { return -1; }
      var next: nat := asked;
      if asked != 0 {
        if asked <= version { return -1; }
      } else {
        if version >= U64_MAX { return -1; }
        next := version + 1;
      }
      n := EndLast(if cfg.enabled then Reconfigured else AnalyticsDisabled);
      if n < 0 { return -1; }
      ClearRuntimeFields();
      config, version := cfg, next;
    }

    method DeinitEngine() returns (n: int)
      requires Valid()
      modifies this, tracks, ruleFacts
      ensures Valid() && (Abs(), n) == Deinit(old(Abs()))
    {
      hide Valid, EndOnLast, ClearRuntime;
      n := EndLast(ProcessRestart);
      if n < 0 { return -1; }
      ClearRuntimeFields();
      ForgetStream();
      config, version, sink, serial := ZeroConfig, 0, false, 0;
    }

    method ForgetStream()
      modifies this`order, this`haveStream, this`channelId, this`last
      ensures Abs() == old(Abs()).(order := Unordered, haveStream := false, channelId := "", last := None)
    {
      order, haveStream, channelId, last := Unordered, false, "", None;
    }
  }
}
