// What a call returns is what it emitted, and an END says DISAPPEARED only when the
// engine itself found the absence or the caller closed with that reason.
module EngineLedger {
  import opened Common
  import opened EngineModel
  import opened EngineSpec
  import opened EngineTrace
  import opened EngineRuns
  import EngineProofs

  predicate OwnEnd(item: Item) {
    item.Emitted? && item.event.phase.End? ==> (item.natural <==> item.event.reason.Disappeared?)
  }

  predicate OwnEnds(log: Log) { forall i | 0 <= i < |log| :: OwnEnd(log[i]) }

  /** From history `a` to history `b`, `n` more emissions. */
  predicate Counts(sink: bool, a: Log, b: Log, n: int) {
    n >= 0 ==> |Emissions(b)| == |Emissions(a)| + if sink then n else 0
  }

  /** From `c` to `d`, `n` more emissions and, if `own` says so, no END that misstates
      whether the engine found the absence itself. */
  predicate Ledger(c: Core, d: Core, n: int, own: bool) {
    && d.sink == c.sink && Counts(c.sink, c.log, d.log, n)
    && (own && OwnEnds(c.log) ==> OwnEnds(d.log))
  }

  lemma LedgerItem(c: Core, d: Core, item: Item)
    requires d.sink == c.sink && d.log == c.log + [item] && (item.Emitted? ==> c.sink)
    ensures Ledger(c, d, if item.Emitted? then 1 else 0, OwnEnd(item))
  {
    hide OwnEnd, Emissions;
    EmissionsSnoc(c.log, item);
  }

  lemma LedgerSame(c: Core, d: Core, own: bool)
    requires d.sink == c.sink && d.log == c.log
    ensures Ledger(c, d, 0, own) && Ledger(c, d, -1, own)
  {
  }

  /** A call that fails promises nothing about the count. */
  lemma LedgerFails(c: Core, d: Core, n: int, own: bool)
    requires Ledger(c, d, n, own)
    ensures Ledger(c, d, -1, own)
  {
  }

  lemma LedgerThen(a: Core, b: Core, c: Core, m: int, n: int, own: bool)
    requires Ledger(a, b, m, own) && Ledger(b, c, n, own) && (m >= 0 || n < 0)
    ensures Ledger(a, c, if n < 0 then -1 else m + n, own)
  {
    hide OwnEnds, Emissions;
  }

  lemma EmitLedger(c: Core, e: Event, at: Time, natural: bool)
    ensures Ledger(c, Emit(c, e, at, natural), 1, e.phase.End? ==> (natural <==> e.reason.Disappeared?))
  {
    hide OwnEnds, Emissions;
    if c.sink { LedgerItem(c, Emit(c, e, at, natural), Emitted(e, at, c.cfg, c.serial, natural)); }
  }

  lemma EndLedger(c: Core, o: Observation, reason: Reason, count: nat, now: Time, cool: bool)
    ensures var (d, n) := EmitEnd(c, o, reason, count, now, cool);
            Ledger(c, d, n, cool <==> reason.Disappeared?) && (n < 0 ==> d == c)
  {
    hide Ledger;
    var (d, n) := EmitEnd(c, o, reason, count, now, cool);
    var own := cool <==> reason.Disappeared?;
    if n > 0 {
      var e := EndedEvent(c, o, reason, count);
      EmitLedger(c, e, now, cool);
      var c1 := Emit(c, e, now, cool);
      assert d.log == c1.log && d.sink == c1.sink;
      LedgerSame(c1, d, own);
      LedgerThen(c, c1, d, 1, 0, own);
    } else {
      LedgerSame(c, d, own);
    }
  }

  lemma EndOnLastLedger(c: Core, reason: Reason)
    ensures Ledger(c, EndOnLast(c, reason).0, EndOnLast(c, reason).1, !reason.Disappeared?)
  {
    hide EmitEnd, Ledger, TimeOf;
    if c.active.Some? && c.last.Some? {
      EndLedger(c, c.last.value, reason, LatestCount(c), TimeOf(c.cfg, c.last.value), false);
    } else {
      LedgerSame(c, c, !reason.Disappeared?);
    }
  }

  lemma ClearLedger(c: Core, own: bool)
    ensures Ledger(c, ClearRuntime(c), 0, own)
  {
    LedgerItem(c, ClearRuntime(c), Cleared);
  }

  lemma EndAndClearLedger(c: Core, reason: Reason)
    ensures var ((d, n), own) := (EndOnLast(c, reason), !reason.Disappeared?);
            Ledger(c, d, n, own) && (n >= 0 ==> Ledger(c, ClearRuntime(d), n, own))
  {
    hide Ledger, EndOnLast, ClearRuntime;
    var (d, n) := EndOnLast(c, reason);
    EndOnLastLedger(c, reason);
    ClearLedger(d, !reason.Disappeared?);
    if n >= 0 { LedgerThen(c, d, ClearRuntime(d), n, 0, !reason.Disappeared?); }
  }

  lemma StartLedger(c: Core, o: Observation, s: Summary, count: nat, now: Time)
    ensures Ledger(c, EmitStart(c, o, s, count, now).0, EmitStart(c, o, s, count, now).1, true)
  {
    var (d, n) := EmitStart(c, o, s, count, now);
    hide EventId, FactSet;
    if n > 0 {
      var c1 := c.(serial := d.serial, facts := d.facts, active := d.active, activeCount := count, lastEmit := now);
      EmitLedger(c1, d.active.value, now, false);
    } else {
      LedgerSame(c, d, true);
    }
  }

  lemma UpdateLedger(c: Core, o: Observation, count: nat, now: Time)
    ensures Ledger(c, MaybeEmitUpdate(c, o, count, now).0, MaybeEmitUpdate(c, o, count, now).1, true)
  {
    var (d, n) := MaybeEmitUpdate(c, o, count, now);
    if n > 0 {
      var c1 := c.(active := d.active, activeCount := count, lastEmit := now,
                   pending := NoPending.(trackIds := c.pending.trackIds));
      EmitLedger(c1, d.active.value, now, false);
    } else {
      LedgerSame(c, d, true);
    }
  }

  lemma WhenIdleLedger(c: Core, o: Observation, s: Summary, count: nat, condition: bool, now: Time)
    ensures var (d, n) := WhenIdle(c, o, s, count, condition, now); Ledger(c, d, n, true)
  {
    hide Qualified, EmitStart, Ledger;
    var c1 := UpdateTrigger(c, condition, now);
    LedgerSame(c, c1, true);
    StartLedger(c1, o, s, count, now);
    var (c2, n) := EmitStart(c1, o, s, count, now);
    LedgerSame(c2, c2.(trigger := None, absentSince := None), true);
    LedgerThen(c, c1, c2, 0, n, true);
    if n >= 0 { LedgerThen(c, c2, c2.(trigger := None, absentSince := None), n, 0, true); }
  }

  lemma WhenAbsentLedger(c: Core, o: Observation, count: nat, now: Time)
    ensures var (d, n) := WhenAbsent(c, o, count, now); Ledger(c, d, n, true)
  {
    var c1 := if c.absentSince.None? then c.(absentSince := now) else c;
    LedgerSame(c, c1, true);
    EndLedger(c1, o, Disappeared, count, now, true);
    var (d, n) := EmitEnd(c1, o, Disappeared, count, now, true);
    hide EmitEnd, Ledger;
    LedgerThen(c, c1, d, 0, n, true);
  }

  lemma WhenPresentLedger(c: Core, o: Observation, s: Summary, count: nat, now: Time)
    ensures var (d, n) := WhenPresent(c, o, s, count, now); Ledger(c, d, n, true)
  {
    var c1 := c.(absentSince := None);
    var c2 :=
      if c.cfg.ruleType.Occupancy? then
        (if count != c.activeCount then MarkUpdate(c1, count, 0, 0, [], CountChanged) else c1)
      else if s.novel > 0 then MarkUpdate(c1, count, s.deltaIn, s.deltaOut, s.trackIds, ByDirection)
      else c1;
    LedgerSame(c, c2, true);
    UpdateLedger(c2, o, count, now);
    var (d, n) := MaybeEmitUpdate(c2, o, count, now);
    hide MaybeEmitUpdate, Ledger, AddTracks;
    LedgerThen(c, c2, d, 0, n, true);
  }

  lemma AcceptedLedger(c: Core, o: Observation)
    ensures var (d, n) := ProcessAccepted(c, o); Ledger(c, d, n, true)
  {
    if !c.cfg.enabled {
      LedgerSame(c, ProcessAccepted(c, o).0, true);
    } else {
      var (f, d, s) := (EngineProofs.FrameOf(c, o), EngineProofs.Taken(c, o), Summarize(c.cfg, c.facts, o.facts));
      hide UpdateTracks, PersonCount, Summarize, TimeOf, FactSet;
      LedgerItem(c, d, f);
      WhenIdleLedger(d, o, s, f.count, f.condition, f.now);
      WhenAbsentLedger(d, o, f.count, f.now);
      WhenPresentLedger(d, o, s, f.count, f.now);
      hide WhenIdle, WhenAbsent, WhenPresent, Ledger;
      var (e, n) := ProcessAccepted(c, o);
      LedgerThen(c, d, e, 0, n, true);
    }
  }

  lemma SwitchLedger(c: Core, o: Observation)
    ensures var (d, n) := SwitchChannel(c, o); Ledger(c, d, n, true)
  {
    EndAndClearLedger(c, StreamReset);
    var (c1, n) := EndOnLast(c, StreamReset);
    var c2 := ClearRuntime(c1);
    var c3 := c2.(haveStream := false, order := Unordered);
    LedgerSame(c2, c3, true);
    LedgerSame(c, c, true);
    hide Ledger, EndOnLast;
    if n >= 0 { LedgerThen(c, c2, c3, n, 0, true); }
  }

  lemma EpochLedger(c: Core, r: OrderResult)
    ensures var (d, n) := AdvanceEpoch(c, r); Ledger(c, d, n, true)
  {
    EndAndClearLedger(c, StreamReset);
    LedgerSame(c, c, true);
    hide Ledger, EndOnLast, ClearRuntime;
  }

  lemma ProcessLedger(c: Core, o: Observation)
    ensures var (d, n) := Process(c, o); Ledger(c, d, n, true)
  {
    hide Ledger, SwitchChannel, ProcessOnChannel, ValidObservation;
    LedgerSame(c, c, true);
    SwitchLedger(c, o);
    var (c1, n1) := SwitchChannel(c, o);
    LedgerFails(c, c1, n1, true);
    if n1 >= 0 { OnChannelLedger(c, c1, o, n1); }
  }

  /** From the channel switch on: the epoch, the order, and the accepted observation. */
  lemma OnChannelLedger(c: Core, c1: Core, o: Observation, n1: int)
    requires Ledger(c, c1, n1, true) && n1 >= 0
    ensures var (d, n) := ProcessOnChannel(c1, o, n1); Ledger(c, d, n, true)
  {
    hide Ledger, AdvanceEpoch, ProcessAccepted, Classify;
    var (order, r) := Classify(c1.order, o);
    LedgerFails(c, c1, n1, true);
    EpochLedger(c1, r);
    var (c2, n2) := AdvanceEpoch(c1, r);
    LedgerThen(c, c1, c2, n1, n2, true);
    LedgerFails(c, c2, if n2 < 0 then -1 else n1 + n2, true);
    if n2 >= 0 {
      var c3 := c2.(order := order, haveStream := true, channelId := o.channelId, last := Some(o));
      LedgerSame(c2, c3, true);
      LedgerThen(c, c2, c3, n1 + n2, 0, true);
      AcceptedLedger(c3, o);
      var (c4, n4) := ProcessAccepted(c3, o);
      LedgerThen(c, c3, c4, n1 + n2, n4, true);
    }
  }

  /** With a sink, a call that succeeds has emitted exactly as many events as it returns. */
  lemma ReturnsEmissions(c: Core, call: Call)
    requires c.sink && Step(c, call).1 >= 0
    ensures |Emissions(Step(c, call).0.log)| == |Emissions(c.log)| + Step(c, call).1
  {
    hide Step, Emissions;
    StepLedger(c, call);
  }

  /** A caller says that the person disappeared, instead of leaving it to the engine. */
  predicate SaysDisappeared(call: Call) { call.DoClose? && call.reason.Disappeared? }

  lemma StepLedger(c: Core, call: Call)
    ensures var (d, n) := Step(c, call);
            Counts(c.sink, c.log, d.log, n) && (!SaysDisappeared(call) && OwnEnds(c.log) ==> OwnEnds(d.log))
  {
    hide Process, EndOnLast, OwnEnds, Emissions;
    LedgerSame(c, c, true);
    match call
    case DoProcess(o) => ProcessLedger(c, o);
    case DoClose(reason) => EndAndClearLedger(c, reason);
    case DoReconfigure(cfg, version) =>
      EndAndClearLedger(c, if cfg.enabled then Reconfigured else AnalyticsDisabled);
    case DoDeinit => EndAndClearLedger(c, ProcessRestart);
  }

  /** As long as no caller closes with that reason, every DISAPPEARED END of a run is one
      the engine found by absence, and no other END is. */
  lemma {:induction false} RunDisappearances(c: Core, calls: seq<Call>)
    requires OwnEnds(c.log) && forall i | 0 <= i < |calls| :: !SaysDisappeared(calls[i])
    ensures OwnEnds(Run(c, calls).log)
  {
    hide Step, OwnEnds;
    if calls != [] {
      RunDisappearances(c, calls[..|calls| - 1]);
      StepLedger(Run(c, calls[..|calls| - 1]), calls[|calls| - 1]);
    }
  }
}
