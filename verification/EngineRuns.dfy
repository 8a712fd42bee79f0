// What the good histories of EngineProofs.dfy mean: the grammar of the emitted trace,
// the timing of its phases, and the conservation of directional deltas.
module EngineRuns {
  import opened Common
  import opened EngineModel
  import opened EngineSpec
  import opened EngineTrace
  import opened EngineProofs

  lemma {:induction false} EveryItemOk(hash: string -> nat, log: Log, i: nat)
    requires GoodLog(hash, log) && i < |log|
    ensures ItemOk(hash, log[..i], log[i]) && GoodLog(hash, log[..i])
  {
    hide ItemOk;
    if i < |log| - 1 {
      EveryItemOk(hash, Front(log), i);
      assert Front(log)[..i] == log[..i];
    }
  }

  // ---------- event ids ----------

  function Digit(c: char): nat {
    if '0' <= c <= '9' then (c - '0') as nat else if 'a' <= c <= 'f' then (c - 'a') as nat + 10 else 0
  }

  function HexValue(s: string): nat {
    if s == "" then 0 else 16 * HexValue(s[..|s| - 1]) + Digit(s[|s| - 1])
  }

  function Pow16(n: nat): nat { if n == 0 then 1 else 16 * Pow16(n - 1) }

  lemma {:induction false} HexRoundTrip(n: nat, digits: nat)
    requires n < Pow16(digits)
    ensures HexValue(Hex(n, digits)) == n
  {
    if digits > 0 {
      HexRoundTrip(n / 16, digits - 1);
      var s := Hex(n, digits);
      assert s[..|s| - 1] == Hex(n / 16, digits - 1);
      DigitOf(n % 16);
    }
  }

  lemma DigitOf(k: nat)
    requires k < 16
    ensures Digit("0123456789abcdef"[k]) == k
  {
  }

  /** The lifecycle serial that an event id ends in. */
  function SerialOf(id: string): nat {
    if |id| < 16 then 0 else HexValue(id[|id| - 16..])
  }

  /** An event id gives its serial back: ids of different serials never collide. */
  lemma IdSerial(hash: nat, epoch: nat, serial: nat)
    requires serial <= U64_MAX
    ensures SerialOf(EventId(hash, epoch, serial)) == serial
  {
    var id := EventId(hash, epoch, serial);
    assert id[|id| - 16..] == Hex(serial, 16);
    assert Pow16(4) == 0x1_0000;
    assert Pow16(8) == 0x1_0000_0000;
    assert Pow16(12) == 0x1_0000_0000_0000;
    assert Pow16(16) == U64_MAX + 1;
    HexRoundTrip(serial, 16);
  }

  // ---------- the grammar of the trace ----------

  function Emissions(log: Log): seq<Event> {
    if log == [] then []
    else Emissions(Front(log)) + if Last(log).Emitted? then [Last(log).event] else []
  }

  /** Cut a trace before every START. */
  function Lives(es: seq<Event>): (ls: seq<seq<Event>>)
    ensures es != [] ==> ls != []
  {
    if es == [] then []
    else
      var (ls, e) := (Lives(es[..|es| - 1]), es[|es| - 1]);
      if e.phase.Start? || ls == [] then ls + [[e]] else ls[..|ls| - 1] + [ls[|ls| - 1] + [e]]
  }

  predicate SameLife(a: Event, b: Event) {
    && a.eventId == b.eventId && a.channelId == b.channelId && a.epoch == b.epoch && a.eventType == b.eventType
    && a.ruleId == b.ruleId && a.configVersion == b.configVersion
  }

  /** START UPDATE* or START UPDATE* END, numbered from one, with one identity. */
  predicate Lifecycle(l: seq<Event>) {
    && l != []
    && (forall i | 0 <= i < |l| ::
          && l[i].seqNo == i + 1 && (l[i].phase.Start? <==> i == 0) && (l[i].phase.End? ==> i == |l| - 1)
          && SameLife(l[0], l[i]))
    && (forall i, j | 0 <= i <= j < |l| :: l[i].frameId <= l[j].frameId)
  }

  predicate Ended(l: seq<Event>) { l != [] && l[|l| - 1].phase.End? }

  /** The trace is a sequence of lifecycles, each but perhaps the last one ended,
      and no two share an event id. */
  predicate Grammatical(es: seq<Event>) { GoodLives(Lives(es)) }

  predicate GoodLives(ls: seq<seq<Event>>) {
    && (forall i | 0 <= i < |ls| :: Lifecycle(ls[i]))
    && (forall i | 0 <= i < |ls| - 1 :: Ended(ls[i]))
    && (forall i, j | 0 <= i < j < |ls| :: ls[i][0].eventId != ls[j][0].eventId)
  }

  function Flatten(ls: seq<seq<Event>>): seq<Event> {
    if ls == [] then [] else Flatten(ls[..|ls| - 1]) + ls[|ls| - 1]
  }

  lemma LivesSnoc(es: seq<Event>, e: Event)
    ensures var ls := Lives(es);
            Lives(es + [e]) == if e.phase.Start? || ls == [] then ls + [[e]] else ls[..|ls| - 1] + [ls[|ls| - 1] + [e]]
  {
    assert (es + [e])[..|es|] == es;
  }

  /** Cutting a trace loses and reorders nothing. */
  lemma {:induction false} LivesFlatten(es: seq<Event>)
    ensures Flatten(Lives(es)) == es
  {
    if es != [] {
      var (front, e) := (es[..|es| - 1], es[|es| - 1]);
      assert es == front + [e];
      LivesFlatten(front);
      LivesSnoc(front, e);
      FlattenSnoc(Lives(front), e);
      FlattenLast(Lives(front), [e]);
      hide Lives, Flatten;
    }
  }

  lemma FlattenSnoc(ls: seq<seq<Event>>, e: Event)
    ensures ls != [] ==> Flatten(ls[..|ls| - 1] + [ls[|ls| - 1] + [e]]) == Flatten(ls) + [e]
  {
    hide Flatten;
    if ls != [] {
      Rejoin(ls);
      FlattenGrow(ls[..|ls| - 1], ls[|ls| - 1], e);
    }
  }

  lemma Rejoin(ls: seq<seq<Event>>)
    requires ls != []
    ensures ls[..|ls| - 1] + [ls[|ls| - 1]] == ls
  {
  }

  lemma FlattenGrow(front: seq<seq<Event>>, l: seq<Event>, e: Event)
    ensures Flatten(front + [l + [e]]) == Flatten(front + [l]) + [e]
  {
    hide Flatten;
    FlattenLast(front, l);
    FlattenLast(front, l + [e]);
    Regroup(Flatten(front), l, [e]);
  }

  lemma FlattenLast(ls: seq<seq<Event>>, l: seq<Event>)
    ensures Flatten(ls + [l]) == Flatten(ls) + l
  {
    assert (ls + [l])[..|ls|] == ls;
  }

  /** Good lifecycles, tied to the last emission and its serial. */
  ghost predicate LivesOk(ls: seq<seq<Event>>, last: Option<Item>)
    requires last.Some? ==> last.value.Emitted?
  {
    && GoodLives(ls) && (ls == [] <==> last.None?)
    && (ls != [] ==> ls[|ls| - 1] != [] && ls[|ls| - 1][|ls[|ls| - 1]| - 1] == last.value.event)
    && (forall i | 0 <= i < |ls| :: ls[i] != [] && SerialOf(ls[i][0].eventId) <= last.value.serial)
  }

  ghost predicate TraceOk(log: Log) { LivesOk(Lives(Emissions(log)), LastEmit(log)) }

  lemma LifecycleExtends(l: seq<Event>, e: Event)
    requires Lifecycle(l) && !Ended(l) && Follows(l[|l| - 1], e) && !e.phase.Start?
    ensures Lifecycle(l + [e])
  {
    assert SameLife(l[0], l[|l| - 1]);
  }

  lemma EmissionsSnoc(log: Log, item: Item)
    ensures Emissions(log + [item]) == Emissions(log) + if item.Emitted? then [item.event] else []
  {
    Snoc(log, item);
  }

  lemma LifeBegins(ls: seq<seq<Event>>, e: Event)
    requires GoodLives(ls) && (forall i | 0 <= i < |ls| :: Ended(ls[i]) && ls[i][0].eventId != e.eventId)
    requires e.phase.Start? && e.seqNo == 1
    ensures GoodLives(ls + [[e]])
  {
    assert Lifecycle([e]);
    var m: seq<seq<Event>> := ls + [[e]];
    hide Lifecycle;
    forall i, j | 0 <= i < j < |m| ensures m[i][0].eventId != m[j][0].eventId {
      assert m[i] == ls[i] && (j < |ls| ==> m[j] == ls[j]);
    }
  }

  lemma LifeContinues(ls: seq<seq<Event>>, e: Event)
    requires GoodLives(ls) && ls != [] && !Ended(ls[|ls| - 1]) && !e.phase.Start?
    requires var l := ls[|ls| - 1]; Follows(l[|l| - 1], e)
    ensures GoodLives(ls[..|ls| - 1] + [ls[|ls| - 1] + [e]])
  {
    LifecycleExtends(ls[|ls| - 1], e);
    assert (ls[|ls| - 1] + [e])[0] == ls[|ls| - 1][0];
    hide Lifecycle, Ended, Follows;
  }

  lemma LivesOkStart(ls: seq<seq<Event>>, last: Option<Item>, item: Item)
    requires last.Some? ==> last.value.Emitted? && last.value.event.phase.End?
    requires LivesOk(ls, last) && item.Emitted? && item.event.phase.Start? && item.event.seqNo == 1
    requires SerialOf(item.event.eventId) == item.serial && (last.Some? ==> item.serial > last.value.serial)
    ensures LivesOk(ls + [[item.event]], Some(item))
  {
    assert forall i | 0 <= i < |ls| :: Ended(ls[i]);
    hide SerialOf;
    LifeBegins(ls, item.event);
    hide GoodLives;
  }

  lemma LivesOkNext(ls: seq<seq<Event>>, last: Option<Item>, item: Item)
    requires last.Some? && last.value.Emitted? && !last.value.event.phase.End?
    requires LivesOk(ls, last) && item.Emitted? && !item.event.phase.Start?
    requires Follows(last.value.event, item.event) && item.serial == last.value.serial
    ensures LivesOk(ls[..|ls| - 1] + [ls[|ls| - 1] + [item.event]], Some(item))
  {
    hide SerialOf, Lifecycle;
    LifeContinues(ls, item.event);
    hide GoodLives, Follows;
  }

  lemma StartTrace(hash: string -> nat, log: Log, item: Item)
    requires TraceOk(log) && item.Emitted? && item.event.phase.Start?
    requires StartOk(hash, log, item.event, item.at, item.cfg, item.serial)
    ensures TraceOk(log + [item])
  {
    EmissionsSnoc(log, item);
    LivesSnoc(Emissions(log), item.event);
    Snoc(log, item);
    IdSerial(hash(item.event.channelId), item.event.epoch, item.serial);
    hide EventId, SerialOf, StartTimely, ContextOk, LivesOk, Lives, Emissions, Streak, CoolUntil, FactsBefore;
    LivesOkStart(Lives(Emissions(log)), LastEmit(log), item);
  }

  lemma NextTrace(log: Log, item: Item)
    requires TraceOk(log) && item.Emitted? && !item.event.phase.Start?
    requires NextOk(log, item.event, item.at, item.cfg, item.serial, item.natural)
    ensures TraceOk(log + [item])
  {
    EmissionsSnoc(log, item);
    LivesSnoc(Emissions(log), item.event);
    Snoc(log, item);
    assert Lives(Emissions(log)) != [];
    hide SerialOf, ContextOk, LivesOk, Lives, Emissions, Streak, AbsentFrom, NovelSince, Follows;
    LivesOkNext(Lives(Emissions(log)), LastEmit(log), item);
  }

  lemma {:induction false} GoodTrace(hash: string -> nat, log: Log)
    requires GoodLog(hash, log)
    ensures TraceOk(log)
  {
    if log != [] {
      GoodTrace(hash, Front(log));
      assert log == Front(log) + [Last(log)];
      hide TraceOk, StartOk, NextOk, FrameOk, LastEmit, Open;
      if !Last(log).Emitted? {
        SilentTrace(Front(log), Last(log));
      } else if Last(log).event.phase.Start? {
        StartTrace(hash, Front(log), Last(log));
      } else {
        NextTrace(Front(log), Last(log));
      }
    }
  }

  lemma SilentTrace(log: Log, item: Item)
    requires TraceOk(log) && !item.Emitted?
    ensures TraceOk(log + [item])
  {
    EmissionsSnoc(log, item);
    Snoc(log, item);
    assert Emissions(log) + [] == Emissions(log);
    assert LastEmit(log + [item]) == LastEmit(log);
    hide Lives, LivesOk, Emissions, LastEmit;
  }

  /** Over every run from a fresh engine, with any interleaving of calls and failures:
      the emitted events form lifecycles START UPDATE* END, numbered 1, 2, 3, ..., each with
      one identity, and no event id ever returns. */
  lemma RunGrammar(cfg: Config, version: nat, hash: string -> nat, sink: bool, calls: seq<Call>)
    requires ValidConfig(cfg)
    ensures Grammatical(Emissions(Run(Init(cfg, version, hash, sink).value, calls).log))
  {
    var c := Init(cfg, version, hash, sink).value;
    InitKeeps(cfg, version, hash, sink);
    RunGood(c, calls);
    GoodTrace(hash, Run(c, calls).log);
    hide Grammatical, GoodLog, Inv, Run;
  }

  // ---------- timing ----------

  predicate IsPhase(item: Item, p: Phase) { item.Emitted? && item.event.phase == p }

  predicate FramesBetween(log: Log, i: nat, j: nat, condition: bool)
    requires i <= j <= |log|
  {
    forall k | i <= k < j :: log[k].Frame? && log[k].condition == condition
  }

  lemma StreakSpan(log: Log, j: nat, condition: bool)
    requires j <= |log|
    ensures FramesBetween(log, j - Streak(log[..j], condition), j, condition)
  {
    StreakFrames(log[..j], condition);
    forall k | j - Streak(log[..j], condition) <= k < j ensures log[k].Frame? && log[k].condition == condition {
      assert log[..j][k] == log[k];
    }
  }

  /** Every START closes an unbroken run of frames meeting the condition that is long
      enough for confirmation, in frames or time, and for the debounce. */
  lemma StartNeedsStreak(hash: string -> nat, log: Log, j: nat) returns (i: nat)
    requires GoodLog(hash, log) && j < |log| && IsPhase(log[j], Start)
    ensures i < j && FramesBetween(log, i, j, true)
    ensures log[j - 1].Frame? && log[j - 1].now == log[j].at && log[i].Frame?
    ensures j - i >= log[j].cfg.confirmFrames || Elapsed(log[j].at, log[i].now, log[j].cfg.confirmMs * 1000)
    ensures log[j].cfg.debounceMs == 0 || log[j].at.None?
            || Elapsed(log[j].at, log[i].now, log[j].cfg.debounceMs * 1000)
  {
    assert StartTimely(log[..j], log[j].at, log[j].cfg) by { EveryItemOk(hash, log, j); hide GoodLog; }
    StreakSpan(log, j, true);
    i := j - Streak(log[..j], true);
    assert log[..j][j - 1] == log[j - 1] && log[..j][i] == log[i];
    hide GoodLog, ContextOk, FrameOk, NextOk, Streak;
  }

  /** The first START after an absence END, with nothing but frames between, waits out
      the cooldown, and cannot happen without a valid timeline. */
  lemma StartWaitsForCooldown(hash: string -> nat, log: Log, i: nat, j: nat)
    requires GoodLog(hash, log) && i < j < |log| && IsPhase(log[i], End) && log[i].natural && IsPhase(log[j], Start)
    requires log[i].at.Some? && log[i].cfg.cooldownMs > 0 && forall k | i < k < j :: log[k].Frame?
    ensures log[j].at.Some? && log[j].at.value >= AddMs(log[i].at.value, log[i].cfg.cooldownMs)
  {
    EveryItemOk(hash, log, j);
    CoolCarries(log, i, j);
    assert StartTimely(log[..j], log[j].at, log[j].cfg);
    hide GoodLog, ContextOk, FrameOk, NextOk, CoolUntil, Streak;
  }

  lemma {:induction false} CoolCarries(log: Log, i: nat, j: nat)
    requires i < j <= |log| && log[i].Emitted? && log[i].natural && log[i].at.Some? && log[i].cfg.cooldownMs > 0
    requires forall k | i < k < j :: log[k].Frame?
    ensures CoolUntil(log[..j]) == Some(AddMs(log[i].at.value, log[i].cfg.cooldownMs))
    decreases j
  {
    var l := log[..j];
    assert Last(l) == log[j - 1] && Front(l) == log[..j - 1];
    if i < j - 1 { CoolCarries(log, i, j - 1); }
  }

  lemma {:induction false} EmitCarries(log: Log, i: nat, j: nat)
    requires i < j <= |log| && log[i].Emitted? && forall k | i < k < j :: !log[k].Emitted?
    ensures LastEmit(log[..j]) == Some(log[i])
    decreases j
  {
    var l := log[..j];
    assert Last(l) == log[j - 1] && Front(l) == log[..j - 1];
    if i < j - 1 { EmitCarries(log, i, j - 1); }
  }

  /** An UPDATE keeps the update interval from the event before it, when both timelines are valid. */
  lemma UpdatesAreSpaced(hash: string -> nat, log: Log, i: nat, j: nat)
    requires GoodLog(hash, log) && i < j < |log| && log[i].Emitted? && IsPhase(log[j], Update)
    requires forall k | i < k < j :: !log[k].Emitted?
    ensures !log[i].event.phase.End?
    ensures log[i].at.Some? && log[j].at.Some? ==>
              log[j].at.value >= log[i].at.value + log[i].cfg.updateMs * 1000
  {
    EveryItemOk(hash, log, j);
    EmitCarries(log, i, j);
    assert NextOk(log[..j], log[j].event, log[j].at, log[j].cfg, log[j].serial, log[j].natural);
    hide GoodLog, ContextOk, FrameOk, StartOk, LastEmit;
  }

  /** An absence END closes an unbroken run of frames without the condition; with a grace,
      one frame of that run is at least the grace older. */
  lemma EndNeedsAbsence(hash: string -> nat, log: Log, j: nat) returns (i: nat, k: nat)
    requires GoodLog(hash, log) && j < |log| && log[j].Emitted? && log[j].natural
    ensures i <= k < j && FramesBetween(log, i, j, false)
    ensures IsPhase(log[j], End) && log[j - 1].Frame? && log[j - 1].now == log[j].at && log[k].Frame?
    ensures log[j].cfg.graceMs == 0 || Elapsed(log[j].at, log[k].now, log[j].cfg.graceMs * 1000)
  {
    EveryItemOk(hash, log, j);
    StreakSpan(log, j, false);
    i := j - Streak(log[..j], false);
    assert NextOk(log[..j], log[j].event, log[j].at, log[j].cfg, log[j].serial, true);
    assert log[..j][j - 1] == log[j - 1];
    if AbsentFrom(log[..j]).Some? {
      k := AbsentFrame(log[..j]);
      assert log[..j][k] == log[k];
    } else {
      k := j - 1;
    }
    hide GoodLog, ContextOk, FrameOk, StartOk, Streak, AbsentFrom;
  }

  lemma {:induction false} AbsentFrame(log: Log) returns (k: nat)
    requires AbsentFrom(log).Some?
    ensures |log| - Streak(log, false) <= k < |log| && log[k].Frame? && log[k].now == AbsentFrom(log)
  {
    if AbsentFrom(Front(log)).Some? {
      k := AbsentFrame(Front(log));
    } else {
      k := |log| - 1;
    }
  }

  // ---------- conservation of deltas ----------

  /** What the events of the latest lifecycle report in direction `d`. */
  function Reported(log: Log, d: Direction): nat {
    if log == [] then 0
    else if Last(log).Emitted? then
      Delta(Last(log).event, d) + if Last(log).event.phase.Start? then 0 else Reported(Front(log), d)
    else Reported(Front(log), d)
  }

  /** New facts of direction `d` in the frames of the latest lifecycle: all facts of the
      START's own frame, then those that the frame before did not have. */
  function Occurred(log: Log, d: Direction): nat {
    if log == [] then 0
    else
      match Last(log)
      case Emitted(e, _, _, _, _) =>
        if e.phase.Start? then |Novel({}, FactsBefore(Front(log)), d)| else Occurred(Front(log), d)
      case Frame(_, _, facts, _, _, _) =>
        Occurred(Front(log), d) + |Novel(FactsBefore(Front(log)), facts, d)|
      case Cleared => Occurred(Front(log), d)
  }

  /** Facts lost to a saturated accumulator between two events of the latest lifecycle. */
  function Lost(log: Log, d: Direction): nat {
    if log == [] then 0
    else if !Last(log).Emitted? then Lost(Front(log), d)
    else if Last(log).event.phase.Start? then 0
    else Lost(Front(log), d) + NovelSince(Front(log), d) - Clip(NovelSince(Front(log), d))
  }

  lemma {:induction false} Accounted(hash: string -> nat, log: Log, d: Direction)
    requires GoodLog(hash, log) && LastEmit(log).Some? && (Open(log) || Last(log).Emitted?) && !d.NoDirection?
    ensures Reported(log, d) + NovelSince(log, d) + Lost(log, d) == Occurred(log, d)
  {
    match Last(log) {
      case Emitted(e, at, cfg, serial, natural) =>
        if e.phase.Start? {
          assert StartOk(hash, Front(log), e, at, cfg, serial);
          assert StartTimely(Front(log), at, cfg);
          FactsOfLast(Front(log));
        } else {
          Accounted(hash, Front(log), d);
        }
      case _ => Accounted(hash, Front(log), d);
    }
  }

  /** A saturation happened between two events of the latest lifecycle. */
  predicate Saturated(log: Log, d: Direction) {
    log != [] && !(Last(log).Emitted? && Last(log).event.phase.Start?)
    && ((Last(log).Emitted? && NovelSince(Front(log), d) > U32_MAX) || Saturated(Front(log), d))
  }

  lemma {:induction false} LostIffSaturated(log: Log, d: Direction)
    ensures Lost(log, d) > 0 <==> Saturated(log, d)
  {
    if log != [] { LostIffSaturated(Front(log), d); }
  }

  /** When a lifecycle ends, the deltas of its START, UPDATEs and END add up to the facts
      that were new in its frames, exactly if and only if no accumulator saturated. */
  lemma DeltasConserved(hash: string -> nat, log: Log, d: Direction)
    requires GoodLog(hash, log) && log != [] && IsPhase(Last(log), End) && !d.NoDirection?
    ensures Reported(log, d) <= Occurred(log, d)
    ensures Reported(log, d) == Occurred(log, d) <==> !Saturated(log, d)
  {
    Accounted(hash, log, d);
    LostIffSaturated(log, d);
  }
}
