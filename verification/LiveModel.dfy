// Live streaming as one transition system: the encoder branch of the media engine, its
// session registry, the daemon's single-slot registry, and the handlers that join them
// over calls whose replies can be lost.
module LiveModel {
  import opened Common

  const ID_SIZE: nat := 128

  datatype Code = Ok | MediaError | ParamError | NotFound

  // ---------- the encoder branch ----------

  datatype Phase = Idle | Starting | Active | Stopping | WaitingNull | BusDrain | Destroyed | Failed

  /** How far GStreamer lets the construction of a branch get. */
  datatype Build = CreateFails | AddFails | LinkFails | PlayFails | Plays

  /** What GStreamer answers to the request for the NULL state. */
  datatype ToNull = NullFails | NullLater | NullNow

  datatype BranchEvent = Built(id: nat) | Played(id: nat) | Disposed(id: nat, from: Phase)

  /** `branch` is the bin that exists, if any; `idle` says that its destruction is queued. */
  datatype Runner = Runner(
    baseReady: bool, phase: Phase, sessionId: string, branch: Option<nat>, idle: bool, branchActive: bool,
    made: nat, log: seq<BranchEvent>)

  function NewRunner(baseReady: bool): Runner { Runner(baseReady, Idle, "", None, false, false, 0, []) }

  predicate Available(r: Runner) {
    !r.branchActive && r.branch.None? && (r.phase.Idle? || r.phase.Destroyed?)
  }

  function StartBranch(r: Runner, sid: string, codecOk: bool, o: Build): (Runner, Code) {
    if !r.baseReady || !Available(r) then (r, MediaError)
    else if !codecOk then (r, ParamError)
    else if o.CreateFails? then (r.(phase := Idle), MediaError)
    else
      var b := r.made;
      var r1 := r.(made := b + 1, log := r.log + [Built(b)]);
      if o.AddFails? then (r1.(phase := Destroyed, log := r1.log + [Disposed(b, Starting)]), MediaError)
      else if o.LinkFails? || o.PlayFails? then
        (r1.(phase := Destroyed, sessionId := "", log := r1.log + [Disposed(b, Starting)]), MediaError)
      else
        (r1.(phase := Active, sessionId := sid, branch := Some(b), branchActive := true,
             log := r1.log + [Played(b)]), Ok)
  }

  function StopBranch(r: Runner, sid: string, o: ToNull): (Runner, Code) {
    if (r.phase.Stopping? || r.phase.WaitingNull? || r.phase.BusDrain?) && r.sessionId == sid then (r, Ok)
    else if !r.branchActive || !r.phase.Active? || r.sessionId != sid then (r, NotFound)
    else
      match o
      case NullFails => (r.(phase := Failed, branchActive := false), MediaError)
      case NullLater => (r.(phase := WaitingNull, branchActive := false), Ok)
      case NullNow => (r.(phase := BusDrain, branchActive := false, idle := true), Ok)
  }

  /** The branch reports that it reached NULL. */
  function NullReached(r: Runner): Runner {
    if r.phase.WaitingNull? && r.branch.Some? then r.(phase := BusDrain, idle := true) else r
  }

  /** The queued destruction runs, once the bus has drained. */
  function DestroyIdle(r: Runner): Runner {
    if !r.idle then r
    else
      var r1 := r.(idle := false);
      if r1.branch.None? then r1.(phase := Destroyed)
      else if !r1.phase.BusDrain? then r1
      else r1.(phase := Destroyed, branch := None, sessionId := "",
               log := r1.log + [Disposed(r1.branch.value, BusDrain)])
  }

  // ---------- the media engine ----------

  /** `sessions` maps a session id to the time of its last activity. */
  datatype Engine = Engine(sessions: map<string, nat>, runner: Runner)

  /** Session ids are stored in a buffer of ID_SIZE bytes, terminator included. */
  function Stored(sid: string): string {
    if |sid| >= ID_SIZE then sid[..ID_SIZE - 1] else sid
  }

  /** `ready` says that camera and parameters pass the checks before the registry. */
  function StartSession(e: Engine, sid: string, ready: bool, now: nat, o: Build): (Engine, Code) {
    if !ready then (e, MediaError)
    else if Stored(sid) in e.sessions || e.sessions != map[] then (e, MediaError)
    else
      var (r, rc) := StartBranch(e.runner, Stored(sid), true, o);
      if !rc.Ok? then (e.(runner := r), rc)
      else (e.(runner := r, sessions := e.sessions[Stored(sid) := now]), Ok)
  }

  /** Stopping an unknown session succeeds; a branch that is already gone counts as stopped. */
  function StopSession(e: Engine, sid: string, o: ToNull): (Engine, Code) {
    if sid !in e.sessions then (e, Ok)
    else
      var (r, rc) := StopBranch(e.runner, sid, o);
      if !rc.Ok? && !rc.NotFound? then (e.(runner := r), rc)
      else (e.(runner := r, sessions := e.sessions - {sid}), Ok)
  }

  function Touch(e: Engine, sid: string, now: nat): (Engine, Code) {
    if sid in e.sessions then (e.(sessions := e.sessions[sid := now]), Ok) else (e, NotFound)
  }

  /** What the engine does on its own: bus messages, the queued destruction, lease expiry. */
  datatype Event =
    | NullMessage
    | IdleRun
    | ErrorMessage(o: ToNull)
    | EosMessage(o: ToNull)
    | LeaseExpired(sid: string, o: ToNull)

  function StopFaulty(e: Engine, o: ToNull): Engine {
    if e.runner.branchActive && e.runner.sessionId != "" then StopSession(e, e.runner.sessionId, o).0 else e
  }

  /** A lease can expire for any registered session. */
  function Happen(e: Engine, ev: Event): Engine {
    match ev
    case NullMessage => e.(runner := NullReached(e.runner))
    case IdleRun => e.(runner := DestroyIdle(e.runner))
    case ErrorMessage(o) =>
      var e1 := StopFaulty(e, o);
      e1.(runner := e1.runner.(baseReady := false))
    case EosMessage(o) => StopFaulty(e, o)
    case LeaseExpired(sid, o) => if sid in e.sessions then StopSession(e, sid, o).0 else e
  }

  function HappenAll(e: Engine, evs: seq<Event>): Engine {
    if evs == [] then e else Happen(HappenAll(e, evs[..|evs| - 1]), evs[|evs| - 1])
  }

  // ---------- the daemon's registry ----------

  datatype Hold = Pending | Held | Cleanup

  datatype Entry = Entry(hold: Hold, startedAt: Option<nat>)

  type Registry = map<string, Entry>

  function Reserve(m: Registry, callId: string): (Registry, bool) {
    if callId == "" || m != map[] then (m, false) else (m[callId := Entry(Pending, None)], true)
  }

  function Activate(m: Registry, callId: string, now: nat): (Registry, bool) {
    if callId in m && m[callId].hold.Pending? then (m[callId := Entry(Held, Some(now))], true) else (m, false)
  }

  function Cancel(m: Registry, callId: string): Registry {
    if callId in m && m[callId].hold.Pending? then m - {callId} else m
  }

  function MarkCleanup(m: Registry, callId: string): Registry {
    if callId in m then m[callId := m[callId].(hold := Cleanup)] else m
  }

  // ---------- calls between the two processes ----------

  /** What happens to one call: engine events before it, whether the request arrives,
      whether the reply does, and what GStreamer and the clock answer meanwhile. */
  datatype Fate = Fate(
    before: seq<Event>, delivered: bool, replied: bool, ready: bool, build: Build, toNull: ToNull, now: nat)

  datatype World = World(up: bool, registry: Registry, engine: Engine)

  function CallStart(e: Engine, sid: string, f: Fate): (Engine, bool) {
    var e1 := HappenAll(e, f.before);
    if !f.delivered then (e1, false)
    else
      var (e2, rc) := StartSession(e1, sid, f.ready, f.now, f.build);
      (e2, f.replied && rc.Ok?)
  }

  function CallStop(e: Engine, sid: string, f: Fate): (Engine, bool) {
    var e1 := HappenAll(e, f.before);
    if !f.delivered then (e1, false)
    else
      var (e2, rc) := StopSession(e1, sid, f.toNull);
      (e2, f.replied && rc.Ok?)
  }

  function CallTouch(e: Engine, sid: string, f: Fate): (Engine, bool) {
    var e1 := HappenAll(e, f.before);
    if !f.delivered then (e1, false)
    else
      var (e2, rc) := Touch(e1, sid, f.now);
      (e2, f.replied && rc.Ok?)
  }

  datatype Status = Unknown | NotRunning | Running(sid: string)

  /** The engine reports one registered session; with several it may be any of them. */
  ghost function StatusOf(e: Engine): Status {
    if e.sessions == map[] then NotRunning else var sid :| sid in e.sessions; Running(sid)
  }

  ghost function CallStatus(e: Engine, f: Fate): (Engine, Status) {
    var e1 := HappenAll(e, f.before);
    (e1, if f.delivered && f.replied then StatusOf(e1) else Unknown)
  }

  // ---------- the handlers, each under the media mutex ----------

  /** Before the 200 OK: release an unowned session, refuse when busy, reserve the slot. */
  ghost function PrepareInvite(w: World, callId: string, known: bool, f1: Fate, f2: Fate, f3: Fate): (World, bool) {
    if !known then (w, false)
    else
      var (e1, s1) := CallStatus(w.engine, f1);
      if s1.Unknown? then (w.(engine := e1), false)
      else if s1.Running? && s1.sid != "" && s1.sid !in w.registry then
        var (e2, ok) := CallStop(e1, s1.sid, f2);
        if !ok then (w.(engine := e2), false)
        else
          var (e3, s3) := CallStatus(e2, f3);
          ReserveWhenFree(w.(engine := e3), callId, s3)
      else ReserveWhenFree(w.(engine := e1), callId, s1)
  }

  function ReserveWhenFree(w: World, callId: string, s: Status): (World, bool) {
    if !s.NotRunning? then (w, false)
    else
      var (m, ok) := Reserve(w.registry, callId);
      (w.(registry := m), ok)
  }

  /** After the ACK: start media; when that fails in any way, stop by id before letting go. */
  function InviteAccepted(w: World, callId: string, f1: Fate, f2: Fate): (World, bool) {
    if callId !in w.registry || !w.registry[callId].hold.Pending? then (w, false)
    else
      var (e1, started) := CallStart(w.engine, callId, f1);
      if started then
        (w.(engine := e1, registry := Activate(w.registry, callId, f1.now).0), true)
      else
        var (e2, stopped) := CallStop(e1, callId, f2);
        var m := if stopped then Cancel(w.registry, callId) else MarkCleanup(w.registry, callId);
        (w.(engine := e2, registry := m), false)
  }

  function InviteFailed(w: World, callId: string): World {
    w.(registry := Cancel(w.registry, callId))
  }

  /** Stop through the controller first; keep the entry when that is not confirmed. */
  function StopOwned(w: World, callId: string, f: Fate): World {
    var (e1, stopped) := CallStop(w.engine, callId, f);
    w.(engine := e1, registry := if stopped then w.registry - {callId} else MarkCleanup(w.registry, callId))
  }

  function Bye(w: World, callId: string, f: Fate): World { StopOwned(w, callId, f) }

  /** One lease round for one held session. */
  ghost function RefreshLease(w: World, callId: string, maxLive: nat, now: nat, f1: Fate, f2: Fate): World
    requires callId in w.registry
  {
    var entry := w.registry[callId];
    if entry.hold.Cleanup? then StopOwned(w, callId, f1)
    else if entry.startedAt.None? then w
    else if now - entry.startedAt.value >= maxLive then StopOwned(w, callId, f1)
    else
      var (e1, ok) := CallTouch(w.engine, callId, f1);
      if ok then w.(engine := e1)
      else
        var (e2, s) := CallStatus(e1, f2);
        if s.NotRunning? || (s.Running? && s.sid != callId) then w.(engine := e2, registry := w.registry - {callId})
        else w.(engine := e2)
  }

  /** The daemon starts with an empty registry and releases what the engine still runs. */
  ghost function Reconcile(w: World, f1: Fate, f2: Fate): World {
    var w0 := w.(registry := map[], up := false);
    var (e1, s) := CallStatus(w.engine, f1);
    match s
    case Unknown => w0.(engine := e1)
    case NotRunning => w0.(engine := e1, up := true)
    case Running(sid) =>
      if sid == "" then w0.(engine := e1)
      else
        var (e2, stopped) := CallStop(e1, sid, f2);
        w0.(engine := e2, up := stopped)
  }

  // ---------- steps ----------

  datatype Step =
    | DoPrepare(callId: string, known: bool, f1: Fate, f2: Fate, f3: Fate)
    | DoAccepted(callId: string, f1: Fate, f2: Fate)
    | DoFailed(callId: string)
    | DoBye(callId: string, f1: Fate)
    | DoLease(callId: string, maxLive: nat, now: nat, f1: Fate, f2: Fate)
    | DoRecover(callId: string, f1: Fate)
    | DoStart(f1: Fate, f2: Fate)
    | DoShutdown(callId: string, f1: Fate)
    | DaemonDies
    | EngineEvent(ev: Event)
    | EngineRestarts(baseReady: bool)

  /** A handler runs only while the daemon is up; a restart follows a death. */
  ghost function Next(w: World, s: Step): World {
    match s
    case DoPrepare(callId, known, f1, f2, f3) => if w.up then PrepareInvite(w, callId, known, f1, f2, f3).0 else w
    case DoAccepted(callId, f1, f2) => if w.up then InviteAccepted(w, callId, f1, f2).0 else w
    case DoFailed(callId) => if w.up then InviteFailed(w, callId) else w
    case DoBye(callId, f) => if w.up then Bye(w, callId, f) else w
    case DoLease(callId, maxLive, now, f1, f2) =>
      if w.up && callId in w.registry then RefreshLease(w, callId, maxLive, now, f1, f2) else w
    case DoRecover(callId, f) => if w.up && callId in w.registry then StopOwned(w, callId, f) else w
    case DoStart(f1, f2) => if w.up then w else Reconcile(w, f1, f2)
    case DoShutdown(callId, f) =>
      World(false, map[], if w.up && callId in w.registry then CallStop(w.engine, callId, f).0 else w.engine)
    case DaemonDies => w.(up := false, registry := map[])
    case EngineEvent(ev) => w.(engine := Happen(w.engine, ev))
    case EngineRestarts(baseReady) => w.(engine := Engine(map[], NewRunner(baseReady)))
  }

  ghost function Run(w: World, steps: seq<Step>): World {
    if steps == [] then w else Next(Run(w, steps[..|steps| - 1]), steps[|steps| - 1])
  }

  function InitWorld(): World { World(false, map[], Engine(map[], NewRunner(true))) }
}
