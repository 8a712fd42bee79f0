// The objects behind the transition system, with the fields their owners update in place.
// Every method is proved equal to its function in LiveModel.dfy.
module LiveSession {
  import opened Common
  import opened LiveModel
  import opened LiveProofs

  // ---------- the daemon's registry ----------

  class Manager {
    var live: Registry

    constructor ()
      ensures live == map[]
    {
      live := map[];
    }

    method Reserve(callId: string) returns (ok: bool)
      modifies this
      ensures (live, ok) == LiveModel.Reserve(old(live), callId)
    {
      if callId == "" || |live| != 0 { return false; }
      live := live[callId := Entry(Pending, None)];
      ok := true;
    }

    method Activate(callId: string, now: nat) returns (ok: bool)
      modifies this
      ensures (live, ok) == LiveModel.Activate(old(live), callId, now)
    {
      if callId !in live || !live[callId].hold.Pending? { return false; }
      var e := live[callId];
      e := e.(hold := Held, startedAt := Some(now));
      live := live[callId := e];
      ok := true;
    }

    method Cancel(callId: string) returns (ok: bool)
      modifies this
      ensures live == LiveModel.Cancel(old(live), callId)
      ensures ok <==> live != old(live)
    {
      if callId !in live || !live[callId].hold.Pending? { return false; }
      live := live - {callId};
      ok := true;
    }

    method MarkCleanup(callId: string) returns (ok: bool)
      modifies this
      ensures live == LiveModel.MarkCleanup(old(live), callId) && (ok <==> callId in old(live))
    {
      if callId !in live { return false; }
      live := live[callId := live[callId].(hold := Cleanup)];
      ok := true;
    }

    method Stop(callId: string) returns (ok: bool)
      modifies this
      ensures live == old(live) - {callId} && (ok <==> callId in old(live))
    {
      ok := callId in live;
      if ok { live := live - {callId}; } else { assert live - {callId} == live; }
    }

    /** A snapshot in no particular order. */
    method All() returns (out: seq<string>)
      ensures forall c :: c in out <==> c in live
      ensures |out| == |live|
    {
      out := [];
      var rest := live.Keys;
      while rest != {}
        invariant rest <= live.Keys && |out| + |rest| == |live.Keys|
        invariant forall c :: c in out <==> c in live.Keys - rest
        decreases |rest|
      {
        var c :| c in rest;
        out, rest := out + [c], rest - {c};
      }
    }
  }

  // ---------- the encoder branch ----------

  class GstRunner {
    var baseReady: bool
    var phase: LiveModel.Phase
    var sessionId: string
    var branch: Option<nat>
    var idle: bool
    var branchActive: bool
    var pads: bool
    var made: nat
    ghost var log: seq<BranchEvent>

    ghost function Abs(): Runner
      reads this
    {
      Runner(baseReady, phase, sessionId, branch, idle, branchActive, made, log)
    }

    /** The tee pad and the branch pad are held exactly while the branch is active. */
    ghost predicate Valid()
      reads this
    {
      RunnerOk(Abs()) && (pads <==> branchActive)
    }

    constructor (ready: bool)
      ensures Valid() && Abs() == NewRunner(ready)
    {
      baseReady, phase, sessionId, branch := ready, Idle, "", None;
      idle, branchActive, pads, made, log := false, false, false, 0, [];
    }

    method StartLive(sid: string, codecOk: bool, o: Build) returns (rc: Code)
      requires Valid()
      modifies this
      ensures Valid() && (Abs(), rc) == StartBranch(old(Abs()), sid, codecOk, o)
    {
      StartBranchKeeps(Abs(), sid, codecOk, o);
      hide RunnerOk;
      if !baseReady { return MediaError; }
      if branchActive || branch.Some? || (!phase.Idle? && !phase.Destroyed?) { return MediaError; }
      if !codecOk { return ParamError; }
      phase := Starting;
      if o.CreateFails? {
        phase := Idle;
        return MediaError;
      }
      rc := AttachBranch(sid, o);
    }

    /** From the created bin to playing, or back to nothing. */
    method AttachBranch(sid: string, o: Build) returns (rc: Code)
      requires branch.None? && !pads && !branchActive && !o.CreateFails?
      modifies this
      ensures (Abs(), rc) == (
        var built := old(Abs()).(made := old(made) + 1, log := old(log) + [Built(old(made))]);
        if o.Plays? then
          (built.(phase := Active, sessionId := sid, branch := Some(old(made)), branchActive := true,
                  log := built.log + [Played(old(made))]), LiveModel.Ok)
        else
          (built.(phase := Destroyed, sessionId := if o.AddFails? then old(sessionId) else "",
                  log := built.log + [Disposed(old(made), Starting)]), MediaError))
      ensures pads <==> branchActive
    {
      var b := made;
      branch, made, log := Some(b), b + 1, log + [Built(b)];
      if o.AddFails? {
        branch, phase, log := None, Destroyed, log + [Disposed(b, Starting)];
        return MediaError;
      }
      if !o.LinkFails? {
        pads, sessionId := true, sid;
        if !o.PlayFails? {
          branchActive, phase, log := true, Active, log + [Played(b)];
          return LiveModel.Ok;
        }
      }
      // undo: release the pads, take the branch out of the pipeline
      pads, sessionId := false, "";
      branch, phase, log := None, Destroyed, log + [Disposed(b, Starting)];
      rc := MediaError;
    }

    method ScheduleDestroy()
      modifies this`idle
      ensures Abs() == old(Abs()).(idle := old(idle) || phase.BusDrain?)
    {
      if !phase.BusDrain? || idle { return; }
      idle := true;
    }

    method StopLive(sid: string, o: ToNull) returns (rc: Code)
      requires Valid()
      modifies this
      ensures Valid() && (Abs(), rc) == StopBranch(old(Abs()), sid, o)
    {
      StopBranchKeeps(Abs(), sid, o);
      hide GoodBranches, LiveOf;
      if (phase.Stopping? || phase.WaitingNull? || phase.BusDrain?) && sessionId == sid { return LiveModel.Ok; }
      if !branchActive || !phase.Active? || sessionId != sid { return NotFound; }
      phase := Stopping;
      pads, branchActive := false, false;
      match o
      case NullFails =>
        phase := Failed;
        rc := MediaError;
      case NullLater =>
        phase := WaitingNull;
        rc := LiveModel.Ok;
      case NullNow =>
        phase := BusDrain;
        ScheduleDestroy();
        rc := LiveModel.Ok;
    }

    method NullMessage()
      requires Valid()
      modifies this
      ensures Valid() && Abs() == NullReached(old(Abs()))
    {
      NullReachedKeeps(Abs());
      hide GoodBranches, LiveOf;
      if phase.WaitingNull? && branch.Some? {
        phase := BusDrain;
        ScheduleDestroy();
      }
    }

    method RunIdle()
      requires Valid()
      modifies this
      ensures Valid() && Abs() == DestroyIdle(old(Abs()))
    {
      DestroyIdleKeeps(Abs());
      hide GoodBranches, LiveOf;
      if !idle { return; }
      idle := false;
      assert branch.Some? && phase.BusDrain?; // the refusals of the callback never apply
      log := log + [Disposed(branch.value, BusDrain)];
      branch, phase, sessionId := None, Destroyed, "";
    }
  }

  // ---------- the engine's registry ----------

  class SessionMgr {
    var sessions: map<string, nat>
    const runner: GstRunner

    ghost function Abs(): Engine
      reads this, runner
    {
      Engine(sessions, runner.Abs())
    }

    ghost predicate Valid()
      reads this, runner
    {
      runner.Valid() && EngineOk(Abs())
    }

    constructor (ready: bool)
      ensures Valid() && fresh(runner) && Abs() == Engine(map[], NewRunner(ready))
    {
      sessions := map[];
      runner := new GstRunner(ready);
    }

    method Start(sid: string, ready: bool, now: nat, o: Build) returns (rc: Code)
      requires Valid()
      modifies this, runner
      ensures Valid() && (Abs(), rc) == StartSession(old(Abs()), sid, ready, now, o)
    {
      StartSessionKeeps(Abs(), sid, ready, now, o);
      hide EngineOk, StartBranch, RunnerOk;
      if !ready { return MediaError; }
      if Stored(sid) in sessions { return MediaError; }
      if |sessions| > 0 { return MediaError; }
      rc := runner.StartLive(Stored(sid), true, o);
      if !rc.Ok? { return rc; }
      sessions := sessions[Stored(sid) := now];
    }

    method Stop(sid: string, o: ToNull) returns (rc: Code)
      requires Valid()
      modifies this, runner
      ensures Valid() && (Abs(), rc) == StopSession(old(Abs()), sid, o)
    {
      StopSessionKeeps(Abs(), sid, o);
      hide EngineOk, StopBranch, RunnerOk;
      if sid !in sessions { return LiveModel.Ok; }
      rc := runner.StopLive(sid, o);
      if !rc.Ok? && !rc.NotFound? { return rc; }
      sessions := sessions - {sid};
      rc := LiveModel.Ok;
    }

    method Touch(sid: string, now: nat) returns (rc: Code)
      requires Valid()
      modifies this
      ensures Valid() && (Abs(), rc) == LiveModel.Touch(old(Abs()), sid, now)
    {
      hide RunnerOk;
      if sid !in sessions { return NotFound; }
      sessions := sessions[sid := now];
      rc := LiveModel.Ok;
    }

    /** Expired exactly when the registered session was not refreshed for the timeout. */
    method Expired(now: nat, timeout: int) returns (sid: Option<string>)
      requires Valid()
      ensures sid.Some? <==> timeout > 0 && exists s :: s in sessions && now - sessions[s] >= timeout
      ensures sid.Some? ==> sid.value in sessions
    {
      hide RunnerOk;
      if timeout <= 0 || |sessions| == 0 { return None; }
      assert sessions.Keys != {};
      var s :| s in sessions.Keys;
      if now - sessions[s] < timeout { return None; }
      sid := Some(s);
    }

    method StopFault(o: ToNull)
      requires Valid()
      modifies this, runner
      ensures Valid() && Abs() == StopFaulty(old(Abs()), o)
    {
      hide EngineOk, StopSession, RunnerOk;
      if runner.branchActive && runner.sessionId != "" { var rc := Stop(runner.sessionId, o); }
    }

    method HandleEvent(ev: Event)
      requires Valid()
      modifies this, runner
      ensures Valid() && Abs() == Happen(old(Abs()), ev)
    {
      HappenKeeps(Abs(), ev);
      hide GoodBranches, LiveOf, StopSession;
      match ev
      case NullMessage => runner.NullMessage();
      case IdleRun => runner.RunIdle();
      case ErrorMessage(o) =>
        StopFault(o);
        runner.baseReady := false;
      case EosMessage(o) => StopFault(o);
      case LeaseExpired(sid, o) => if sid in sessions { var rc := Stop(sid, o); }
    }

    method HandleEvents(evs: seq<Event>)
      requires Valid()
      modifies this, runner
      ensures Valid() && Abs() == HappenAll(old(Abs()), evs)
    {
      hide Valid, Happen;
      var i := 0;
      while i < |evs|
        invariant 0 <= i <= |evs| && Valid() && Abs() == HappenAll(old(Abs()), evs[..i])
      {
        HandleEvent(evs[i]);
        assert evs[..i + 1][..i] == evs[..i];
        i := i + 1;
      }
      assert evs[..i] == evs;
    }

    /** The one registered session, if there is one. */
    method GetStatus() returns (s: Status)
      requires Valid()
      ensures s == StatusOf(Abs())
    {
      hide RunnerOk;
      if |sessions| == 0 { return NotRunning; }
      assert sessions.Keys != {};
      var sid :| sid in sessions.Keys;
      s := Running(sid);
    }
  }

  // ---------- the handlers ----------

  class App {
    const sessions: Manager
    const media: SessionMgr
    var up: bool

    ghost function Abs(): World
      reads this, sessions, media, media.runner
    {
      World(up, sessions.live, media.Abs())
    }

    /** Holds whatever callers do; what Owned adds holds under the conditions of LiveProofs. */
    ghost predicate Valid()
      reads this, sessions, media, media.runner
    {
      media.Valid() && forall s, t | s in sessions.live && t in sessions.live :: s == t
    }

    constructor (sessions: Manager, media: SessionMgr)
      requires media.Valid() && sessions.live == map[]
      ensures Valid() && this.sessions == sessions && this.media == media
      ensures Abs() == World(false, map[], media.Abs())
    {
      this.sessions, this.media, this.up := sessions, media, false;
    }

    method StartLive(sid: string, f: Fate) returns (ok: bool)
      requires media.Valid()
      modifies media, media.runner
      ensures media.Valid() && (media.Abs(), ok) == CallStart(old(media.Abs()), sid, f)
    {
      hide media.Valid, HappenAll, StartSession;
      media.HandleEvents(f.before);
      if !f.delivered { return false; }
      var rc := media.Start(sid, f.ready, f.now, f.build);
      ok := f.replied && rc.Ok?;
    }

    method StopLive(sid: string, f: Fate) returns (ok: bool)
      requires media.Valid()
      modifies media, media.runner
      ensures media.Valid() && (media.Abs(), ok) == CallStop(old(media.Abs()), sid, f)
    {
      hide media.Valid, HappenAll, StopSession;
      media.HandleEvents(f.before);
      if !f.delivered { return false; }
      var rc := media.Stop(sid, f.toNull);
      ok := f.replied && rc.Ok?;
    }

    method Keepalive(sid: string, f: Fate) returns (ok: bool)
      requires media.Valid()
      modifies media, media.runner
      ensures media.Valid() && (media.Abs(), ok) == CallTouch(old(media.Abs()), sid, f)
    {
      hide media.Valid, HappenAll, Touch;
      media.HandleEvents(f.before);
      if !f.delivered { return false; }
      var rc := media.Touch(sid, f.now);
      ok := f.replied && rc.Ok?;
    }

    method GetStatus(f: Fate) returns (s: Status)
      requires media.Valid()
      modifies media, media.runner
      ensures media.Valid() && (media.Abs(), s) == CallStatus(old(media.Abs()), f)
    {
      hide media.Valid, HappenAll, StatusOf;
      media.HandleEvents(f.before);
      s := media.GetStatus();
      if !f.delivered || !f.replied { s := Unknown; }
    }

    method Prepare(callId: string, known: bool, f1: Fate, f2: Fate, f3: Fate) returns (ok: bool)
      requires Valid()
      modifies sessions, media, media.runner
      ensures Valid() && (Abs(), ok) == PrepareInvite(old(Abs()), callId, known, f1, f2, f3)
    {
      hide media.Valid, CallStatus, CallStop;
      if !known { return false; }
      var status := GetStatus(f1);
      if status.Unknown? { return false; }
      if status.Running? && status.sid != "" && status.sid !in sessions.live {
        var stopped := StopLive(status.sid, f2);
        if !stopped { return false; }
        status := GetStatus(f3);
        if status.Unknown? { return false; }
      }
      if status.Running? { return false; }
      ok := sessions.Reserve(callId);
    }

    method Accepted(callId: string, f1: Fate, f2: Fate) returns (ok: bool)
      requires Valid()
      modifies sessions, media, media.runner
      ensures Valid() && (Abs(), ok) == InviteAccepted(old(Abs()), callId, f1, f2)
    {
      hide media.Valid, CallStart, CallStop;
      if callId !in sessions.live || !sessions.live[callId].hold.Pending? { return false; }
      var started := StartLive(callId, f1);
      if !started {
        var stopped := StopLive(callId, f2);
        if !stopped {
          var marked := sessions.MarkCleanup(callId);
        } else {
          var cancelled := sessions.Cancel(callId);
        }
        return false;
      }
      ok := sessions.Activate(callId, f1.now);
    }

    method Failed(callId: string)
      requires Valid()
      modifies sessions
      ensures Valid() && Abs() == LiveModel.InviteFailed(old(Abs()), callId)
    {
      hide media.Valid;
      var cancelled := sessions.Cancel(callId);
    }

    method Bye(callId: string, f: Fate)
      requires Valid()
      modifies sessions, media, media.runner
      ensures Valid() && Abs() == LiveModel.Bye(old(Abs()), callId, f)
    {
      hide media.Valid, CallStop;
      var stopped := StopLive(callId, f);
      if !stopped {
        var marked := sessions.MarkCleanup(callId);
      } else {
        var was := sessions.Stop(callId);
      }
    }

    /** Recovery: stop everything that is registered, which is at most one call. */
    method StopOwnedMedia(f: Fate)
      requires Valid()
      modifies sessions, media, media.runner
      ensures Valid()
      ensures old(sessions.live) == map[] ==> Abs() == old(Abs())
      ensures forall c | c in old(sessions.live) :: Abs() == StopOwned(old(Abs()), c, f)
    {
      hide media.Valid, CallStop;
      var all := sessions.All();
      SingleEntry(sessions.live, all);
      var i := 0;
      while i < |all|
        invariant 0 <= i <= |all| && Valid()
        invariant Abs() == if i == 0 then old(Abs()) else StopOwned(old(Abs()), all[0], f)
      {
        Bye(all[i], f);
        i := i + 1;
      }
    }

    method LeaseRound(maxLive: nat, now: nat, f1: Fate, f2: Fate)
      requires Valid()
      modifies sessions, media, media.runner
      ensures Valid()
      ensures old(sessions.live) == map[] ==> Abs() == old(Abs())
      ensures forall c | c in old(sessions.live) :: Abs() == RefreshLease(old(Abs()), c, maxLive, now, f1, f2)
    {
      hide media.Valid, RefreshLease;
      var all := sessions.All();
      SingleEntry(sessions.live, all);
      var i := 0;
      while i < |all|
        invariant 0 <= i <= |all| && Valid()
        invariant Abs() == if i == 0 then old(Abs()) else RefreshLease(old(Abs()), all[0], maxLive, now, f1, f2)
      {
        RefreshOne(all[i], maxLive, now, f1, f2);
        i := i + 1;
      }
    }

    method RefreshOne(callId: string, maxLive: nat, now: nat, f1: Fate, f2: Fate)
      requires Valid() && callId in sessions.live
      modifies sessions, media, media.runner
      ensures Valid() && Abs() == RefreshLease(old(Abs()), callId, maxLive, now, f1, f2)
    {
      hide media.Valid, CallStop, CallTouch, CallStatus;
      var e := sessions.live[callId];
      if e.hold.Cleanup? {
        StopOwnedMedia(f1);
        return;
      }
      if e.startedAt.None? { return; }
      if now - e.startedAt.value >= maxLive {
        StopOwnedMedia(f1);
        return;
      }
      var ok := Keepalive(callId, f1);
      if ok { return; }
      var status := GetStatus(f2);
      if status.NotRunning? || (status.Running? && status.sid != callId) {
        var was := sessions.Stop(callId);
      }
    }

    /** Before registration: release what a former daemon left running, or refuse to come up. */
    method ReconcileMedia(f1: Fate, f2: Fate)
      requires Valid() && sessions.live == map[] && !up
      modifies this, media, media.runner
      ensures Valid() && Abs() == Reconcile(old(Abs()), f1, f2)
    {
      hide media.Valid, CallStop, CallStatus;
      var status := GetStatus(f1);
      if status.Unknown? { return; }
      if status.NotRunning? {
        up := true;
        return;
      }
      if status.sid == "" { return; }
      var stopped := StopLive(status.sid, f2);
      up := stopped;
    }
  }

  lemma SingleEntry(m: Registry, all: seq<string>)
    requires (forall s, t | s in m && t in m :: s == t) && (forall c :: c in all <==> c in m) && |all| == |m|
    ensures |all| == 0 <==> m == map[]
    ensures |all| <= 1 && forall c | c in m :: all == [c]
  {
    if m != map[] {
      var c :| c in m;
      assert m.Keys == {c};
      assert all[0] in m;
    }
  }
}
