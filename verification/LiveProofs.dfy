// Over every run: the engine's registry agrees with its branch, each branch is disposed of
// once, and whatever the engine runs the daemon holds, however many replies are lost.
module LiveProofs {
  import opened Common
  import opened LiveModel

  // ---------- the life of a branch ----------

  /** The branch that exists after a history, and whether it ever played. */
  function LiveOf(log: seq<BranchEvent>): Option<(nat, bool)> {
    if log == [] then None
    else
      match log[|log| - 1]
      case Built(id) => Some((id, false))
      case Played(id) => Some((id, true))
      case Disposed(_, _) => None
  }

  /** A branch is built only when none exists, under a new id; one that played is disposed
      of from BUS_DRAIN only, and one that never did from its own failed start. */
  predicate GoodBranches(log: seq<BranchEvent>, made: nat) {
    if log == [] then made == 0
    else
      var front := log[..|log| - 1];
      match log[|log| - 1]
      case Built(id) => made == id + 1 && GoodBranches(front, id) && LiveOf(front).None?
      case Played(id) => GoodBranches(front, made) && LiveOf(front) == Some((id, false))
      case Disposed(id, from) =>
        && GoodBranches(front, made) && LiveOf(front).Some? && LiveOf(front).value.0 == id
        && from == if LiveOf(front).value.1 then BusDrain else Starting
  }

  predicate IsDisposed(e: BranchEvent, id: nat) { e.Disposed? && e.id == id }

  lemma {:induction false} LiveIsNew(log: seq<BranchEvent>, made: nat, i: nat)
    requires GoodBranches(log, made) && i < |log|
    ensures LiveOf(log).Some? ==> LiveOf(log).value.0 < made && !IsDisposed(log[i], LiveOf(log).value.0)
    ensures log[i].id < made
    decreases |log|
  {
    var front := log[..|log| - 1];
    var m := if log[|log| - 1].Built? then log[|log| - 1].id else made;
    if i < |front| {
      LiveIsNew(front, m, i);
      assert front[i] == log[i];
    }
    if front != [] { LiveIsNew(front, m, |front| - 1); }
  }

  /** No branch is ever disposed of twice. */
  lemma {:induction false} DisposedOnce(log: seq<BranchEvent>, made: nat, i: nat, j: nat)
    requires GoodBranches(log, made) && i < j < |log| && log[i].Disposed? && log[j].Disposed?
    ensures log[i].id != log[j].id
    decreases |log|
  {
    var front := log[..|log| - 1];
    assert front[i] == log[i];
    if j < |log| - 1 {
      assert front[j] == log[j];
      DisposedOnce(front, if log[|log| - 1].Built? then log[|log| - 1].id else made, i, j);
    } else {
      LiveIsNew(front, made, i);
    }
  }

  lemma BranchSnoc(log: seq<BranchEvent>, e: BranchEvent)
    ensures (log + [e])[..|log|] == log && (log + [e])[|log|] == e
  {
  }

  // ---------- registry and branch ----------

  ghost predicate RunnerOk(r: Runner) {
    && !r.phase.Starting? && !r.phase.Stopping?
    && (r.branchActive <==> r.phase.Active?) && (r.idle <==> r.phase.BusDrain?)
    && (r.branch.Some? <==> r.phase.Active? || r.phase.WaitingNull? || r.phase.BusDrain? || r.phase.Failed?)
    && GoodBranches(r.log, r.made)
    && LiveOf(r.log) == (if r.branch.Some? then Some((r.branch.value, true)) else None)
  }

  /** At most one session is registered, its branch is ACTIVE or FAILED under the same id,
      and an active branch is registered. */
  ghost predicate EngineOk(e: Engine) {
    && RunnerOk(e.runner)
    && (forall s, t | s in e.sessions && t in e.sessions :: s == t)
    && (forall s | s in e.sessions :: e.runner.sessionId == s && (e.runner.phase.Active? || e.runner.phase.Failed?))
    && (e.runner.phase.Active? ==> e.runner.sessionId in e.sessions)
  }

  lemma StartBranchKeeps(r: Runner, sid: string, codecOk: bool, o: Build)
    requires RunnerOk(r)
    ensures var (r1, rc) := StartBranch(r, sid, codecOk, o);
            && RunnerOk(r1) && (rc.Ok? ==> r1.phase.Active? && r1.sessionId == sid)
            && (!rc.Ok? ==> r1.phase.Active? == r.phase.Active? && r1.phase.Failed? == r.phase.Failed?
                            && (if r.branch.Some? then r1 == r else r1.branch.None?))
  {
    if r.baseReady && Available(r) && codecOk && !o.CreateFails? {
      var l1 := r.log + [Built(r.made)];
      BranchSnoc(r.log, Built(r.made));
      BranchSnoc(l1, Disposed(r.made, Starting));
      BranchSnoc(l1, Played(r.made));
      assert GoodBranches(l1, r.made + 1);
      assert GoodBranches(l1 + [Disposed(r.made, Starting)], r.made + 1);
      assert GoodBranches(l1 + [Played(r.made)], r.made + 1);
      hide GoodBranches;
    }
  }

  lemma StopBranchKeeps(r: Runner, sid: string, o: ToNull)
    requires RunnerOk(r)
    ensures RunnerOk(StopBranch(r, sid, o).0)
  {
    hide GoodBranches, LiveOf;
  }

  lemma NullReachedKeeps(r: Runner)
    requires RunnerOk(r)
    ensures RunnerOk(NullReached(r))
  {
    hide GoodBranches, LiveOf;
  }

  lemma DestroyIdleKeeps(r: Runner)
    requires RunnerOk(r)
    ensures RunnerOk(DestroyIdle(r))
    ensures r.idle ==> r.branch.Some? && DestroyIdle(r).branch.None? // the queued destruction is never refused
  {
    if r.idle {
      var e := Disposed(r.branch.value, BusDrain);
      BranchSnoc(r.log, e);
      assert GoodBranches(r.log + [e], r.made);
      hide GoodBranches;
    }
  }

  lemma StartSessionKeeps(e: Engine, sid: string, ready: bool, now: nat, o: Build)
    requires EngineOk(e)
    ensures var (e1, rc) := StartSession(e, sid, ready, now, o);
            && EngineOk(e1)
            && (if rc.Ok? then e.sessions == map[] && e1.sessions.Keys == {Stored(sid)} else e1.sessions == e.sessions)
  {
    StartBranchKeeps(e.runner, Stored(sid), true, o);
    hide RunnerOk, StartBranch, Stored;
  }

  lemma StopSessionKeeps(e: Engine, sid: string, o: ToNull)
    requires EngineOk(e)
    ensures var (e1, rc) := StopSession(e, sid, o);
            && EngineOk(e1) && e1.sessions.Keys <= e.sessions.Keys && (rc.Ok? ==> sid !in e1.sessions)
            && (!rc.Ok? ==> e1.sessions == e.sessions && sid in e.sessions && e1.runner.phase.Failed?)
  {
    StopBranchKeeps(e.runner, sid, o);
    hide RunnerOk;
  }

  lemma HappenKeeps(e: Engine, ev: Event)
    requires EngineOk(e)
    ensures EngineOk(Happen(e, ev)) && Happen(e, ev).sessions.Keys <= e.sessions.Keys
  {
    NullReachedKeeps(e.runner);
    DestroyIdleKeeps(e.runner);
    match ev
    case ErrorMessage(o) =>
      StopSessionKeeps(e, e.runner.sessionId, o);
      hide StopSession, GoodBranches, LiveOf;
    case EosMessage(o) => StopSessionKeeps(e, e.runner.sessionId, o); hide StopSession, GoodBranches, LiveOf;
    case LeaseExpired(sid, o) => StopSessionKeeps(e, sid, o); hide StopSession;
    case _ => hide GoodBranches, LiveOf, RunnerOk;
  }

  lemma {:induction false} HappenAllKeeps(e: Engine, evs: seq<Event>)
    requires EngineOk(e)
    ensures EngineOk(HappenAll(e, evs)) && HappenAll(e, evs).sessions.Keys <= e.sessions.Keys
  {
    if evs != [] {
      HappenAllKeeps(e, evs[..|evs| - 1]);
      HappenKeeps(HappenAll(e, evs[..|evs| - 1]), evs[|evs| - 1]);
      hide Happen, EngineOk;
    }
  }

  lemma FailedRefuses(e: Engine, sid: string, ready: bool, now: nat, o: Build)
    requires EngineOk(e) && e.runner.phase.Failed?
    ensures !StartSession(e, sid, ready, now, o).1.Ok?
    ensures StartSession(e, sid, ready, now, o).0 == e
  {
  }

  lemma FailedStays(e: Engine, sid: string, o: ToNull, ev: Event)
    requires EngineOk(e) && e.runner.phase.Failed?
    ensures StopSession(e, sid, o).0.runner.phase.Failed? && Happen(e, ev).runner.phase.Failed?
    ensures StopSession(e, sid, o).1.Ok? // and the registry lets go of it at the next stop
  {
    hide GoodBranches, LiveOf;
  }

  // ---------- calls ----------

  lemma CallStopKeeps(e: Engine, sid: string, f: Fate)
    requires EngineOk(e)
    ensures var (e1, ok) := CallStop(e, sid, f);
            EngineOk(e1) && e1.sessions.Keys <= e.sessions.Keys && (ok ==> sid !in e1.sessions)
  {
    HappenAllKeeps(e, f.before);
    StopSessionKeeps(HappenAll(e, f.before), sid, f.toNull);
    hide HappenAll, StopSession, EngineOk;
  }

  lemma CallStartKeeps(e: Engine, sid: string, f: Fate)
    requires EngineOk(e)
    ensures var (e1, ok) := CallStart(e, sid, f);
            && EngineOk(e1) && e1.sessions.Keys <= e.sessions.Keys + {Stored(sid)}
            && (ok ==> e1.sessions.Keys == {Stored(sid)})
  {
    HappenAllKeeps(e, f.before);
    StartSessionKeeps(HappenAll(e, f.before), sid, f.ready, f.now, f.build);
    hide HappenAll, StartSession, EngineOk, Stored;
  }

  lemma CallTouchKeeps(e: Engine, sid: string, f: Fate)
    requires EngineOk(e)
    ensures EngineOk(CallTouch(e, sid, f).0) && CallTouch(e, sid, f).0.sessions.Keys <= e.sessions.Keys
  {
    HappenAllKeeps(e, f.before);
    hide HappenAll, RunnerOk;
  }

  lemma CallStatusKeeps(e: Engine, f: Fate)
    requires EngineOk(e)
    ensures var (e1, s) := CallStatus(e, f);
            && EngineOk(e1) && e1.sessions.Keys <= e.sessions.Keys
            && (s.NotRunning? ==> e1.sessions == map[]) && (s.Running? ==> e1.sessions.Keys == {s.sid})
  {
    HappenAllKeeps(e, f.before);
    hide HappenAll, RunnerOk;
  }

  // ---------- who owns what runs ----------

  predicate Holds(m: Registry, sid: string) { sid in m && !m[sid].hold.Pending? }

  /** With the mutex free: at most one call is registered, and whatever the engine runs is
      held by the daemon as active or for cleanup. */
  ghost predicate Owned(w: World) {
    && EngineOk(w.engine)
    && (forall s, t | s in w.registry && t in w.registry :: s == t)
    && (w.up ==> forall s | s in w.engine.sessions :: Holds(w.registry, s))
    && (!w.up ==> w.registry == map[])
  }

  lemma PrepareOwned(w: World, callId: string, known: bool, f1: Fate, f2: Fate, f3: Fate)
    requires Owned(w) && w.up
    ensures Owned(PrepareInvite(w, callId, known, f1, f2, f3).0)
    ensures PrepareInvite(w, callId, known, f1, f2, f3).1 ==>
              PrepareInvite(w, callId, known, f1, f2, f3).0.engine.sessions == map[]
  {
    if known {
      CallStatusKeeps(w.engine, f1);
      var (e1, s1) := CallStatus(w.engine, f1);
      if s1.Running? {
        CallStopKeeps(e1, s1.sid, f2);
        CallStatusKeeps(CallStop(e1, s1.sid, f2).0, f3);
      }
      hide CallStatus, CallStop, EngineOk;
    }
  }

  lemma AcceptedOwned(w: World, callId: string, f1: Fate, f2: Fate)
    requires Owned(w) && w.up && |callId| < ID_SIZE
    ensures Owned(InviteAccepted(w, callId, f1, f2).0)
  {
    CallStartKeeps(w.engine, callId, f1);
    CallStopKeeps(CallStart(w.engine, callId, f1).0, callId, f2);
    hide CallStart, CallStop, EngineOk;
  }

  lemma StopOwnedKeeps(w: World, callId: string, f: Fate)
    requires Owned(w) && w.up
    ensures Owned(StopOwned(w, callId, f)) && StopOwned(w, callId, f).engine.sessions.Keys <= w.engine.sessions.Keys
  {
    CallStopKeeps(w.engine, callId, f);
    hide CallStop, EngineOk;
  }

  lemma LeaseOwned(w: World, callId: string, maxLive: nat, now: nat, f1: Fate, f2: Fate)
    requires Owned(w) && w.up && callId in w.registry
    ensures Owned(RefreshLease(w, callId, maxLive, now, f1, f2))
    ensures RefreshLease(w, callId, maxLive, now, f1, f2).engine.sessions.Keys <= w.engine.sessions.Keys
  {
    StopOwnedKeeps(w, callId, f1);
    CallTouchKeeps(w.engine, callId, f1);
    CallStatusKeeps(CallTouch(w.engine, callId, f1).0, f2);
    hide StopOwned, CallTouch, CallStatus, EngineOk;
  }

  lemma ReconcileOwned(w: World, f1: Fate, f2: Fate)
    requires EngineOk(w.engine)
    ensures Owned(Reconcile(w, f1, f2)) && Reconcile(w, f1, f2).engine.sessions.Keys <= w.engine.sessions.Keys
  {
    CallStatusKeeps(w.engine, f1);
    var (e1, s) := CallStatus(w.engine, f1);
    if s.Running? { CallStopKeeps(e1, s.sid, f2); }
    hide CallStatus, CallStop, EngineOk;
  }

  /** Call-IDs that fit the engine's buffer, wherever media may start. */
  predicate Fits(s: Step) { s.DoAccepted? ==> |s.callId| < ID_SIZE }

  lemma StepOwned(w: World, s: Step)
    requires Owned(w) && Fits(s)
    ensures Owned(Next(w, s))
  {
    match s
    case DoPrepare(callId, known, f1, f2, f3) =>
      if w.up { PrepareOwned(w, callId, known, f1, f2, f3); }
      hide Owned, PrepareInvite;
    case DoAccepted(callId, f1, f2) =>
      if w.up { AcceptedOwned(w, callId, f1, f2); }
      hide Owned, InviteAccepted;
    case DoBye(callId, f) =>
      if w.up { StopOwnedKeeps(w, callId, f); }
      hide Owned, StopOwned;
    case DoLease(callId, maxLive, now, f1, f2) =>
      if w.up && callId in w.registry { LeaseOwned(w, callId, maxLive, now, f1, f2); }
      hide Owned, RefreshLease;
    case DoRecover(callId, f) =>
      if w.up { StopOwnedKeeps(w, callId, f); }
      hide Owned, StopOwned;
    case DoStart(f1, f2) =>
      ReconcileOwned(w, f1, f2);
      hide EngineOk, Reconcile;
    case DoShutdown(callId, f) =>
      CallStopKeeps(w.engine, callId, f);
      hide EngineOk, CallStop;
    case EngineEvent(ev) =>
      HappenKeeps(w.engine, ev);
      hide EngineOk, Happen;
    case _ => hide GoodBranches, LiveOf;
  }

  /** No orphan stream, over every run: lost requests, lost replies, engine faults, lease
      expiry and restarts of either side included. */
  lemma {:induction false} RunOwned(w: World, steps: seq<Step>)
    requires Owned(w) && forall i | 0 <= i < |steps| :: Fits(steps[i])
    ensures Owned(Run(w, steps))
  {
    if steps != [] {
      RunOwned(w, steps[..|steps| - 1]);
      StepOwned(Run(w, steps[..|steps| - 1]), steps[|steps| - 1]);
      hide Owned, Next;
    }
  }

  lemma InitOwned()
    ensures Owned(InitWorld())
  {
  }

  /** So from a fresh start of both sides, at every moment: at most one call, and nothing
      runs that the daemon does not hold. */
  lemma FreshRunOwned(steps: seq<Step>, n: nat)
    requires n <= |steps| && forall i | 0 <= i < |steps| :: Fits(steps[i])
    ensures var w := Run(InitWorld(), steps[..n]);
            && |w.engine.sessions| <= 1
            && (w.up ==> forall s | s in w.engine.sessions :: Holds(w.registry, s))
  {
    hide Run, InitWorld;
    InitOwned();
    assert forall i | 0 <= i < |steps[..n]| :: steps[..n][i] == steps[i];
    RunOwned(InitWorld(), steps[..n]);
    OneSession(Run(InitWorld(), steps[..n]).engine);
  }

  lemma OneSession(e: Engine)
    requires EngineOk(e)
    ensures |e.sessions| <= 1
  {
    hide RunnerOk;
    if sid :| sid in e.sessions {
      assert e.sessions.Keys == {sid};
      assert |e.sessions| == |e.sessions.Keys|;
    }
  }

  // ---------- a branch that failed to stop ----------

  ghost predicate Broken(e: Engine) { EngineOk(e) && e.runner.phase.Failed? }

  /** `e1` is as broken as `e`, with no session added. */
  ghost predicate StaysBroken(e: Engine, e1: Engine) {
    Broken(e1) && e1.sessions.Keys <= e.sessions.Keys
  }

  lemma {:induction false} BrokenHappens(e: Engine, evs: seq<Event>)
    requires Broken(e)
    ensures StaysBroken(e, HappenAll(e, evs))
  {
    hide Happen, EngineOk;
    if evs != [] {
      var e1 := HappenAll(e, evs[..|evs| - 1]);
      BrokenHappens(e, evs[..|evs| - 1]);
      FailedStays(e1, "", NullNow, evs[|evs| - 1]);
      HappenKeeps(e1, evs[|evs| - 1]);
    }
  }

  lemma BrokenCalls(e: Engine, sid: string, f: Fate)
    requires Broken(e)
    ensures StaysBroken(e, CallStart(e, sid, f).0) && !CallStart(e, sid, f).1
    ensures StaysBroken(e, CallStop(e, sid, f).0)
    ensures StaysBroken(e, CallTouch(e, sid, f).0)
    ensures StaysBroken(e, CallStatus(e, f).0)
  {
    hide HappenAll, StartSession, StopSession, EngineOk, StatusOf;
    var e1 := HappenAll(e, f.before);
    BrokenHappens(e, f.before);
    FailedRefuses(e1, sid, f.ready, f.now, f.build);
    FailedStays(e1, sid, f.toNull, NullMessage);
    StopSessionKeeps(e1, sid, f.toNull);
    BrokenTouch(e1, sid, f.now);
  }

  lemma BrokenTouch(e: Engine, sid: string, now: nat)
    requires Broken(e)
    ensures StaysBroken(e, Touch(e, sid, now).0)
  {
    hide RunnerOk;
  }

  lemma BrokenPrepare(w: World, callId: string, known: bool, f1: Fate, f2: Fate, f3: Fate)
    requires Broken(w.engine)
    ensures StaysBroken(w.engine, PrepareInvite(w, callId, known, f1, f2, f3).0.engine)
  {
    hide Broken, CallStatus, CallStop;
    if known {
      BrokenCalls(w.engine, "", f1);
      var (e1, s1) := CallStatus(w.engine, f1);
      if s1.Running? {
        BrokenCalls(e1, s1.sid, f2);
        BrokenCalls(CallStop(e1, s1.sid, f2).0, "", f3);
      }
    } else {
      BrokenSame(w.engine);
    }
  }

  lemma BrokenSame(e: Engine)
    requires Broken(e)
    ensures StaysBroken(e, e)
  {
    hide Broken;
  }

  lemma BrokenAccepted(w: World, callId: string, f1: Fate, f2: Fate)
    requires Broken(w.engine)
    ensures StaysBroken(w.engine, InviteAccepted(w, callId, f1, f2).0.engine)
  {
    hide Broken, CallStart, CallStop;
    BrokenSame(w.engine);
    BrokenCalls(w.engine, callId, f1);
    BrokenCalls(CallStart(w.engine, callId, f1).0, callId, f2);
  }

  lemma BrokenStop(w: World, callId: string, f: Fate)
    requires Broken(w.engine)
    ensures StaysBroken(w.engine, StopOwned(w, callId, f).engine)
  {
    hide Broken, CallStop;
    BrokenCalls(w.engine, callId, f);
  }

  lemma BrokenLease(w: World, callId: string, maxLive: nat, now: nat, f1: Fate, f2: Fate)
    requires Broken(w.engine) && callId in w.registry
    ensures StaysBroken(w.engine, RefreshLease(w, callId, maxLive, now, f1, f2).engine)
  {
    hide Broken, CallTouch, CallStatus, StopOwned;
    BrokenSame(w.engine);
    BrokenStop(w, callId, f1);
    BrokenCalls(w.engine, callId, f1);
    BrokenCalls(CallTouch(w.engine, callId, f1).0, callId, f2);
  }

  lemma BrokenReconcile(w: World, f1: Fate, f2: Fate)
    requires Broken(w.engine)
    ensures StaysBroken(w.engine, Reconcile(w, f1, f2).engine)
  {
    hide Broken, CallStatus, CallStop;
    BrokenCalls(w.engine, "", f1);
    var (e1, s) := CallStatus(w.engine, f1);
    if s.Running? { BrokenCalls(e1, s.sid, f2); }
  }

  lemma StepBroken(w: World, s: Step)
    requires Broken(w.engine) && !s.EngineRestarts?
    ensures StaysBroken(w.engine, Next(w, s).engine)
  {
    hide Broken, PrepareInvite, InviteAccepted, StopOwned, RefreshLease, Reconcile, CallStop, Happen;
    BrokenSame(w.engine);
    match s
    case DoPrepare(callId, known, f1, f2, f3) => BrokenPrepare(w, callId, known, f1, f2, f3);
    case DoAccepted(callId, f1, f2) => BrokenAccepted(w, callId, f1, f2);
    case DoBye(callId, f) => BrokenStop(w, callId, f);
    case DoLease(callId, maxLive, now, f1, f2) =>
      if callId in w.registry { BrokenLease(w, callId, maxLive, now, f1, f2); }
    case DoRecover(callId, f) => BrokenStop(w, callId, f);
    case DoStart(f1, f2) => BrokenReconcile(w, f1, f2);
    case DoShutdown(callId, f) => BrokenCalls(w.engine, callId, f);
    case EngineEvent(ev) => BrokenHappens(w.engine, [ev]); OneHappens(w.engine, ev);
    case _ =>
  }

  lemma OneHappens(e: Engine, ev: Event)
    ensures HappenAll(e, [ev]) == Happen(e, ev)
  {
    assert [ev][..0] == [];
  }

  /** A branch that failed to reach NULL is the engine's last: over every run until the
      engine restarts, whatever the daemon, the network and the lease timer do, the branch
      stays FAILED and no session is added. */
  lemma {:induction false} FailedIsFinal(w: World, steps: seq<Step>)
    requires EngineOk(w.engine) && w.engine.runner.phase.Failed?
    requires forall i | 0 <= i < |steps| :: !steps[i].EngineRestarts?
    ensures var w1 := Run(w, steps);
            && EngineOk(w1.engine) && w1.engine.runner.phase.Failed?
            && w1.engine.sessions.Keys <= w.engine.sessions.Keys
  {
    hide EngineOk, Next;
    if steps != [] {
      var w1 := Run(w, steps[..|steps| - 1]);
      FailedIsFinal(w, steps[..|steps| - 1]);
      StepBroken(w1, steps[|steps| - 1]);
    }
  }

  // ---------- a BYE before the ACK ----------

  /** The call neither runs nor can start without a new reservation. */
  ghost predicate Cancelled(w: World, callId: string) {
    callId !in w.engine.sessions && (callId in w.registry ==> !w.registry[callId].hold.Pending?)
  }

  predicate Reserves(s: Step, callId: string) { s.DoPrepare? && s.callId == callId }

  /** A BYE for a call that is still pending cancels it, whatever happens to the stop call. */
  lemma ByeCancels(w: World, callId: string, f: Fate)
    requires Owned(w) && w.up && callId in w.registry && w.registry[callId].hold.Pending?
    ensures Cancelled(Bye(w, callId, f), callId)
  {
    CallStopKeeps(w.engine, callId, f);
    hide CallStop, EngineOk;
  }

  lemma StepCancelled(w: World, s: Step, callId: string)
    requires Owned(w) && Fits(s) && Cancelled(w, callId) && !Reserves(s, callId)
    ensures Cancelled(Next(w, s), callId)
  {
    hide CallStatus, CallStop, EngineOk, CallStart, RefreshLease;
    match s
    case DoPrepare(c, known, f1, f2, f3) =>
      if w.up && known {
        CallStatusKeeps(w.engine, f1);
        var (e1, s1) := CallStatus(w.engine, f1);
        if s1.Running? {
          CallStopKeeps(e1, s1.sid, f2);
          CallStatusKeeps(CallStop(e1, s1.sid, f2).0, f3);
        }
      }
    case DoAccepted(c, f1, f2) =>
      CallStartKeeps(w.engine, c, f1);
      CallStopKeeps(CallStart(w.engine, c, f1).0, c, f2);
    case DoBye(c, f) => CallStopKeeps(w.engine, c, f); hide CallStop, EngineOk;
    case DoLease(c, maxLive, now, f1, f2) =>
      if w.up && c in w.registry {
        LeaseOwned(w, c, maxLive, now, f1, f2);
        LeaseHolds(w, c, maxLive, now, f1, f2, callId);
      }
    case DoRecover(c, f) => CallStopKeeps(w.engine, c, f); hide CallStop, EngineOk;
    case DoStart(f1, f2) =>
      ReconcileOwned(w, f1, f2);
    case DoShutdown(c, f) => CallStopKeeps(w.engine, c, f); hide EngineOk, CallStop;
    case EngineEvent(ev) => HappenKeeps(w.engine, ev); hide EngineOk, Happen;
    case _ => hide EngineOk;
  }

  /** A lease round adds no entry and makes none pending. */
  lemma LeaseHolds(w: World, c: string, maxLive: nat, now: nat, f1: Fate, f2: Fate, callId: string)
    requires c in w.registry && (callId in w.registry ==> !w.registry[callId].hold.Pending?)
    ensures var m := RefreshLease(w, c, maxLive, now, f1, f2).registry; callId in m ==> !m[callId].hold.Pending?
  {
    hide CallStop, CallTouch, CallStatus;
  }

  /** After a BYE that overtook the ACK, media never starts for that call again, until the
      call is reserved anew. */
  lemma {:induction false} ByePreventsStart(w: World, callId: string, f: Fate, steps: seq<Step>)
    requires Owned(w) && w.up && callId in w.registry && w.registry[callId].hold.Pending?
    requires forall i | 0 <= i < |steps| :: Fits(steps[i]) && !Reserves(steps[i], callId)
    ensures Owned(Run(Bye(w, callId, f), steps)) && callId !in Run(Bye(w, callId, f), steps).engine.sessions
    ensures Cancelled(Run(Bye(w, callId, f), steps), callId)
  {
    if steps == [] {
      ByeCancels(w, callId, f);
      StopOwnedKeeps(w, callId, f);
    } else {
      var front := steps[..|steps| - 1];
      ByePreventsStart(w, callId, f, front);
      StepOwned(Run(Bye(w, callId, f), front), steps[|steps| - 1]);
      StepCancelled(Run(Bye(w, callId, f), front), steps[|steps| - 1], callId);
      hide Owned, Next, Bye;
    }
  }

  // ---------- Call-IDs that do not fit ----------

  predicate IsPending(w: World, callId: string) { callId in w.registry && w.registry[callId].hold.Pending? }

  /** Whatever becomes of the start request, its reply and the stop that follows a failure, what
      runs is then held by the daemon exactly when the Call-ID fits the engine's session id
      buffer or nothing runs. A stop does not help an id that does not fit: the engine knows
      no session by it and reports success. */
  lemma StartOwnedIff(w: World, callId: string, f1: Fate, f2: Fate)
    requires Owned(w) && w.up
    ensures var w1 := InviteAccepted(w, callId, f1, f2).0;
            Owned(w1) <==> !IsPending(w, callId) || |callId| < ID_SIZE || w1.engine.sessions == map[]
  {
    if IsPending(w, callId) {
      if |callId| < ID_SIZE { AcceptedOwned(w, callId, f1, f2); } else { LongIdStart(w, callId, f1, f2); }
    }
  }

  lemma LongIdStart(w: World, callId: string, f1: Fate, f2: Fate)
    requires Owned(w) && w.up && IsPending(w, callId) && |callId| >= ID_SIZE
    ensures var w1 := InviteAccepted(w, callId, f1, f2).0; Owned(w1) <==> w1.engine.sessions == map[]
  {
    hide CallStart, CallStop, EngineOk;
    assert w.engine.sessions == map[] by { assert forall s | s in w.registry :: s == callId; }
    CallStartKeeps(w.engine, callId, f1);
    CallStopKeeps(CallStart(w.engine, callId, f1).0, callId, f2);
    var w1 := InviteAccepted(w, callId, f1, f2).0;
    assert w1.engine.sessions.Keys <= {Stored(callId)} && Stored(callId) != callId;
    assert forall s | s in w1.registry :: s == callId;
  }

  const SMOOTH := Fate([], true, true, true, Plays, NullNow, 0)

  /** For every Call-ID that does not fit, a plain INVITE, ACK and BYE leave the engine
      streaming a session that the daemon no longer knows. */
  lemma LongIdOrphans(callId: string)
    requires |callId| >= ID_SIZE
    ensures var w := Run(InitWorld(), [DoStart(SMOOTH, SMOOTH), DoPrepare(callId, true, SMOOTH, SMOOTH, SMOOTH),
                                       DoAccepted(callId, SMOOTH, SMOOTH), DoBye(callId, SMOOTH)]);
            w.up && w.registry == map[] && w.engine.sessions.Keys == {callId[..ID_SIZE - 1]}
  {
    var a, b, c, d := DoStart(SMOOTH, SMOOTH), DoPrepare(callId, true, SMOOTH, SMOOTH, SMOOTH),
                      DoAccepted(callId, SMOOTH, SMOOTH), DoBye(callId, SMOOTH);
    var w0 := InitWorld();
    var w1 := Next(w0, a);
    assert w1 == World(true, map[], w0.engine);
    var w2 := Next(w1, b);
    assert w2 == World(true, map[callId := Entry(Pending, None)], w0.engine);
    var w3 := Next(w2, c);
    assert w3.up && w3.registry.Keys == {callId} && w3.engine.sessions.Keys == {callId[..ID_SIZE - 1]};
    var w4 := Next(w3, d);
    assert w4.registry == map[] && w4.engine == w3.engine;
    RunFour(w0, a, b, c, d);
  }

  lemma RunFour(w: World, a: Step, b: Step, c: Step, d: Step)
    ensures Run(w, [a, b, c, d]) == Next(Next(Next(Next(w, a), b), c), d)
  {
    hide Next;
    assert [a, b, c, d][..3] == [a, b, c] && [a, b, c][..2] == [a, b] && [a, b][..1] == [a] && [a][..0] == [];
    assert Run(w, [a]) == Next(w, a);
    assert Run(w, [a, b]) == Next(Run(w, [a]), b);
    assert Run(w, [a, b, c]) == Next(Run(w, [a, b]), c);
  }
}
