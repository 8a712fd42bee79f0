// Buffers lent to the detector: the frame table, the callbacks that share it, and the
// accounting of every reference taken, whatever the interleaving.
module FrameTable {
  import opened Common

  const U32_MAX: nat := 0xFFFF_FFFF

  /** `buffer` numbers the reference that was taken for the frame. */
  datatype Frame = Frame(buffer: nat, fd: int, epoch: nat, channel: string, detected: bool)

  /** Where a sample callback stands between its critical sections. */
  datatype Stage = Entered | InPush(id: nat) | Dropping(buffer: nat) | Leaving

  datatype Shutdown = NotStarted | Waiting(safe: bool) | Quiet(safe: bool) | Drained | Freed | Abandoned

  /** `taken` counts references taken; `releases` are those a release callback holds after
      its critical section; `unrefs` is the history of references dropped. */
  datatype Table = Table(
    frames: map<nat, Frame>, pending: nat, active: nat, nextId: nat, stopping: bool, epoch: nat, channel: string,
    samples: map<nat, Stage>, releases: set<nat>, taken: nat, unrefs: seq<nat>, shutdown: Shutdown)

  function NewTable(): Table {
    Table(map[], 0, 0, 0, false, 1, "camera", map[], {}, 0, [], NotStarted)
  }

  datatype Step =
    | SampleEnters(t: nat)
    | SampleRejected(t: nat)
    | SampleTaken(t: nat, fd: int, found: Option<nat>)
    | PushReturns(t: nat, success: bool)
    | SampleDrops(t: nat)
    | SampleLeaves(t: nat)
    | Released(id: nat, fd: int, plain: bool)
    | ReleaseDrops(buffer: nat)
    | Detected(id: nat)
    | StreamSet(channel: string, epoch: nat)
    | FreeBegins
    | FreeSeesCallbacks
    | FreeSeesFrames(finished: bool)
    | FreeEnds(released: bool)

  predicate At(t: Table, thread: nat, s: Stage) { thread in t.samples && t.samples[thread] == s }

  predicate FreeId(t: Table, id: nat) { 1 <= id <= U32_MAX && id !in t.frames }

  function Minus(n: nat): nat { if n > 0 then n - 1 else n }

  function Next(t: Table, s: Step): Table {
    match s
    case SampleEnters(thread) =>
      if t.stopping || thread in t.samples then t
      else t.(active := t.active + 1, samples := t.samples[thread := Entered])
    case SampleRejected(thread) => if At(t, thread, Entered) then t.(samples := t.samples[thread := Leaving]) else t
    case SampleTaken(thread, fd, id) =>
      if !At(t, thread, Entered) then t
      else if t.stopping || id.None? || !FreeId(t, id.value) then t.(samples := t.samples[thread := Leaving])
      else
        t.(frames := t.frames[id.value := Frame(t.taken, fd, t.epoch, t.channel, false)], pending := t.pending + 1,
           nextId := id.value, taken := t.taken + 1, samples := t.samples[thread := InPush(id.value)])
    case PushReturns(thread, success) =>
      if thread !in t.samples || !t.samples[thread].InPush? then t
      else
        var id := t.samples[thread].id;
        if !success && id in t.frames && !t.frames[id].detected then
          t.(frames := t.frames - {id}, pending := Minus(t.pending),
             samples := t.samples[thread := Dropping(t.frames[id].buffer)])
        else t.(samples := t.samples[thread := Leaving])
    case SampleDrops(thread) =>
      if thread in t.samples && t.samples[thread].Dropping? then
        t.(unrefs := t.unrefs + [t.samples[thread].buffer], samples := t.samples[thread := Leaving])
      else t
    case SampleLeaves(thread) =>
      if At(t, thread, Leaving) then t.(samples := t.samples - {thread}, active := Minus(t.active)) else t
    case Released(id, fd, plain) =>
      if id in t.frames && t.frames[id].fd == fd && plain then
        t.(frames := t.frames - {id}, pending := Minus(t.pending), releases := t.releases + {t.frames[id].buffer})
      else t
    case ReleaseDrops(buffer) =>
      if buffer in t.releases then t.(releases := t.releases - {buffer}, unrefs := t.unrefs + [buffer]) else t
    case Detected(id) => if id in t.frames then t.(frames := t.frames[id := t.frames[id].(detected := true)]) else t
    case StreamSet(channel, epoch) =>
      t.(channel := if channel == "" then "camera" else channel, epoch := if epoch == 0 then 1 else epoch)
    case FreeBegins => if t.shutdown.NotStarted? then t.(stopping := true, shutdown := Waiting(true)) else t
    case FreeSeesCallbacks => if t.shutdown.Waiting? then t.(shutdown := Quiet(t.active == 0)) else t
    case FreeSeesFrames(finished) =>
      if t.shutdown.Quiet? then
        t.(shutdown := if finished && t.pending == 0 && t.shutdown.safe then Drained else Abandoned)
      else t
    case FreeEnds(released) =>
      if t.shutdown.Drained? then t.(shutdown := if released then Freed else Abandoned) else t
  }

  function Run(t: Table, steps: seq<Step>): Table {
    if steps == [] then t else Next(Run(t, steps[..|steps| - 1]), steps[|steps| - 1])
  }

  // ---------- where a reference is ----------

  predicate InTable(t: Table, b: nat) { exists id :: id in t.frames && t.frames[id].buffer == b }

  predicate InHand(t: Table, b: nat) { exists s :: s in t.samples && t.samples[s] == Dropping(b) }

  /** Frame ids are distinct, nonzero 32-bit values with distinct references. */
  ghost predicate FramesOk(t: Table) {
    && (forall id | id in t.frames :: 1 <= id <= U32_MAX && t.frames[id].buffer < t.taken)
    && (forall i, j | i in t.frames && j in t.frames && t.frames[i].buffer == t.frames[j].buffer :: i == j)
  }

  ghost predicate HandsOk(t: Table) {
    && (forall s | s in t.samples && t.samples[s].Dropping? ::
          var b := t.samples[s].buffer; b < t.taken && !InTable(t, b) && b !in t.releases && b !in t.unrefs)
    && (forall s, u | s in t.samples && u in t.samples && t.samples[s].Dropping? && t.samples[s] == t.samples[u] ::
          s == u)
  }

  ghost predicate GoneOk(t: Table) {
    && (forall b | b in t.releases :: b < t.taken && !InTable(t, b) && b !in t.unrefs)
    && (forall i | 0 <= i < |t.unrefs| :: t.unrefs[i] < t.taken && !InTable(t, t.unrefs[i]))
    && (forall i, j | 0 <= i < j < |t.unrefs| :: t.unrefs[i] != t.unrefs[j])
  }

  ghost predicate Complete(t: Table) {
    forall b: nat | b < t.taken :: InTable(t, b) || InHand(t, b) || b in t.releases || b in t.unrefs
  }

  ghost predicate ShutdownOk(t: Table) {
    && (!t.shutdown.NotStarted? ==> t.stopping)
    && (t.shutdown.Quiet? && t.shutdown.safe ==> t.samples == map[])
    && (t.shutdown.Drained? || t.shutdown.Freed? ==> t.samples == map[] && t.frames == map[])
  }

  /** Every reference taken is in exactly one place: the table, one callback's hands, or
      dropped once. The counters agree with the table. */
  ghost predicate Inv(t: Table) {
    && t.pending == |t.frames| && t.active == |t.samples|
    && FramesOk(t) && HandsOk(t) && GoneOk(t) && Complete(t) && ShutdownOk(t)
  }

  // ---------- every step keeps it ----------

  /** What entering a frame changes. */
  lemma TakeShape(t: Table, thread: nat, fd: int, id: nat)
    requires At(t, thread, Entered) && !t.stopping && FreeId(t, id)
    ensures var d := Next(t, SampleTaken(thread, fd, Some(id)));
            && 1 <= id <= U32_MAX && id !in t.frames && id in d.frames && d.frames[id].buffer == t.taken
            && d == t.(frames := t.frames[id := d.frames[id]], samples := t.samples[thread := InPush(id)],
                       taken := t.taken + 1, pending := t.pending + 1, nextId := id)
            && thread in t.samples && !t.samples[thread].Dropping?
  {
  }

  lemma TakeCounts(t: Table, d: Table, thread: nat, id: nat)
    requires t.pending == |t.frames| && t.active == |t.samples| && id !in t.frames && thread in t.samples
    requires id in d.frames && thread in d.samples
    requires d.frames == t.frames[id := d.frames[id]] && d.samples == t.samples[thread := d.samples[thread]]
    requires d.pending == t.pending + 1 && d.active == t.active
    ensures d.pending == |d.frames| && d.active == |d.samples|
  {
    assert d.frames.Keys == t.frames.Keys + {id} && d.samples.Keys == t.samples.Keys;
  }

  lemma TakeFrames(t: Table, d: Table, id: nat)
    requires FramesOk(t) && 1 <= id <= U32_MAX && id !in t.frames
    requires id in d.frames && d.frames == t.frames[id := d.frames[id]] && d.frames[id].buffer == t.taken
    requires d.taken == t.taken + 1
    ensures FramesOk(d)
  {
  }

  lemma TakeKeeps(t: Table, thread: nat, fd: int, id: nat)
    requires Inv(t) && At(t, thread, Entered) && !t.stopping && FreeId(t, id)
    ensures Inv(Next(t, SampleTaken(thread, fd, Some(id))))
  {
    hide Next, InTable, InHand, HandsOk, GoneOk, Complete, FramesOk, At, FreeId;
    var d := Next(t, SampleTaken(thread, fd, Some(id)));
    TakeShape(t, thread, fd, id);
    TakeCounts(t, d, thread, id);
    TakeFrames(t, d, id);
    FrameEnters(t, d, id);
    HandsOther(t, d, thread);
    TakeRest(t, d, thread);
  }

  lemma TakeRest(t: Table, d: Table, thread: nat)
    requires HandsOk(t) && GoneOk(t) && Complete(t)
    requires forall b: nat :: InTable(d, b) <==> InTable(t, b) || b == t.taken
    requires forall b: nat | InHand(t, b) :: InHand(d, b)
    requires thread in t.samples && thread in d.samples && !d.samples[thread].Dropping?
    requires d.samples == t.samples[thread := d.samples[thread]]
    requires d.taken == t.taken + 1 && d.releases == t.releases && d.unrefs == t.unrefs
    ensures HandsOk(d) && GoneOk(d) && Complete(d)
  {
    hide InTable, InHand;
    assert HandsOk(d) by { hide GoneOk, Complete; }
    assert GoneOk(d) by { hide HandsOk, Complete; }
    assert Complete(d) by { hide HandsOk, GoneOk; }
  }

  /** Adding one frame adds exactly its reference to the table. */
  lemma FrameEnters(t: Table, d: Table, id: nat)
    requires id !in t.frames && id in d.frames && d.frames == t.frames[id := d.frames[id]]
    ensures forall b: nat :: InTable(d, b) <==> InTable(t, b) || b == d.frames[id].buffer
  {
    forall b: nat ensures InTable(d, b) <==> InTable(t, b) || b == d.frames[id].buffer {
      if InTable(t, b) {
        var i :| i in t.frames && t.frames[i].buffer == b;
        assert d.frames[i].buffer == b;
      }
      if b == d.frames[id].buffer { assert d.frames[id].buffer == b; }
    }
  }

  /** Changing one thread that drops nothing loses no hand. */
  lemma HandsOther(t: Table, d: Table, thread: nat)
    requires forall s | s in t.samples && s != thread :: s in d.samples && d.samples[s] == t.samples[s]
    requires thread in t.samples ==> !t.samples[thread].Dropping?
    ensures forall b: nat | InHand(t, b) :: InHand(d, b)
  {
    forall b: nat | InHand(t, b) ensures InHand(d, b) {
      var s :| s in t.samples && t.samples[s] == Dropping(b);
      assert d.samples[s] == Dropping(b);
    }
  }

  /** Removing one frame takes exactly its reference out of the table. */
  lemma FrameLeaves(t: Table, d: Table, id: nat)
    requires FramesOk(t) && id in t.frames && d.frames == t.frames - {id}
    ensures forall b: nat :: InTable(d, b) <==> InTable(t, b) && b != t.frames[id].buffer
    ensures |d.frames| == |t.frames| - 1
  {
    assert d.frames.Keys == t.frames.Keys - {id};
    forall b: nat ensures InTable(d, b) <==> InTable(t, b) && b != t.frames[id].buffer {
      if InTable(t, b) && b != t.frames[id].buffer {
        var i :| i in t.frames && t.frames[i].buffer == b;
        assert i in d.frames && d.frames[i].buffer == b;
      }
      if InTable(d, b) {
        var i :| i in d.frames && d.frames[i].buffer == b;
        assert i in t.frames && t.frames[i].buffer == b;
      }
    }
  }

  lemma PushFailedKeeps(t: Table, thread: nat)
    requires Inv(t) && thread in t.samples && t.samples[thread].InPush?
    requires t.samples[thread].id in t.frames && !t.frames[t.samples[thread].id].detected
    ensures Inv(Next(t, PushReturns(thread, false)))
  {
    var id := t.samples[thread].id;
    var d := Next(t, PushReturns(thread, false));
    assert InTable(t, t.frames[id].buffer);
    FrameLeaves(t, d, id);
    HandsOther(t, d, thread);
    assert d.samples.Keys == t.samples.Keys;
    assert InHand(d, t.frames[id].buffer) by { assert d.samples[thread] == Dropping(t.frames[id].buffer); }
    hide InTable, InHand;
  }

  lemma ReleasedShape(t: Table, id: nat, fd: int)
    requires id in t.frames && t.frames[id].fd == fd && t.pending == |t.frames|
    ensures var d := Next(t, Released(id, fd, true));
            && d.frames == t.frames - {id} && d.releases == t.releases + {t.frames[id].buffer}
            && d == t.(frames := d.frames, releases := d.releases, pending := d.pending) && d.pending == |d.frames|
  {
    assert (t.frames - {id}).Keys == t.frames.Keys - {id};
  }

  lemma SameHands(t: Table, d: Table)
    requires d.samples == t.samples
    ensures forall b: nat :: InHand(t, b) <==> InHand(d, b)
  {
  }

  lemma ReleasedRest(t: Table, d: Table, b: nat)
    requires HandsOk(t) && GoneOk(t) && Complete(t) && InTable(t, b) && b < t.taken
    requires forall c: nat :: InTable(d, c) <==> InTable(t, c) && c != b
    requires forall c: nat :: InHand(t, c) <==> InHand(d, c)
    requires d == t.(frames := d.frames, releases := t.releases + {b}, pending := d.pending)
    ensures HandsOk(d) && GoneOk(d) && Complete(d)
  {
    hide InTable, InHand;
  }

  lemma ReleasedKeeps(t: Table, id: nat, fd: int)
    requires Inv(t) && id in t.frames && t.frames[id].fd == fd
    ensures Inv(Next(t, Released(id, fd, true)))
  {
    hide Next, HandsOk, GoneOk, Complete, InHand;
    var d := Next(t, Released(id, fd, true));
    assert InTable(t, t.frames[id].buffer);
    hide InTable;
    ReleasedShape(t, id, fd);
    FrameLeaves(t, d, id);
    SameHands(t, d);
    ReleasedRest(t, d, t.frames[id].buffer);
  }

  lemma DropKeeps(t: Table, thread: nat)
    requires Inv(t) && thread in t.samples && t.samples[thread].Dropping?
    ensures Inv(Next(t, SampleDrops(thread)))
  {
    var d := Next(t, SampleDrops(thread));
    var b := t.samples[thread].buffer;
    assert d.samples.Keys == t.samples.Keys;
    assert forall c: nat :: InTable(d, c) <==> InTable(t, c);
    forall c: nat | InHand(t, c) && c != b ensures InHand(d, c) {
      var s :| s in t.samples && t.samples[s] == Dropping(c);
      assert d.samples[s] == Dropping(c);
    }
    assert d.unrefs[|t.unrefs|] == b;
    assert forall c | c in t.unrefs :: c in d.unrefs;
    hide InTable, InHand;
  }

  lemma ReleaseDropKeeps(t: Table, b: nat)
    requires Inv(t) && b in t.releases
    ensures Inv(Next(t, ReleaseDrops(b)))
  {
    var d := Next(t, ReleaseDrops(b));
    assert forall c: nat :: InTable(d, c) <==> InTable(t, c);
    assert forall c: nat :: InHand(d, c) <==> InHand(t, c);
    assert d.unrefs[|t.unrefs|] == b;
    assert forall c | c in t.unrefs :: c in d.unrefs;
    hide InTable, InHand;
  }

  /** A thread that drops nothing moves between stages, enters or leaves. */
  lemma StageKeeps(t: Table, d: Table, thread: nat)
    requires Inv(t) && (thread in t.samples ==> !t.samples[thread].Dropping?)
    requires d == t.(samples := d.samples, active := d.active) && d.active == |d.samples|
    requires forall s | s in t.samples && s != thread :: s in d.samples && d.samples[s] == t.samples[s]
    requires forall s | s in d.samples && s != thread :: s in t.samples && d.samples[s] == t.samples[s]
    requires thread in d.samples ==> !d.samples[thread].Dropping?
    requires d.samples != map[] ==> t.samples != map[] || !t.stopping
    ensures Inv(d)
  {
    HandsOther(t, d, thread);
    assert forall c: nat :: InTable(d, c) <==> InTable(t, c);
    hide InTable, InHand;
  }

  lemma DetectedKeeps(t: Table, id: nat)
    requires Inv(t) && id in t.frames
    ensures Inv(Next(t, Detected(id)))
  {
    var d := Next(t, Detected(id));
    assert d.frames.Keys == t.frames.Keys;
    assert forall c: nat :: InHand(d, c) <==> InHand(t, c);
    forall c: nat ensures InTable(d, c) <==> InTable(t, c) {
      if InTable(t, c) {
        var i :| i in t.frames && t.frames[i].buffer == c;
        assert d.frames[i].buffer == c;
      }
    }
    hide InTable, InHand;
  }

  /** Steps that touch neither table nor references. */
  lemma OutsideKeeps(t: Table, d: Table)
    requires Inv(t) && d == t.(stopping := d.stopping, epoch := d.epoch, channel := d.channel, shutdown := d.shutdown)
    requires ShutdownOk(d)
    ensures Inv(d)
  {
    assert forall c: nat :: InTable(d, c) <==> InTable(t, c);
    assert forall c: nat :: InHand(d, c) <==> InHand(t, c);
    hide InTable, InHand;
  }

  lemma EntersShape(t: Table, thread: nat)
    requires t.active == |t.samples|
    ensures var d := Next(t, SampleEnters(thread));
            if t.stopping || thread in t.samples then d == t
            else d == t.(samples := t.samples[thread := Entered], active := d.active) && d.active == |d.samples|
  {
    assert t.samples[thread := Entered].Keys == t.samples.Keys + {thread};
  }

  lemma EntersKeeps(t: Table, thread: nat)
    requires Inv(t)
    ensures Inv(Next(t, SampleEnters(thread)))
  {
    hide Next, FramesOk, HandsOk, GoneOk, Complete, ShutdownOk;
    EntersShape(t, thread);
    if thread !in t.samples && !t.stopping { StageKeeps(t, Next(t, SampleEnters(thread)), thread); }
  }

  lemma LeavesKeeps(t: Table, thread: nat)
    requires Inv(t)
    ensures Inv(Next(t, SampleLeaves(thread)))
  {
    var d := Next(t, SampleLeaves(thread));
    if At(t, thread, Leaving) {
      assert d.samples.Keys == t.samples.Keys - {thread};
      hide FramesOk, HandsOk, GoneOk, Complete;
      StageKeeps(t, d, thread);
    }
  }

  lemma MovesKeeps(t: Table, thread: nat)
    requires Inv(t) && thread in t.samples && !t.samples[thread].Dropping?
    ensures Inv(t.(samples := t.samples[thread := Leaving]))
  {
    var d := t.(samples := t.samples[thread := Leaving]);
    assert d.samples.Keys == t.samples.Keys;
    hide FramesOk, HandsOk, GoneOk, Complete;
    StageKeeps(t, d, thread);
  }

  predicate Outside(s: Step) {
    s.StreamSet? || s.FreeBegins? || s.FreeSeesCallbacks? || s.FreeSeesFrames? || s.FreeEnds?
  }

  lemma ShutdownFollows(t: Table, s: Step)
    requires ShutdownOk(t) && t.pending == |t.frames| && t.active == |t.samples| && Outside(s)
    ensures var d := Next(t, s);
            && d == t.(stopping := d.stopping, epoch := d.epoch, channel := d.channel, shutdown := d.shutdown)
            && ShutdownOk(d)
  {
    assert t.pending == 0 ==> t.frames == map[];
    assert t.active == 0 ==> t.samples == map[];
  }

  lemma ShutdownKeeps(t: Table, s: Step)
    requires Inv(t) && Outside(s)
    ensures Inv(Next(t, s))
  {
    ShutdownFollows(t, s);
    hide Next, FramesOk, HandsOk, GoneOk, Complete, ShutdownOk;
    OutsideKeeps(t, Next(t, s));
  }

  lemma StepKeeps(t: Table, s: Step)
    requires Inv(t)
    ensures Inv(Next(t, s))
  {
    hide Inv;
    match s
    case SampleEnters(thread) => EntersKeeps(t, thread);
    case SampleRejected(thread) => if At(t, thread, Entered) { MovesKeeps(t, thread); }
    case SampleTaken(thread, fd, id) =>
      if At(t, thread, Entered) {
        if !t.stopping && id.Some? && FreeId(t, id.value) {
          TakeKeeps(t, thread, fd, id.value);
        } else {
          MovesKeeps(t, thread);
        }
      }
    case PushReturns(thread, success) =>
      if thread in t.samples && t.samples[thread].InPush? {
        var id := t.samples[thread].id;
        if !success && id in t.frames && !t.frames[id].detected {
          PushFailedKeeps(t, thread);
        } else {
          MovesKeeps(t, thread);
        }
      }
    case SampleDrops(thread) => if thread in t.samples && t.samples[thread].Dropping? { DropKeeps(t, thread); }
    case SampleLeaves(thread) => LeavesKeeps(t, thread);
    case Released(id, fd, plain) => if id in t.frames && t.frames[id].fd == fd && plain { ReleasedKeeps(t, id, fd); }
    case ReleaseDrops(b) => if b in t.releases { ReleaseDropKeeps(t, b); }
    case Detected(id) => if id in t.frames { DetectedKeeps(t, id); }
    case _ => ShutdownKeeps(t, s);
  }

  /** Over any interleaving of sample, detection and release callbacks and of shutdown. */
  lemma {:induction false} RunKeeps(steps: seq<Step>)
    ensures Inv(Run(NewTable(), steps))
  {
    if steps != [] {
      RunKeeps(steps[..|steps| - 1]);
      StepKeeps(Run(NewTable(), steps[..|steps| - 1]), steps[|steps| - 1]);
      hide Inv, Next;
    }
  }

  // ---------- what it means ----------

  /** How often a reference was dropped. */
  function Drops(t: Table, b: nat): nat { multiset(t.unrefs)[b] }

  lemma {:induction false} CountDistinct(s: seq<nat>, b: nat)
    requires forall i, j | 0 <= i < j < |s| :: s[i] != s[j]
    ensures multiset(s)[b] == if b in s then 1 else 0
  {
    if s != [] {
      var (front, x) := (s[..|s| - 1], s[|s| - 1]);
      CountDistinct(front, b);
      assert s == front + [x];
      assert x !in front;
    }
  }

  /** No reference is ever dropped twice, nor while its frame is still lent. */
  lemma DroppedAtMostOnce(t: Table, b: nat)
    requires Inv(t)
    ensures Drops(t, b) <= 1
    ensures InTable(t, b) ==> Drops(t, b) == 0
  {
    CountDistinct(t.unrefs, b);
  }

  /** When shutdown reports success, every reference ever taken has been dropped exactly
      once, but for those a release callback is just about to drop. */
  lemma FreedMeansDropped(t: Table, b: nat)
    requires Inv(t) && t.shutdown.Freed? && b < t.taken
    ensures Drops(t, b) == if b in t.releases then 0 else 1
  {
    CountDistinct(t.unrefs, b);
    assert !InTable(t, b) && !InHand(t, b);
  }

  /** Shutdown may report success with such a drop still to come: it counts the sample
      callbacks, but not the release callbacks. */
  lemma FreeMayPrecedeDrop()
    ensures var t := Run(NewTable(), [SampleEnters(0), SampleTaken(0, 7, Some(1)), PushReturns(0, true),
                                      SampleLeaves(0), FreeBegins, FreeSeesCallbacks, Released(1, 7, true),
                                      FreeSeesFrames(true), FreeEnds(true)]);
            t.shutdown.Freed? && t.taken == 1 && Drops(t, 0) == 0 && t.releases == {0}
  {
    var s := [SampleEnters(0), SampleTaken(0, 7, Some(1)), PushReturns(0, true), SampleLeaves(0), FreeBegins,
              FreeSeesCallbacks, Released(1, 7, true), FreeSeesFrames(true), FreeEnds(true)];
    RunNine(s);
    OneLent();
    OneReleasedLate();
    hide Next, Run;
  }

  const ONE_LENT :=
    NewTable().(frames := map[1 := Frame(0, 7, 1, "camera", false)], pending := 1, nextId := 1, taken := 1)

  lemma OneLent()
    ensures Next(Next(Next(Next(NewTable(), SampleEnters(0)), SampleTaken(0, 7, Some(1))), PushReturns(0, true)),
                 SampleLeaves(0)) == ONE_LENT
  {
    var t1 := Next(NewTable(), SampleEnters(0));
    assert t1 == NewTable().(active := 1, samples := map[0 := Entered]);
    var t2 := Next(t1, SampleTaken(0, 7, Some(1)));
    assert t2.frames == ONE_LENT.frames && t2.samples == map[0 := InPush(1)];
    var t3 := Next(t2, PushReturns(0, true));
    assert t3 == t2.(samples := map[0 := Leaving]);
    assert t3.samples - {0} == map[];
  }

  lemma OneReleasedLate()
    ensures var t := Next(Next(Next(Next(Next(ONE_LENT, FreeBegins), FreeSeesCallbacks), Released(1, 7, true)),
                               FreeSeesFrames(true)), FreeEnds(true));
            t.shutdown.Freed? && t.taken == 1 && t.unrefs == [] && t.releases == {0}
  {
    var t3 := Next(Next(Next(ONE_LENT, FreeBegins), FreeSeesCallbacks), Released(1, 7, true));
    assert t3 == ONE_LENT.(frames := map[], pending := 0, releases := {0}, stopping := true, shutdown := Quiet(true));
  }

  lemma RunNine(s: seq<Step>)
    requires |s| == 9
    ensures Run(NewTable(), s) ==
            Next(Next(Next(Next(Next(Next(Next(Next(Next(
              NewTable(), s[0]), s[1]), s[2]), s[3]), s[4]), s[5]), s[6]), s[7]), s[8])
  {
    hide Next;
    forall n: nat | n < 9 ensures Run(NewTable(), s[..n + 1]) == Next(Run(NewTable(), s[..n]), s[n]) {
      assert s[..n + 1][..n] == s[..n];
    }
    assert s[..0] == [] && s[..9] == s;
    assert Run(NewTable(), s[..1]) == Next(NewTable(), s[0]);
    hide Run;
    assert Run(NewTable(), s[..3]) == Next(Next(Next(NewTable(), s[0]), s[1]), s[2]);
    assert Run(NewTable(), s[..6]) == Next(Next(Next(Run(NewTable(), s[..3]), s[3]), s[4]), s[5]);
  }

  // ---------- attribution ----------

  /** If reference `b` is still lent, it is as `f` under `id`, detected or not. */
  ghost predicate LentAs(t: Table, b: nat, id: nat, f: Frame) {
    && b < t.taken
    && forall j | j in t.frames && t.frames[j].buffer == b :: j == id && t.frames[j].(detected := f.detected) == f
  }

  lemma StepLentAs(t: Table, s: Step, b: nat, id: nat, f: Frame)
    requires LentAs(t, b, id, f)
    ensures LentAs(Next(t, s), b, id, f)
  {
  }

  lemma {:induction false} RunLentAs(t: Table, steps: seq<Step>, b: nat, id: nat, f: Frame)
    requires LentAs(t, b, id, f)
    ensures LentAs(Run(t, steps), b, id, f)
  {
    hide LentAs, Next;
    if steps != [] {
      RunLentAs(t, steps[..|steps| - 1], b, id, f);
      StepLentAs(Run(t, steps[..|steps| - 1]), steps[|steps| - 1], b, id, f);
    }
  }

  /** A detection is attributed to the stream under which its frame entered, whatever streams
      have been set since: as long as the reference taken then is lent, it is under the id it
      was given, with the epoch, channel and descriptor of that moment. A frame that has been
      given a freed id holds another reference. */
  lemma AttributionKept(t: Table, thread: nat, fd: int, id: nat, steps: seq<Step>, j: nat)
    requires Inv(t) && At(t, thread, Entered) && !t.stopping && FreeId(t, id)
    requires var t1 := Run(Next(t, SampleTaken(thread, fd, Some(id))), steps);
             j in t1.frames && t1.frames[j].buffer == t.taken
    ensures var t1 := Run(Next(t, SampleTaken(thread, fd, Some(id))), steps);
            j == id && t1.frames[j].(detected := false) == Frame(t.taken, fd, t.epoch, t.channel, false)
  {
    var t0 := Next(t, SampleTaken(thread, fd, Some(id)));
    var f := Frame(t.taken, fd, t.epoch, t.channel, false);
    assert LentAs(t0, t.taken, id, f);
    RunLentAs(t0, steps, t.taken, id, f);
    hide Run, Inv;
  }

  // ---------- the table itself ----------

  ghost function Candidate(start: nat, k: nat): nat { (start + k) % (U32_MAX + 1) }

  lemma NextCandidate(start: nat, k: nat)
    requires start <= U32_MAX
    ensures Candidate(start, 0) == start && Candidate(start, k) <= U32_MAX
    ensures Candidate(start, k + 1) == if Candidate(start, k) == U32_MAX then 0 else Candidate(start, k) + 1
  {
  }

  ghost function UpTo(n: nat): set<nat> { if n == 0 then {} else UpTo(n - 1) + {n} }

  lemma {:induction false} UpToSize(n: nat)
    ensures |UpTo(n)| == n && forall i: nat :: i in UpTo(n) <==> 1 <= i <= n
  {
    if n > 0 { UpToSize(n - 1); }
  }

  /** If a full turn finds nothing, all ids but the starting one are in use. */
  lemma FullTurn(frames: map<nat, Frame>, start: nat)
    requires start <= U32_MAX
    requires forall k | 1 <= k <= U32_MAX :: Candidate(start, k) == 0 || Candidate(start, k) in frames
    ensures |frames| >= U32_MAX - 1
  {
    var ids := UpTo(U32_MAX);
    UpToSize(U32_MAX);
    hide UpTo;
    forall i | i in ids && i != start ensures i in frames {
      var k := TurnsUp(start, i);
      assert Candidate(start, k) == i;
      hide Candidate;
    }
    SubsetSize(ids - {start}, frames.Keys);
  }

  lemma TurnsUp(start: nat, i: nat) returns (k: nat)
    requires start <= U32_MAX && 1 <= i <= U32_MAX && i != start
    ensures 1 <= k <= U32_MAX && Candidate(start, k) == i
  {
    k := if i > start then i - start else i + U32_MAX + 1 - start;
  }

  class Frames {
    var frames: map<nat, Frame>
    var pending: nat
    var nextId: nat
    var epoch: nat
    var channel: string
    var stopping: bool

    ghost predicate Matches(t: Table)
      reads this
    {
      && frames == t.frames && pending == t.pending && nextId == t.nextId && epoch == t.epoch && channel == t.channel
      && stopping == t.stopping
    }

    constructor ()
      ensures Matches(NewTable())
    {
      frames, pending, nextId, epoch, channel, stopping := map[], 0, 0, 1, "camera", false;
    }

    /** Finds a nonzero 32-bit id that is not in use, whenever fewer than 2^32 - 2 frames
        are outstanding. */
    method NextFrameId() returns (id: Option<nat>)
      requires nextId <= U32_MAX
      modifies this`nextId
      ensures id.Some? ==> 1 <= id.value <= U32_MAX && id.value !in frames && nextId == id.value
      ensures id.None? ==> |frames| >= U32_MAX - 1
      ensures nextId <= U32_MAX
    {
      hide Candidate;
      ghost var start := nextId;
      var attempts := 0;
      NextCandidate(start, 0);
      while attempts < U32_MAX
        invariant 0 <= attempts <= U32_MAX && nextId == Candidate(start, attempts)
        invariant forall k | 1 <= k <= attempts :: Candidate(start, k) == 0 || Candidate(start, k) in frames
      {
        NextCandidate(start, attempts);
        attempts := attempts + 1;
        nextId := if nextId == U32_MAX then 0 else nextId + 1;
        if nextId != 0 && nextId !in frames { return Some(nextId); }
      }
      NextCandidate(start, attempts);
      FullTurn(frames, start);
      id := None;
    }

    /** Lend a buffer; the step it performs names the id it found. */
    method Take(ghost t: Table, thread: nat, fd: int, buffer: nat) returns (id: Option<nat>)
      requires Matches(t) && At(t, thread, Entered) && nextId <= U32_MAX && buffer == t.taken
      modifies this
      ensures id.Some? ==> !t.stopping && FreeId(t, id.value) && Matches(Next(t, SampleTaken(thread, fd, id)))
      ensures id.None? ==> (stopping || |t.frames| >= U32_MAX - 1)
                           && Matches(Next(t, SampleTaken(thread, fd, id)).(nextId := nextId))
      ensures nextId <= U32_MAX
    {
      if stopping { return None; }
      id := NextFrameId();
      if id.Some? {
        frames := frames[id.value := Frame(buffer, fd, epoch, channel, false)];
        pending := pending + 1;
      }
    }

    /** The push returned; gives back the buffer when the detector will not use it. */
    method PushReturned(ghost t: Table, thread: nat, id: nat, success: bool) returns (drop: Option<nat>)
      requires Matches(t) && At(t, thread, InPush(id))
      modifies this
      ensures Matches(Next(t, PushReturns(thread, success)))
      ensures drop.Some? <==> Next(t, PushReturns(thread, success)).samples[thread].Dropping?
      ensures drop.Some? ==> Next(t, PushReturns(thread, success)).samples[thread] == Dropping(drop.value)
    {
      drop := None;
      if !success && id in frames && !frames[id].detected {
        drop := Some(frames[id].buffer);
        frames := frames - {id};
        if pending > 0 { pending := pending - 1; }
      }
    }

    /** One entry of a release callback; a mismatch changes nothing. */
    method ReleaseOne(ghost t: Table, id: nat, fd: int, plain: bool) returns (drop: Option<nat>)
      requires Matches(t)
      modifies this
      ensures Matches(Next(t, Released(id, fd, plain)))
      ensures drop.Some? ==> Next(t, Released(id, fd, plain)).releases == t.releases + {drop.value}
      ensures drop.None? ==> Next(t, Released(id, fd, plain)) == t
    {
      drop := None;
      if id !in frames || frames[id].fd != fd || !plain { return; }
      drop := Some(frames[id].buffer);
      frames := frames - {id};
      if pending > 0 { pending := pending - 1; }
    }

    /** Which stream a detection belongs to: that of its frame, else the current one. */
    method Detect(ghost t: Table, id: nat) returns (stream: (string, nat))
      requires Matches(t)
      modifies this
      ensures Matches(Next(t, Detected(id)))
      ensures stream == if id in t.frames then (t.frames[id].channel, t.frames[id].epoch) else (t.channel, t.epoch)
    {
      if id in frames {
        frames := frames[id := frames[id].(detected := true)];
        stream := (frames[id].channel, frames[id].epoch);
      } else {
        stream := (channel, epoch);
      }
    }
  }
}
