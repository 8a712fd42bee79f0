// What the journal's evictions can do to the daemon. An engine crash that gives up cursors the
// daemon is already past makes it miss a START or END for good; an eviction of an UPDATE the
// daemon has yet to see stops it for good.
module PipelineGaps {
  import opened Common
  import opened EventContract
  import opened OutboxModel
  import opened OutboxSpec
  import opened OutboxProofs
  import opened OutboxCalls
  import opened OutboxOrigin
  import opened OutboxRuns
  import opened Pipeline
  import opened PipelineProofs
  import J = EventJournal

  /** Every daemon crash on the way leaves a file without a shared line. */
  ghost predicate AllLoadable(u: Setup, s: Sys, acts: seq<Action>)
    requires SelfKeyed(s.box.mem.records)
  {
    acts == [] ||
    (var front := acts[..|acts| - 1];
     AllLoadable(u, s, front) && Loadable(u, Ahead(u, s, front), acts[|acts| - 1]))
  }

  // ---------- a record that is missed ----------

  /** Another event, or another cursor. */
  predicate Other(q: J.Rec, r: J.Rec) { q.event != r.event || q.cursor != r.cursor }

  ghost predicate AllOther(rs: seq<J.Rec>, r: J.Rec) { forall i | 0 <= i < |rs| :: Other(rs[i], r) }

  ghost function HeldAs(u: Setup, r: J.Rec): Held { Held(Key(u.cfg, r.event), r.event, r.cursor) }

  /** The journal's record `r` is a START or END that is not past the daemon's cursor, was never
      on its disk, and is not on its way there. */
  ghost predicate Missed(u: Setup, s: Sys, r: J.Rec) {
    && J.Keeps(u.lim, s.journal, s.all) && r in s.all && Boundary(r.event.phase)
    && Logged(u.cfg, s.box) && OnDisk(u.cfg, s.box) <= s.onDisk && HeldAs(u, r) !in s.onDisk
    && r.cursor <= s.box.mem.lastAck
    && (s.link.Requested? ==> r.cursor <= s.link.after)
    && (InHand(s) ==> Other(s.loop.rec, r))
    && (s.link.Open? ==> AllOther(Records(s.link.inFlight), r)) && AllOther(s.broadcasts, r)
  }

  lemma AllOtherJoin(a: seq<J.Rec>, b: seq<J.Rec>, r: J.Rec)
    ensures AllOther(a + b, r) <==> AllOther(a, r) && AllOther(b, r)
  {
    if AllOther(a + b, r) {
      forall i | 0 <= i < |a| ensures Other(a[i], r) { assert (a + b)[i] == a[i]; }
      forall i | 0 <= i < |b| ensures Other(b[i], r) { assert (a + b)[|a| + i] == b[i]; }
    }
  }

  lemma OneRecord(q: J.Rec)
    ensures Records([Notify(q)]) == [q]
  {
    assert [Notify(q)][1..] == [];
  }

  /** Past the cursor of `r`, and so not `r`. */
  lemma LaterOther(rs: seq<J.Rec>, r: J.Rec, after: nat)
    requires r.cursor <= after && forall q | q in rs :: q.cursor > after
    ensures AllOther(rs, r)
  {
  }

  /** The outbox side: nothing but the record in hand gets on the disk. */
  lemma MissedBox(u: Setup, s: Sys, a: Action, r: J.Rec)
    requires Missed(u, s, r) && SelfKeyed(s.box.mem.records) && Loadable(u, s, a)
    ensures var t := Next(u, s, a);
            && Logged(u.cfg, t.box) && OnDisk(u.cfg, t.box) <= t.onDisk && HeldAs(u, r) !in t.onDisk
            && r.cursor <= t.box.mem.lastAck
  {
    hide Logged, OnDisk, Act, CallOf, BringsFrom, Loadable, J.Keeps, AllOther, Key;
    var p := s.onDisk + (if InHand(s) then {HeldAs(u, s.loop.rec)} else {});
    HandBrings(u, s, a, p);
    BoxKeeps(u, s, a, p);
    OnlyHistory(u, s, a);
  }

  lemma HandBrings(u: Setup, s: Sys, a: Action, p: set<Held>)
    requires InHand(s) ==> HeldAs(u, s.loop.rec) in p
    ensures CallOf(u, s, a).Some? ==> BringsFrom(u.cfg, p, CallOf(u, s, a).value)
  {
    hide Key, IsCoalesceChoice, CallerSafe;
  }

  /** The journal side: `r` stays, and what the engine sends is past it. */
  lemma MissedJournal(u: Setup, s: Sys, a: Action, r: J.Rec)
    requires Missed(u, s, r) && SelfKeyed(s.box.mem.records)
    ensures var t := Act(u, s, a);
            && J.Keeps(u.lim, t.journal, t.all) && r in t.all && AllOther(t.broadcasts, r)
  {
    hide Logged, OnDisk, J.Keeps, J.Append, J.RoomMade, J.KeepsNewest, Restarted, Enqueue, Ack, Step, MarkCall,
      IsCoalesceChoice, UnderWay, J.SnapshotAfter, Notifies, AllOther;
    var t := Act(u, s, a);
    match a {
      case Produce(e) => MissedProduce(u, s, e, r);
      case EngineRestart => RestartResumes(u, s); NoneOther(r);
      case EngineCrash(e) =>
        CrashResumes(u, s, e);
        KeepsNumbered(u, s);
        BoundaryStays(s.all, BackAt(u, s, e), r);
        NoneOther(r);
      case Broadcast => if s.broadcasts != [] { TailOther(s.broadcasts, r); }
      case _ =>
    }
  }

  lemma NoneOther(r: J.Rec)
    ensures AllOther([], r)
  {
  }

  lemma TailOther(rs: seq<J.Rec>, r: J.Rec)
    requires rs != [] && AllOther(rs, r)
    ensures Other(rs[0], r) && AllOther(rs[1..], r)
  {
  }

  lemma BoundaryStays(all: seq<J.Rec>, k: nat, r: J.Rec)
    requires k <= |all| && r in all && Boundary(r.event.phase)
    requires forall i | k <= i < |all| :: all[i].event.phase.Update?
    ensures r in all[..k]
  {
    var i :| 0 <= i < |all| && all[i] == r;
    assert all[..k][i] == r;
  }

  lemma MissedProduce(u: Setup, s: Sys, e: Event, r: J.Rec)
    requires Missed(u, s, r) && SelfKeyed(s.box.mem.records)
    ensures var t := Act(u, s, Produce(e));
            && J.Keeps(u.lim, t.journal, t.all) && r in t.all && AllOther(t.broadcasts, r)
  {
    hide Logged, OnDisk, J.Keeps, J.Append, AllOther, J.Numbered;
    J.AppendKeeps(u.lim, s.journal, s.all, e);
    NumberedKept(u, s);
    var rec := J.Rec(s.journal.nextCursor + 1, e, u.lim.size(s.journal.nextCursor + 1, e));
    var c := J.Append(u.lim, s.journal, e).1;
    if c.Accepted? {
      var q := J.Rec(c.cursor, e, u.lim.size(c.cursor, e));
      AllOtherJoin(s.broadcasts, [q], r);
      LaterOther([q], r, |s.all|);
    }
  }

  /** The connection: what is read, sent or asked for is past `r` too. */
  lemma MissedLink(u: Setup, s: Sys, a: Action, r: J.Rec)
    requires Missed(u, s, r) && SelfKeyed(s.box.mem.records)
    ensures var t := Act(u, s, a);
            && (t.link.Requested? ==> r.cursor <= t.link.after)
            && (InHand(t) ==> Other(t.loop.rec, r))
            && (t.link.Open? ==> AllOther(Records(t.link.inFlight), r))
  {
    hide Logged, OnDisk, J.Keeps, J.Append, J.RoomMade, J.Reopen, Enqueue, Ack, Step, MarkCall, IsCoalesceChoice,
      UnderWay, J.SnapshotAfter, AllOther, Records, Key;
    match a {
      case ServeSubscribe => if s.link.Requested? { MissedServe(u, s, r); }
      case Broadcast =>
        if s.broadcasts != [] {
          TailOther(s.broadcasts, r);
          if s.link.Open? {
            RecordsConcat(s.link.inFlight, [Notify(s.broadcasts[0])]);
            OneRecord(s.broadcasts[0]);
            AllOtherJoin(Records(s.link.inFlight), [s.broadcasts[0]], r);
            LaterOne(s.broadcasts[0], r);
          }
        }
      case Receive =>
        if s.link.Open? && s.link.inFlight != [] { MissedRead(s.link.inFlight, r); }
      case _ =>
    }
  }

  lemma LaterOne(q: J.Rec, r: J.Rec)
    requires Other(q, r)
    ensures AllOther([q], r)
  {
  }

  lemma MissedRead(ms: seq<Msg>, r: J.Rec)
    requires ms != [] && AllOther(Records(ms), r)
    ensures AllOther(Records(ms[1..]), r) && (ms[0].Notify? ==> Other(ms[0].rec, r))
  {
    var head := if ms[0].Notify? then [ms[0].rec] else [];
    assert Records(ms) == head + Records(ms[1..]);
    AllOtherJoin(head, Records(ms[1..]), r);
    if ms[0].Notify? { assert Other(head[0], r); }
  }

  lemma MissedServe(u: Setup, s: Sys, r: J.Rec)
    requires Missed(u, s, r) && s.link.Requested? && SelfKeyed(s.box.mem.records)
    ensures var t := Act(u, s, ServeSubscribe);
            t.link.Open? && t.loop == s.loop && AllOther(Records(t.link.inFlight), r)
  {
    hide Logged, OnDisk, J.Keeps, AllOther, Records;
    var snap := J.SnapshotAfter(s.journal.records, s.link.after);
    J.ReplaySends(u.lim, s.journal, s.all, s.link.after);
    LaterOther(snap.records, r, s.link.after);
    RecordsOfNotifies(snap.records);
    RecordsConcat([Reply(snap.gap)], Notifies(snap.records));
    ReplyOnly(snap.gap);
  }

  lemma ReplyOnly(gap: bool)
    ensures forall rs: seq<J.Rec> :: Records([Reply(gap)]) + rs == rs
  {
    assert [Reply(gap)][1..] == [];
  }

  lemma NextMissed(u: Setup, s: Sys, a: Action, r: J.Rec)
    requires Missed(u, s, r) && SelfKeyed(s.box.mem.records) && Loadable(u, s, a)
    ensures Missed(u, Next(u, s, a), r)
  {
    hide Logged, OnDisk, J.Keeps, AllOther, Act, Loadable, Records, Key;
    MissedBox(u, s, a, r);
    MissedJournal(u, s, a, r);
    MissedLink(u, s, a, r);
    OnlyHistory(u, s, a);
  }

  /** A missed START or END stays missed: whatever the two processes do from there, it never
      gets on the daemon's disk. */
  lemma {:induction false} RunMissed(u: Setup, s: Sys, acts: seq<Action>, r: J.Rec)
    requires Missed(u, s, r) && SelfKeyed(s.box.mem.records) && AllLoadable(u, s, acts)
    ensures Missed(u, Ahead(u, s, acts), r) && HeldAs(u, r) !in Ahead(u, s, acts).onDisk
  {
    hide Missed, Next, Loadable;
    if acts != [] {
      var front := acts[..|acts| - 1];
      RunMissed(u, s, front, r);
      NextMissed(u, Ahead(u, s, front), acts[|acts| - 1], r);
    }
    MissedDisk(u, Ahead(u, s, acts), r);
  }

  lemma MissedDisk(u: Setup, s: Sys, r: J.Rec)
    requires Missed(u, s, r)
    ensures HeldAs(u, r) !in s.onDisk && r in s.all && r.cursor <= s.box.mem.lastAck
  {
    hide Logged, OnDisk, J.Keeps, AllOther, Records;
  }

  // ---------- a crash that gives up what the daemon is past ----------

  /** The engine is back, the connection gone, and no record under `key` was ever on the
      daemon's disk or is on its way there. */
  ghost predicate Clear(u: Setup, s: Sys, key: string) {
    && J.Keeps(u.lim, s.journal, s.all) && Logged(u.cfg, s.box)
    && OnDisk(u.cfg, s.box) <= s.onDisk && !KeyHeld(s.onDisk, key)
    && s.link.Closed? && s.broadcasts == [] && (InHand(s) ==> Key(u.cfg, s.loop.rec.event) != key)
  }

  lemma CrashClear(u: Setup, s: Sys, e: Event, key: string)
    requires Sound(u, s) && SelfKeyed(s.box.mem.records) && !KeyHeld(s.onDisk, key)
    requires InHand(s) ==> Key(u.cfg, s.loop.rec.event) != key
    ensures var t := Next(u, s, EngineCrash(e));
            && Clear(u, t, key) && t.box == s.box && t.loop == s.loop && |t.all| == BackAt(u, s, e)
  {
    hide Sound, J.Keeps, Logged, OnDisk, KeyHeld, Key, Inbound, Covered, Frontier, J.RoomMade, J.KeepsNewest, Act,
      AllFrom, J.Numbered;
    SoundParts(u, s);
    CrashResumes(u, s, e);
    OnlyHistory(u, s, EngineCrash(e));
    assert s.onDisk + OnDisk(u.cfg, s.box) == s.onDisk;
  }

  lemma KeyNotIn(u: Setup, onDisk: set<Held>, r: J.Rec, key: string)
    requires !KeyHeld(onDisk, key) && Key(u.cfg, r.event) != key
    ensures !KeyHeld(onDisk + {HeldAs(u, r)}, key)
  {
  }

  /** Storing or acknowledging the record in hand keeps it so. */
  lemma ClearNext(u: Setup, s: Sys, a: Action, key: string)
    requires Clear(u, s, key) && SelfKeyed(s.box.mem.records) && (a.Store? || a.Acknowledge?)
    ensures var t := Next(u, s, a);
            && Clear(u, t, key) && t.journal == s.journal && t.all == s.all
            && t.box.mem.lastAck >= s.box.mem.lastAck
  {
    hide J.Keeps, Logged, OnDisk, KeyHeld, Key, CallOf, BringsFrom, Act;
    var p := s.onDisk + (if InHand(s) then {HeldAs(u, s.loop.rec)} else {});
    HandBrings(u, s, a, p);
    BoxKeeps(u, s, a, p);
    OnlyHistory(u, s, a);
    if InHand(s) { KeyNotIn(u, s.onDisk, s.loop.rec, key); } else { assert p == s.onDisk; }
    ClearShape(u, s, a);
    KeyHeldLess(Next(u, s, a).onDisk, p, key);
  }

  lemma KeyHeldLess(a: set<Held>, b: set<Held>, key: string)
    requires a <= b && !KeyHeld(b, key)
    ensures !KeyHeld(a, key)
  {
  }

  lemma ClearShape(u: Setup, s: Sys, a: Action)
    requires SelfKeyed(s.box.mem.records) && s.link.Closed? && (a.Store? || a.Acknowledge?)
    ensures var t := Act(u, s, a);
            && t == s.(box := t.box, loop := t.loop) && (InHand(t) ==> InHand(s) && t.loop.rec == s.loop.rec)
            && (t.loop.Streaming? ==> s.loop.Streaming? || (s.loop.Storing? && a.Acknowledge?))
            && (a.Store? && s.loop.Received? ==> t.loop == s.loop || t.loop == Storing(s.loop.rec) || !InHand(t))
            && (a.Store? && !s.loop.Received? ==> t == s)
  {
    hide Enqueue, Ack, IsCoalesceChoice;
  }

  /** An acknowledgement that succeeds brings the cursor up to the record. */
  lemma AckReaches(u: Setup, s: Sys)
    requires Logged(u.cfg, s.box) && SelfKeyed(s.box.mem.records) && s.loop.Storing?
    requires Act(u, s, Acknowledge).loop.Streaming?
    ensures Act(u, s, Acknowledge).box.mem.lastAck >= s.loop.rec.cursor
  {
    hide Logged, Ack;
    BeginKeeps(u.cfg, s.box);
    AckKeeps(u.cfg, Begin(s.box), s.loop.rec.cursor);
  }

  /** The crash, and the daemon done with the record it had in hand. */
  function Finishing(e: Event, choice: Option<string>): seq<Action> { [EngineCrash(e), Store(choice), Acknowledge] }

  lemma AheadThree(u: Setup, s: Sys, a: Action, b: Action, c: Action)
    requires SelfKeyed(s.box.mem.records)
    ensures Ahead(u, s, [a, b, c]) == Next(u, Next(u, Next(u, s, a), b), c)
  {
    hide Next;
    assert [a, b, c][..2] == [a, b] && [a, b][..1] == [a] && [a][..0] == [];
    assert Ahead(u, s, [a]) == Next(u, Ahead(u, s, []), a);
    assert Ahead(u, s, [a, b]) == Next(u, Ahead(u, s, [a]), b);
  }

  lemma AheadSnoc(u: Setup, s: Sys, acts: seq<Action>, a: Action)
    requires SelfKeyed(s.box.mem.records)
    ensures Ahead(u, s, acts + [a]) == Next(u, Ahead(u, s, acts), a)
  {
    hide Next;
    assert (acts + [a])[..|acts|] == acts;
  }

  lemma FinishClear(u: Setup, s: Sys, e: Event, choice: Option<string>, key: string)
    requires Sound(u, s) && SelfKeyed(s.box.mem.records) && !KeyHeld(s.onDisk, key)
    requires InHand(s) ==> Key(u.cfg, s.loop.rec.event) != key
    ensures var t := Ahead(u, s, Finishing(e, choice));
            && Clear(u, t, key) && |t.all| == BackAt(u, s, e)
            && t.box.mem.lastAck >= s.box.mem.lastAck
            && (t.loop.Streaming? && InHand(s) ==> t.box.mem.lastAck >= s.loop.rec.cursor)
  {
    hide Sound, Clear, Next, KeyHeld, Key, BackAt, Ahead, Logged;
    AheadThree(u, s, EngineCrash(e), Store(choice), Acknowledge);
    CrashClear(u, s, e, key);
    var s1 := Next(u, s, EngineCrash(e));
    ClearNext(u, s1, Store(choice), key);
    var s2 := Next(u, s1, Store(choice));
    ClearNext(u, s2, Acknowledge, key);
    if InHand(s) { FinishReaches(u, s1, choice, key); }
  }

  lemma FinishReaches(u: Setup, s: Sys, choice: Option<string>, key: string)
    requires Clear(u, s, key) && SelfKeyed(s.box.mem.records) && InHand(s)
    ensures var s2 := Next(u, s, Store(choice));
            var t := Next(u, s2, Acknowledge);
            Clear(u, s2, key) && (t.loop.Streaming? ==> t.box.mem.lastAck >= s.loop.rec.cursor)
  {
    hide J.Keeps, Logged, OnDisk, KeyHeld, Key, Act;
    ClearNext(u, s, Store(choice), key);
    ClearShape(u, s, Store(choice));
    OnlyHistory(u, s, Store(choice));
    var s2 := Next(u, s, Store(choice));
    ClearShape(u, s2, Acknowledge);
    OnlyHistory(u, s2, Acknowledge);
    if s2.loop.Storing? && Act(u, s2, Acknowledge).loop.Streaming? { AckReaches(u, s2); }
    hide Next;
  }

  /** Then the next START or END under a new key is given a cursor the daemon is past, with
      nobody to be told of it. */
  lemma ProducedMissed(u: Setup, s: Sys, next: Event) returns (r: J.Rec)
    requires Clear(u, s, Key(u.cfg, next)) && SelfKeyed(s.box.mem.records) && s.box.mem.lastAck > |s.all|
    requires InHand(s) ==> s.loop.rec.event != next
    requires Boundary(next.phase) && J.Append(u.lim, s.journal, next).1.Accepted?
    ensures var t := Next(u, Next(u, s, Produce(next)), Broadcast);
            && r.event == next && r.cursor == |s.all| + 1 && Missed(u, t, r) && !KeyHeld(t.onDisk, Key(u.cfg, next))
  {
    hide J.Keeps, Logged, OnDisk, KeyHeld, Key, J.Append;
    J.AppendKeeps(u.lim, s.journal, s.all, next);
    var c := J.Append(u.lim, s.journal, next).1.cursor;
    r := J.Rec(c, next, u.lim.size(c, next));
    var s1 := Next(u, s, Produce(next));
    assert s.onDisk + OnDisk(u.cfg, s.box) == s.onDisk;
    assert s1.onDisk == s.onDisk && s1.box == s.box && s1.broadcasts == [r] && s1.all == s.all + [r];
    assert s1.broadcasts[1..] == [];
    NotUnder(u, s.onDisk, r);
  }

  lemma NotUnder(u: Setup, onDisk: set<Held>, r: J.Rec)
    requires !KeyHeld(onDisk, Key(u.cfg, r.event))
    ensures HeldAs(u, r) !in onDisk
  {
  }

  /** The other half of `EngineCrashSoundIff`: after an engine crash that gives up a cursor the
      daemon has acknowledged, or goes on to acknowledge for the record it has in hand, the
      next START or END that the journal accepts under a new key is missed, and with it stays
      missed (`RunMissed`): not past the daemon's cursor, and never on its disk. */
  lemma AheadLoses(u: Setup, s: Sys, e: Event, choice: Option<string>, next: Event) returns (r: J.Rec)
    requires Sound(u, s) && SelfKeyed(s.box.mem.records) && !Within(s, BackAt(u, s, e))
    requires Boundary(next.phase) && !KeyHeld(s.onDisk, Key(u.cfg, next))
    requires InHand(s) ==> Key(u.cfg, s.loop.rec.event) != Key(u.cfg, next)
    requires s.box.mem.lastAck > BackAt(u, s, e) || Ahead(u, s, Finishing(e, choice)).loop.Streaming?
    requires J.Append(u.lim, Ahead(u, s, Finishing(e, choice)).journal, next).1.Accepted?
    ensures var t := Ahead(u, s, Finishing(e, choice) + [Produce(next)] + [Broadcast]);
            && r.event == next && r in t.all && r.cursor <= t.box.mem.lastAck
            && !KeyHeld(t.onDisk, Key(u.cfg, next)) && Missed(u, t, r)
  {
    hide Sound, Clear, Next, KeyHeld, Key, BackAt, Ahead, Missed, J.Append, Finishing;
    var key := Key(u.cfg, next);
    FinishClear(u, s, e, choice, key);
    var acts := Finishing(e, choice);
    var s1 := Ahead(u, s, acts);
    ClearHand(u, s1, next);
    r := ProducedMissed(u, s1, next);
    AheadSnoc(u, s, acts, Produce(next));
    AheadSnoc(u, s, acts + [Produce(next)], Broadcast);
    MissedDisk(u, Ahead(u, s, acts + [Produce(next)] + [Broadcast]), r);
  }

  lemma ClearHand(u: Setup, s: Sys, e: Event)
    requires Clear(u, s, Key(u.cfg, e))
    ensures InHand(s) ==> s.loop.rec.event != e
  {
    hide J.Keeps, Logged, OnDisk, KeyHeld, Key;
  }

  // ---------- an eviction that stops the daemon ----------

  /** The journal no longer has the record with cursor `c`, the daemon is still at `ack` before
      it, and the connection, if one is being made, will tell it so. */
  ghost predicate Outage(u: Setup, s: Sys, c: nat, ack: nat) {
    && J.Keeps(u.lim, s.journal, s.all) && Logged(u.cfg, s.box)
    && s.box.mem.lastAck == ack < c <= |s.all| && (forall r | r in s.journal.records :: r.cursor != c)
    && (s.loop.Idle? || s.loop.AwaitReply? || s.loop.Stopped?)
    && match s.link
       case Closed => true
       case Requested(after) => s.loop.AwaitReply? && after <= ack
       case Open(ms) => s.loop.AwaitReply? && ms != [] && ms[0] == Reply(true)
  }

  /** A subscriber at or before `ack` is told of the gap. */
  lemma GapTold(u: Setup, j: J.Journal, all: seq<J.Rec>, after: nat, c: nat)
    requires J.Keeps(u.lim, j, all) && after < c <= |all| && forall r | r in j.records :: r.cursor != c
    ensures J.SnapshotAfter(j.records, after).gap
  {
    hide J.Keeps, J.Gap, J.Contiguous;
    J.ReplayGapExact(u.lim, j, all, after);
    J.ReplayFrom(u.lim, j, all, after);
    var sent := J.SnapshotAfter(j.records, after).records;
    if J.Contiguous(sent, after) { ContiguousHas(sent, after, c); }
  }

  lemma ContiguousHas(rs: seq<J.Rec>, after: nat, c: nat)
    requires J.Contiguous(rs, after) && after < c <= after + |rs|
    ensures exists r | r in rs :: r.cursor == c
  {
    var r := rs[c - after - 1];
    assert r in rs && r.cursor == c;
  }

  lemma OutageBox(u: Setup, s: Sys, a: Action, c: nat, ack: nat)
    requires Outage(u, s, c, ack) && SelfKeyed(s.box.mem.records) && Loadable(u, s, a)
    ensures Logged(u.cfg, Next(u, s, a).box) && Next(u, s, a).box.mem.lastAck == ack
  {
    hide J.Keeps, Logged, OnDisk, J.Append, J.Reopen, J.RoomMade, J.SnapshotAfter, Enqueue, Ack, Step, MarkCall,
      IsCoalesceChoice, CallerSafe, UnderWay, RestartOk, J.Gap, Restarted;
    match a {
      case Mark(m) =>
        if IsMark(m) && CallerSafe(s.box.mem.records, m) {
          BeginKeeps(u.cfg, s.box);
          MarkCursor(u.cfg, Begin(s.box), m);
        }
      case DaemonCrash(d, at, cut) => if UnderWay(u, s, d) { CrashCursor(u, s, d, at, cut); }
      case EngineRestart => RestartedBox(u, s, s.journal.records);
      case EngineCrash(e) => RestartedBox(u, s, J.RoomMade(u.lim, s.journal, e));
      case _ =>
    }
  }

  lemma RestartedBox(u: Setup, s: Sys, file: seq<J.Rec>)
    ensures var t := Restarted(u, s, file); t.box == s.box && t.loop == s.loop && t.link.Closed?
  {
    hide J.Reopen;
  }

  lemma OutageJournal(u: Setup, s: Sys, a: Action, c: nat, ack: nat)
    requires Outage(u, s, c, ack) && SelfKeyed(s.box.mem.records)
    requires a.EngineCrash? ==> J.KeepsNewest(u.lim, s.journal, a.event)
    ensures var t := Next(u, s, a);
            && J.Keeps(u.lim, t.journal, t.all) && c <= |t.all| && forall r | r in t.journal.records :: r.cursor != c
  {
    hide J.Keeps, Logged, OnDisk, J.Append, J.Reopen, J.RoomMade, J.SnapshotAfter, Enqueue, Ack, Step, MarkCall,
      IsCoalesceChoice, CallerSafe, UnderWay, J.KeepsNewest, Restarted, J.Gap;
    match a {
      case Produce(e) =>
        J.AppendKeeps(u.lim, s.journal, s.all, e);
        J.AppendAdds(u.lim, s.journal, e);
      case EngineRestart =>
        RestartResumes(u, s);
        J.ReopenSame(u.lim, s.journal, s.all);
        RestartedRecords(u, s, s.journal.records);
      case EngineCrash(e) =>
        CrashResumes(u, s, e);
        J.CrashKeepsIff(u.lim, s.journal, s.all, e);
        J.RoomFrom(u.lim, s.journal, e);
        RestartedRecords(u, s, J.RoomMade(u.lim, s.journal, e));
      case _ =>
    }
  }

  lemma RestartedRecords(u: Setup, s: Sys, file: seq<J.Rec>)
    requires J.Reopen(u.lim, file).Some? && J.Reopen(u.lim, file).value.records == file
    ensures Restarted(u, s, file).journal.records == file
  {
    hide J.Reopen;
  }

  lemma OutageLink(u: Setup, s: Sys, a: Action, c: nat, ack: nat)
    requires Outage(u, s, c, ack) && SelfKeyed(s.box.mem.records)
    ensures var t := Next(u, s, a);
            && (t.loop.Idle? || t.loop.AwaitReply? || t.loop.Stopped?)
            && match t.link
               case Closed => true
               case Requested(after) => t.loop.AwaitReply? && after <= ack
               case Open(ms) => t.loop.AwaitReply? && ms != [] && ms[0] == Reply(true)
  {
    hide J.Keeps, Logged, OnDisk, J.Append, J.Reopen, J.RoomMade, J.SnapshotAfter, Enqueue, Ack, Step, MarkCall,
      IsCoalesceChoice, CallerSafe, UnderWay, Restarted, Notifies;
    match a {
      case ServeSubscribe => if s.link.Requested? { GapTold(u, s.journal, s.all, s.link.after, c); }
      case EngineRestart => RestartedBox(u, s, s.journal.records);
      case EngineCrash(e) => RestartedBox(u, s, J.RoomMade(u.lim, s.journal, e));
      case _ =>
    }
  }

  /** Daemon crashes leave a loadable file, engine crashes the newest record. */
  ghost predicate Orderly(u: Setup, s: Sys, acts: seq<Action>)
    requires SelfKeyed(s.box.mem.records)
  {
    acts == [] ||
    (var (front, a) := (acts[..|acts| - 1], acts[|acts| - 1]);
     var t := Ahead(u, s, front);
     Orderly(u, s, front) && Loadable(u, t, a) && (a.EngineCrash? ==> J.KeepsNewest(u.lim, t.journal, a.event)))
  }

  lemma NextOutage(u: Setup, s: Sys, a: Action, c: nat, ack: nat)
    requires Outage(u, s, c, ack) && SelfKeyed(s.box.mem.records) && Loadable(u, s, a)
    requires a.EngineCrash? ==> J.KeepsNewest(u.lim, s.journal, a.event)
    ensures Outage(u, Next(u, s, a), c, ack)
  {
    hide J.Keeps, Logged, Next, Loadable, J.KeepsNewest;
    OutageBox(u, s, a, c, ack);
    OutageJournal(u, s, a, c, ack);
    OutageLink(u, s, a, c, ack);
  }

  /** Once the journal has evicted a record past the daemon's cursor and no connection is open,
      the daemon never streams again and its cursor never moves, however often either side
      starts anew: every subscription is answered with a gap, at which the daemon stops. */
  lemma {:induction false} RunOutage(u: Setup, s: Sys, acts: seq<Action>, c: nat)
    requires Sound(u, s) && SelfKeyed(s.box.mem.records) && Orderly(u, s, acts)
    requires s.box.mem.lastAck < c <= |s.all| && forall r | r in s.journal.records :: r.cursor != c
    requires !s.link.Open? && (s.loop.Idle? || s.loop.AwaitReply? || s.loop.Stopped?)
    ensures var t := Ahead(u, s, acts);
            && t.box.mem.lastAck == s.box.mem.lastAck && !t.loop.Streaming? && !InHand(t)
            && (t.link.Open? ==> t.link.inFlight != [] && t.link.inFlight[0] == Reply(true))
  {
    OutageHolds(u, s, acts, c);
    OutageMeans(u, Ahead(u, s, acts), c, s.box.mem.lastAck);
  }

  lemma OutageMeans(u: Setup, t: Sys, c: nat, ack: nat)
    requires Outage(u, t, c, ack)
    ensures t.box.mem.lastAck == ack && !t.loop.Streaming? && !InHand(t)
    ensures t.link.Open? ==> t.link.inFlight != [] && t.link.inFlight[0] == Reply(true)
  {
    hide J.Keeps, Logged;
  }

  lemma {:induction false} OutageHolds(u: Setup, s: Sys, acts: seq<Action>, c: nat)
    requires Sound(u, s) && SelfKeyed(s.box.mem.records) && Orderly(u, s, acts)
    requires s.box.mem.lastAck < c <= |s.all| && forall r | r in s.journal.records :: r.cursor != c
    requires !s.link.Open? && (s.loop.Idle? || s.loop.AwaitReply? || s.loop.Stopped?)
    ensures Outage(u, Ahead(u, s, acts), c, s.box.mem.lastAck)
  {
    hide J.Keeps, Logged, Next, Loadable, J.KeepsNewest, OnDisk, Inbound, Frontier, Covered, AllFrom;
    if acts == [] {
    } else {
      hide Sound, Outage;
      var front := acts[..|acts| - 1];
      OutageHolds(u, s, front, c);
      NextOutage(u, Ahead(u, s, front), acts[|acts| - 1], c, s.box.mem.lastAck);
    }
  }
}
