// The two processes together: the engine journals an event and broadcasts it, the
// daemon subscribes from its acknowledged cursor, stores each event and only then
// acknowledges. The connection may break at any point; a compaction of the outbox may fail;
// the daemon may crash in the middle of an outbox call, the engine in the middle of a
// journal append.
module Pipeline {
  import opened Common
  import opened EventContract
  import opened OutboxModel
  import opened OutboxSpec
  import opened OutboxProofs
  import opened OutboxCalls
  import opened OutboxOrigin
  import opened OutboxRuns
  import J = EventJournal

  datatype Delivery = Delivery(sendUpdates: bool, sendEnds: bool, evidence: bool)

  datatype Setup = Setup(cfg: Config, lim: J.Limits, delivery: Delivery)

  datatype Msg = Reply(gap: bool) | Notify(rec: J.Rec)

  /** Requested: the subscribe request is on its way, resuming after `after`.
      Open: the server has answered; `inFlight` is written and not yet read. */
  datatype Link = Closed | Requested(after: nat) | Open(inFlight: seq<Msg>)

  /** Where the daemon's event loop stands. */
  datatype Loop =
    | Idle
    | AwaitReply
    | Streaming
    | Received(rec: J.Rec)    // read from the connection, not yet stored
    | Storing(rec: J.Rec)     // past the enqueue, not yet acknowledged
    | Stopped                 // fail-stop: replay gap, capacity or an invalid event

  /** History, for the theorems only: `all` is every record the journal accepted, save those
      whose cursors an engine crash made it give out again, which are in `lost`; `onDisk` is
      every event, with its key and cursor, that the entries of the outbox file ever
      replayed to. */
  datatype Sys = Sys(
    journal: J.Journal, all: seq<J.Rec>, lost: set<J.Rec>, broadcasts: seq<J.Rec>, link: Link,
    box: World, loop: Loop, onDisk: set<Held>)

  datatype Action =
    | Produce(event: Event)
    | Broadcast
    | Connect
    | ServeSubscribe
    | Receive
    | Store(choice: Option<string>)
    | Acknowledge
    | Abandon
    | Mark(call: Call)
    | Cut
    | DaemonCrash(during: Call, at: nat, cut: bool) // dies inside an outbox call, as in CallCrash
    | EngineRestart             // the engine stops between two appends and starts again
    | EngineCrash(event: Event) // dies appending `event`: room is made, the record not written

  predicate AlarmEnabled(d: Delivery, p: Phase) {
    match p
    case Start => true
    case Update => d.sendUpdates
    case End => d.sendEnds
    case OtherPhase(_) => false
  }

  ghost function HeldBy(records: map<string, Record>): set<Held> {
    set k | k in records :: Held(k, records[k].event, records[k].cursor)
  }

  /** What the entries of the outbox file replay to. */
  ghost function OnDisk(cfg: Config, w: World): set<Held> {
    match Replay(cfg, w.disk.log) case None => {} case Some(m) => HeldBy(m.records)
  }

  /** The enqueue of the record the daemon has read. */
  function EnqueueCall(u: Setup, r: J.Rec, choice: Option<string>): Call {
    CallEnqueue(r.event, r.cursor, AlarmEnabled(u.delivery, r.event.phase), u.delivery.evidence, choice)
  }

  /** The outbox calls that may be under way, and so be cut short by a crash: the store or
      the acknowledgement that the event loop has come to, a mark, or the opening. */
  ghost predicate UnderWay(u: Setup, s: Sys, c: Call) {
    match c
    case CallEnqueue(_, _, _, _, choice) =>
      && s.loop.Received? && c == EnqueueCall(u, s.loop.rec, choice)
      && IsCoalesceChoice(s.box.mem.records, s.loop.rec.event, choice)
    case CallAck(cursor) => s.loop.Storing? && cursor == s.loop.rec.cursor
    case CallReopen => true
    case CallCrash(_, _, _) => false
    case _ => CallerSafe(s.box.mem.records, c)
  }

  function Notifies(rs: seq<J.Rec>): (ms: seq<Msg>)
    ensures |ms| == |rs| && forall i | 0 <= i < |rs| :: ms[i] == Notify(rs[i])
  {
    seq(|rs|, i requires 0 <= i < |rs| => Notify(rs[i]))
  }

  /** The daemon notices the connection is gone. */
  function Disconnect(s: Sys): Sys { s.(link := Closed, loop := Idle) }

  ghost function DoReceive(s: Sys): Sys {
    if !s.link.Open? || s.link.inFlight == [] then
      (if s.link.Closed? && (s.loop.AwaitReply? || s.loop.Streaming?) then s.(loop := Idle) else s)
    else
      var m, rest := s.link.inFlight[0], s.link.inFlight[1..];
      match (s.loop, m)
      case (AwaitReply, Reply(gap)) =>
        if gap then s.(loop := Stopped, link := Closed) else s.(loop := Streaming, link := Open(rest))
      case (AwaitReply, Notify(_)) => Disconnect(s)
      case (Streaming, Notify(r)) => s.(loop := Received(r), link := Open(rest))
      case (Streaming, Reply(_)) => s.(link := Open(rest))
      case _ => s
  }

  ghost function DoStore(u: Setup, s: Sys, choice: Option<string>): (t: Sys)
    requires SelfKeyed(s.box.mem.records)
    ensures SelfKeyed(t.box.mem.records)
  {
    if !s.loop.Received? || !IsCoalesceChoice(s.box.mem.records, s.loop.rec.event, choice) then s
    else
      var r := s.loop.rec;
      var (w, res) := Enqueue(u.cfg, Begin(s.box), r.event, r.cursor, AlarmEnabled(u.delivery, r.event.phase),
                              u.delivery.evidence, choice);
      var s1 := s.(box := w);
      match res
      case Refused(ErrCapacity) => s1.(loop := Stopped, link := Closed)
      case Refused(ErrInvalidEvent) => s1.(loop := Stopped, link := Closed)
      case Refused(ErrUpdateDropped) => s1.(loop := Storing(r))
      case Refused(_) => Disconnect(s1)
      case _ => s1.(loop := Storing(r))
  }

  ghost function DoAcknowledge(u: Setup, s: Sys): (t: Sys)
    requires SelfKeyed(s.box.mem.records)
    ensures SelfKeyed(t.box.mem.records)
  {
    if !s.loop.Storing? then s
    else
      var (w, st) := Ack(u.cfg, Begin(s.box), s.loop.rec.cursor);
      match st
      case Ok => s.(box := w, loop := Streaming)
      case ErrCapacity => s.(box := w, loop := Stopped, link := Closed)
      case _ => Disconnect(s.(box := w))
  }

  ghost function Act(u: Setup, s: Sys, a: Action): (t: Sys)
    requires SelfKeyed(s.box.mem.records)
    ensures SelfKeyed(t.box.mem.records)
  {
    match a
    case Produce(e) =>
      var (j, r) := J.Append(u.lim, s.journal, e);
      if r.Accepted? then
        var rec := J.Rec(r.cursor, e, u.lim.size(r.cursor, e));
        s.(journal := j, all := s.all + [rec], broadcasts := s.broadcasts + [rec])
      else s.(journal := j)
    case Broadcast =>
      if s.broadcasts == [] then s
      else
        s.(broadcasts := s.broadcasts[1..],
           link := if s.link.Open? then Open(s.link.inFlight + [Notify(s.broadcasts[0])]) else s.link)
    case Connect =>
      if s.loop.Idle? then s.(loop := AwaitReply, link := Requested(s.box.mem.lastAck)) else s
    case ServeSubscribe =>
      if !s.link.Requested? then s
      else
        var snap := J.SnapshotAfter(s.journal.records, s.link.after);
        s.(link := Open([Reply(snap.gap)] + Notifies(snap.records)))
    case Receive => DoReceive(s)
    case Store(choice) => DoStore(u, s, choice)
    case Acknowledge => DoAcknowledge(u, s)
    case Abandon => if s.loop.Storing? then Disconnect(s) else s
    case Mark(c) =>
      if IsMark(c) && CallerSafe(s.box.mem.records, c) then s.(box := MarkCall(u.cfg, Begin(s.box), c).0) else s
    case Cut => s.(link := Closed)
    case DaemonCrash(c, at, cut) =>
      if !UnderWay(u, s, c) then s
      else
        var (w, st) := Step(u.cfg, s.box, CallCrash(c, at, cut));
        if st == Ok then Disconnect(s.(box := w)) else s.(box := w, loop := Stopped, link := Closed)
    case EngineRestart => Restarted(u, s, s.journal.records)
    case EngineCrash(e) => Restarted(u, s, J.RoomMade(u.lim, s.journal, e))
  }

  /** The engine opens its journal on the given file; what it had queued is gone, and so are
      the cursors past the newest one in the file. */
  function Restarted(u: Setup, s: Sys, file: seq<J.Rec>): Sys {
    match J.Reopen(u.lim, file)
    case None => s.(broadcasts := [], link := Closed)
    case Some(j) =>
      var k := if j.nextCursor < |s.all| then j.nextCursor else |s.all|;
      s.(journal := j, all := s.all[..k], lost := s.lost + (set r | r in s.all[k..]), broadcasts := [], link := Closed)
  }

  // ---------- runs ----------

  ghost function Fresh(faults: seq<bool>): Sys {
    Sys(J.Empty(), [], {}, [], Closed, NewStore(faults), Idle, {})
  }

  /** One action, with the disk history kept up to date. */
  ghost function Next(u: Setup, s: Sys, a: Action): (r: Sys)
    requires SelfKeyed(s.box.mem.records)
    ensures SelfKeyed(r.box.mem.records)
  {
    var t := Act(u, s, a);
    t.(onDisk := t.onDisk + OnDisk(u.cfg, t.box))
  }

  /** Where a sequence of actions leads. */
  ghost function Ahead(u: Setup, s: Sys, acts: seq<Action>): (t: Sys)
    requires SelfKeyed(s.box.mem.records)
    ensures SelfKeyed(t.box.mem.records)
  {
    if acts == [] then s else Next(u, Ahead(u, s, acts[..|acts| - 1]), acts[|acts| - 1])
  }
}
