// No START or END is ever acknowledged before it was on the daemon's disk.
module PipelineProofs {
  import opened Common
  import opened EventContract
  import opened OutboxModel
  import opened OutboxSpec
  import opened OutboxProofs
  import opened OutboxCalls
  import opened OutboxCrash
  import opened OutboxOrigin
  import opened OutboxRuns
  import opened Pipeline
  import J = EventJournal

  // ---------- the promise ----------

  /** A record under the key was on the daemon's disk. */
  ghost predicate KeyHeld(onDisk: set<Held>, key: string) { exists h :: h in onDisk && h.key == key }

  /** Every accepted START and END up to the cursor was on the daemon's disk under its key. */
  ghost predicate Covered(u: Setup, s: Sys, cursor: nat) {
    forall r | r in s.all && Boundary(r.event.phase) && r.cursor <= cursor :: KeyHeld(s.onDisk, Key(u.cfg, r.event))
  }

  // ---------- the invariant ----------

  function Records(ms: seq<Msg>): seq<J.Rec> {
    if ms == [] then [] else (if ms[0].Notify? then [ms[0].rec] else []) + Records(ms[1..])
  }

  /** Everything on its way to the outbox, in the order it will get there. */
  function Inbound(s: Sys): seq<J.Rec> {
    (if s.loop.Received? then [s.loop.rec] else []) +
    (if s.link.Open? then Records(s.link.inFlight) + s.broadcasts else [])
  }

  ghost predicate AllFrom(all: seq<J.Rec>, rs: seq<J.Rec>) {
    forall i | 0 <= i < |rs| :: rs[i] in all
  }

  /** No START or END past `f` is overtaken on the way. */
  ghost predicate Ordered(all: seq<J.Rec>, rs: seq<J.Rec>, f: nat) {
    forall i, r | 0 <= i < |rs| && r in all && Boundary(r.event.phase) && f < r.cursor < rs[i].cursor :: r in rs[..i]
  }

  /** Every START and END past `f` is on the way. */
  ghost predicate Total(all: seq<J.Rec>, rs: seq<J.Rec>, f: nat) {
    forall r | r in all && Boundary(r.event.phase) && f < r.cursor :: r in rs
  }

  /** `f` is a frontier: everything up to it is on disk, the rest arrives in order. */
  ghost predicate Frontier(u: Setup, s: Sys, f: nat) {
    && f <= |s.all| && Covered(u, s, f)
    && Ordered(s.all, Inbound(s), f)
    && (s.link.Open? ==> Total(s.all, Inbound(s), f))
  }

  ghost predicate Sound(u: Setup, s: Sys) {
    && J.Keeps(u.lim, s.journal, s.all)
    && Logged(u.cfg, s.box)
    && AllFrom(s.all, s.broadcasts) && AllFrom(s.all, Inbound(s))
    && s.box.mem.lastAck <= |s.all| && Covered(u, s, s.box.mem.lastAck)
    && (s.loop.Storing? ==> s.loop.rec.cursor <= |s.all| && Covered(u, s, s.loop.rec.cursor))
    && (s.link.Requested? ==> s.loop.AwaitReply? && s.link.after <= s.box.mem.lastAck)
    && OnDisk(u.cfg, s.box) <= s.onDisk
    && exists f :: Frontier(u, s, f)
  }

  // ---------- sequences of messages ----------

  lemma Uncons(a: seq<Msg>, b: seq<Msg>)
    requires a != []
    ensures [a[0]] + a[1..] == a && [a[0]] + (a[1..] + b) == a + b
  {
  }

  lemma RecordsCons(m: Msg, ms: seq<Msg>)
    ensures Records([m] + ms) == (if m.Notify? then [m.rec] else []) + Records(ms)
  {
    assert ([m] + ms)[1..] == ms;
  }

  lemma {:induction false} RecordsConcat(a: seq<Msg>, b: seq<Msg>)
    ensures Records(a + b) == Records(a) + Records(b)
  {
    if a == [] {
      assert a + b == b;
    } else {
      RecordsConcat(a[1..], b);
      RecordsCons(a[0], a[1..]);
      RecordsCons(a[0], a[1..] + b);
      Uncons(a, b);
      hide Records;
      Regroup(if a[0].Notify? then [a[0].rec] else [], Records(a[1..]), Records(b));
    }
  }

  lemma {:induction false} RecordsOfNotifies(rs: seq<J.Rec>)
    ensures Records(Notifies(rs)) == rs
  {
    if rs != [] {
      assert Notifies(rs)[1..] == Notifies(rs[1..]);
      RecordsOfNotifies(rs[1..]);
    }
  }

  lemma OrderedTail(all: seq<J.Rec>, rs: seq<J.Rec>, f: nat, g: nat)
    requires rs != [] && Ordered(all, rs, f) && f <= g && rs[0].cursor <= g
    ensures Ordered(all, rs[1..], g)
    ensures Total(all, rs, f) ==> Total(all, rs[1..], g)
  {
    forall i, r | 0 <= i < |rs[1..]| && r in all && Boundary(r.event.phase) && g < r.cursor < rs[1..][i].cursor
      ensures r in rs[1..][..i]
    {
      assert rs[1..][i] == rs[i + 1];
      assert r in rs[..i + 1];
      var k :| 0 <= k < i + 1 && rs[k] == r;
      assert k != 0 && rs[1..][..i][k - 1] == r;
    }
    if Total(all, rs, f) {
      forall r | r in all && Boundary(r.event.phase) && g < r.cursor ensures r in rs[1..] {
        assert r in rs;
        var k :| 0 <= k < |rs| && rs[k] == r;
        assert rs[1..][k - 1] == r;
      }
    }
  }

  lemma OrderedPrefix(all: seq<J.Rec>, rs: seq<J.Rec>, n: nat, f: nat)
    requires n <= |rs| && Ordered(all, rs, f)
    ensures Ordered(all, rs[..n], f)
  {
    forall i, r | 0 <= i < n && r in all && Boundary(r.event.phase) && f < r.cursor < rs[..n][i].cursor
      ensures r in rs[..n][..i]
    {
      assert rs[..n][i] == rs[i] && rs[..n][..i] == rs[..i];
    }
  }

  /** A newly accepted record goes to the back of the line. */
  lemma OrderedSnoc(all: seq<J.Rec>, rs: seq<J.Rec>, f: nat, rec: J.Rec)
    requires Ordered(all, rs, f) && AllFrom(all, rs)
    requires forall r | r in all :: r.cursor < rec.cursor
    ensures Ordered(all + [rec], rs, f)
    ensures Total(all, rs, f) ==> Ordered(all + [rec], rs + [rec], f) && Total(all + [rec], rs + [rec], f)
  {
    forall i, r | 0 <= i < |rs| && r in all + [rec] && Boundary(r.event.phase) && f < r.cursor < rs[i].cursor
      ensures r in rs[..i]
    {
      assert rs[i] in all;
    }
    if Total(all, rs, f) {
      forall i, r | 0 <= i < |rs + [rec]| && r in all + [rec] && Boundary(r.event.phase)
        && f < r.cursor < (rs + [rec])[i].cursor
        ensures r in (rs + [rec])[..i]
      {
        if i < |rs| {
          assert (rs + [rec])[..i] == rs[..i] && rs[i] in all;
        } else {
          assert (rs + [rec])[..i] == rs;
        }
      }
    }
  }

  /** The first record in line has no START or END between it and the frontier. */
  lemma HeadAdvances(all: seq<J.Rec>, rs: seq<J.Rec>, f: nat)
    requires rs != [] && Ordered(all, rs, f)
    ensures forall r | r in all && Boundary(r.event.phase) && f < r.cursor :: r.cursor >= rs[0].cursor
  {
    forall r | r in all && Boundary(r.event.phase) && f < r.cursor
      ensures r.cursor >= rs[0].cursor
    {
      assert rs[..0] == [];
      assert r !in rs[..0];
    }
  }

  // ---------- actions that leave the outbox alone ----------

  /** Without a connection and nothing in hand, the acknowledged cursor is a frontier. */
  lemma QuietSound(u: Setup, s: Sys, t: Sys)
    requires Sound(u, s)
    requires t.all == s.all && s.onDisk <= t.onDisk && J.Keeps(u.lim, t.journal, t.all)
    requires Logged(u.cfg, t.box) && OnDisk(u.cfg, t.box) <= t.onDisk
    requires t.box.mem.lastAck == s.box.mem.lastAck || (s.loop.Storing? && t.box.mem.lastAck == s.loop.rec.cursor)
    requires AllFrom(t.all, t.broadcasts)
    requires !t.link.Open? && (t.link.Requested? ==> t.loop.AwaitReply? && t.link.after <= t.box.mem.lastAck)
    requires !t.loop.Received? && !t.loop.Storing?
    ensures Sound(u, t)
  {
    hide Logged, J.Keeps, OnDisk;
    assert Covered(u, t, t.box.mem.lastAck);
    assert Frontier(u, t, t.box.mem.lastAck);
  }

  /** The daemon has left the connection, its outbox changed or not. */
  lemma DropSound(u: Setup, s: Sys, t: Sys)
    requires Sound(u, s) && Logged(u.cfg, t.box)
    requires t == s.(box := t.box, loop := t.loop, link := Closed, onDisk := t.onDisk)
             && (t.loop.Idle? || t.loop.Stopped?)
    requires s.onDisk <= t.onDisk && OnDisk(u.cfg, t.box) <= t.onDisk
    requires t.box.mem.lastAck == s.box.mem.lastAck || (s.loop.Storing? && t.box.mem.lastAck == s.loop.rec.cursor)
    ensures Sound(u, t)
  {
    hide Logged, J.Keeps, OnDisk, Covered, Frontier, Inbound;
    QuietSound(u, s, t);
  }

  lemma SoundBox(u: Setup, s: Sys)
    requires Sound(u, s)
    ensures Logged(u.cfg, s.box) && Logged(u.cfg, Begin(s.box)) && SelfKeyed(s.box.mem.records)
  {
    Keyed(u.cfg, s.box);
    BeginKeeps(u.cfg, s.box);
  }

  lemma InboundGrows(s: Sys, t: Sys, rec: J.Rec)
    requires t.link == s.link && t.loop == s.loop && t.broadcasts == s.broadcasts + [rec]
    ensures Inbound(t) == if s.link.Open? then Inbound(s) + [rec] else Inbound(s)
  {
    if s.link.Open? {
      var pre := (if s.loop.Received? then [s.loop.rec] else []) + Records(s.link.inFlight);
      assert Inbound(s) == pre + s.broadcasts && Inbound(t) == pre + (s.broadcasts + [rec]);
    }
  }

  lemma NumberedKept(u: Setup, s: Sys)
    requires J.Keeps(u.lim, s.journal, s.all)
    ensures forall r | r in s.all :: 1 <= r.cursor <= |s.all|
  {
    NumberedBelow(s.all);
  }

  lemma AcceptSound(u: Setup, s: Sys, t: Sys, rec: J.Rec)
    requires Sound(u, s) && rec.cursor == |s.all| + 1
    requires t == s.(journal := t.journal, all := s.all + [rec], broadcasts := s.broadcasts + [rec])
    requires J.Keeps(u.lim, t.journal, t.all)
    ensures Sound(u, t)
  {
    hide Logged, J.Keeps, Inbound, OnDisk, Covered, Ordered, Total, AllFrom, Key, J.Numbered;
    NumberedKept(u, s);
    InboundGrows(s, t, rec);
    var f :| Frontier(u, s, f);
    assert Covered(u, t, f) && Covered(u, t, s.box.mem.lastAck) by {
      CoveredGrows(u, s, t, rec, f);
      CoveredGrows(u, s, t, rec, s.box.mem.lastAck);
    }
    if s.loop.Storing? { CoveredGrows(u, s, t, rec, s.loop.rec.cursor); }
    AllFromGrows(s.all, Inbound(s), rec);
    AllFromGrows(s.all, s.broadcasts, rec);
    OrderedSnoc(s.all, Inbound(s), f, rec);
    assert Frontier(u, t, f);
  }

  lemma ProduceSound(u: Setup, s: Sys, e: Event)
    requires Sound(u, s)
    ensures Sound(u, Act(u, s, Produce(e)))
  {
    J.AppendKeeps(u.lim, s.journal, s.all, e);
    var t := Act(u, s, Produce(e));
    if t.all != s.all {
      var rec := t.all[|s.all|];
      assert t.all == s.all + [rec] && t.broadcasts == s.broadcasts + [rec];
      assert rec.cursor == |s.all| + 1;
      hide Sound, J.Keeps, J.Append;
      AcceptSound(u, s, t, rec);
    } else {
      SameSound(u, s, t);
    }
  }

  /** Only the journal's own state differs. */
  lemma SameSound(u: Setup, s: Sys, t: Sys)
    requires Sound(u, s) && t == s.(journal := t.journal) && J.Keeps(u.lim, t.journal, t.all)
    ensures Sound(u, t)
  {
    hide Logged, J.Keeps;
    var f :| Frontier(u, s, f);
    assert Frontier(u, t, f);
  }

  lemma NumberedBelow(all: seq<J.Rec>)
    requires J.Numbered(all)
    ensures forall r | r in all :: 1 <= r.cursor <= |all|
    ensures forall r, q | r in all && q in all && r.cursor == q.cursor :: r == q
  {
  }

  lemma AllFromGrows(all: seq<J.Rec>, rs: seq<J.Rec>, rec: J.Rec)
    requires AllFrom(all, rs)
    ensures AllFrom(all + [rec], rs) && AllFrom(all + [rec], rs + [rec])
  {
  }

  /** A record past the cursor in question changes no promise. */
  lemma CoveredGrows(u: Setup, s: Sys, t: Sys, rec: J.Rec, f: nat)
    requires t.all == s.all + [rec] && t.onDisk == s.onDisk && f < rec.cursor && Covered(u, s, f)
    ensures Covered(u, t, f)
  {
  }

  /** Moving a message along the way changes nothing. */
  lemma SameInboundSound(u: Setup, s: Sys, t: Sys)
    requires Sound(u, s) && Inbound(t) == Inbound(s)
    requires t == s.(link := t.link, loop := t.loop, broadcasts := t.broadcasts)
    requires AllFrom(s.all, t.broadcasts) && (t.link.Open? ==> s.link.Open?)
    requires (t.link.Requested? ==> t.link == s.link && t.loop == s.loop) && !(t.loop.Storing? && t.loop != s.loop)
    ensures Sound(u, t)
  {
    hide Logged, J.Keeps, Inbound, OnDisk, AllFrom;
    var f :| Frontier(u, s, f);
    assert Frontier(u, t, f);
  }

  lemma BroadcastInbound(s: Sys, t: Sys)
    requires s.broadcasts != [] && t.broadcasts == s.broadcasts[1..] && t.loop == s.loop
    requires t.link == if s.link.Open? then Open(s.link.inFlight + [Notify(s.broadcasts[0])]) else s.link
    ensures Inbound(t) == Inbound(s)
  {
    var head := s.broadcasts[0];
    assert s.broadcasts == [head] + t.broadcasts;
    if s.link.Open? {
      RecordsConcat(s.link.inFlight, [Notify(head)]);
      assert Records([Notify(head)]) == [head] by { assert [Notify(head)][1..] == []; }
      assert Records(s.link.inFlight) + s.broadcasts == Records(t.link.inFlight) + t.broadcasts;
    }
  }

  lemma BroadcastSound(u: Setup, s: Sys)
    requires Sound(u, s)
    ensures Sound(u, Act(u, s, Broadcast))
  {
    if s.broadcasts != [] {
      var t := Act(u, s, Broadcast);
      BroadcastInbound(s, t);
      assert AllFrom(s.all, t.broadcasts) by {
        assert forall i | 0 <= i < |t.broadcasts| :: t.broadcasts[i] == s.broadcasts[i + 1];
      }
      hide Sound, Inbound;
      SameInboundSound(u, s, t);
    }
  }

  lemma ConnectSound(u: Setup, s: Sys)
    requires Sound(u, s)
    ensures Sound(u, Act(u, s, Connect))
  {
    if s.loop.Idle? { QuietSound(u, s, Act(u, s, Connect)); }
  }

  /** The subscription answers with every START and END past the cursor, in order. */
  lemma ServeSound(u: Setup, s: Sys)
    requires Sound(u, s)
    ensures Sound(u, Act(u, s, ServeSubscribe))
  {
    hide Logged, J.Keeps, J.After, J.Increasing, Inbound, AllFrom, Ordered, Total, OnDisk, Covered;
    Keyed(u.cfg, s.box);
    if s.link.Requested? {
      var t := Act(u, s, ServeSubscribe);
      var f, sent := s.link.after, J.After(s.journal.records, s.link.after);
      J.ReplaySends(u.lim, s.journal, s.all, f);
      SentInOrder(s.all, sent, s.broadcasts, f);
      ServeInbound(s, t);
      CoveredBelow(u, s, f, s.box.mem.lastAck);
      CoveredCarries(u, s, t);
      assert Frontier(u, t, f);
    }
  }

  lemma CoveredBelow(u: Setup, s: Sys, f: nat, g: nat)
    requires f <= g && Covered(u, s, g)
    ensures Covered(u, s, f)
  {
  }

  lemma ServeInbound(s: Sys, t: Sys)
    requires s.link.Requested? && !t.loop.Received? && t.broadcasts == s.broadcasts
    requires var snap := J.SnapshotAfter(s.journal.records, s.link.after);
             t.link == Open([Reply(snap.gap)] + Notifies(snap.records))
    ensures Inbound(t) == J.After(s.journal.records, s.link.after) + s.broadcasts
  {
    var snap := J.SnapshotAfter(s.journal.records, s.link.after);
    RecordsOfNotifies(snap.records);
    RecordsConcat([Reply(snap.gap)], Notifies(snap.records));
    assert Records([Reply(snap.gap)]) == [] by { assert [Reply(snap.gap)][1..] == []; }
  }

  /** A replay that holds every boundary past `f`, followed by anything, is in order. */
  lemma SentInOrder(all: seq<J.Rec>, sent: seq<J.Rec>, later: seq<J.Rec>, f: nat)
    requires J.Increasing(sent) && AllFrom(all, later)
    requires forall r | r in sent :: r in all && r.cursor > f
    requires forall r | r in all && r.cursor > f && Boundary(r.event.phase) :: r in sent
    ensures AllFrom(all, sent + later) && Ordered(all, sent + later, f) && Total(all, sent + later, f)
  {
    var rs := sent + later;
    forall i, r | 0 <= i < |rs| && r in all && Boundary(r.event.phase) && f < r.cursor < rs[i].cursor
      ensures r in rs[..i]
    {
      assert r in sent;
      var k :| 0 <= k < |sent| && sent[k] == r;
      assert rs[k] == r;
      assert rs[..i][k] == r;
    }
  }

  // ---------- reading ----------

  lemma DisconnectSound(u: Setup, s: Sys)
    requires Sound(u, s)
    ensures Sound(u, Disconnect(s))
  {
    QuietSound(u, s, Disconnect(s));
  }

  lemma ReceiveInbound(s: Sys)
    requires DoReceive(s).link.Open?
    ensures Inbound(DoReceive(s)) == Inbound(s)
  {
    if DoReceive(s) != s {
      var m, rest := s.link.inFlight[0], s.link.inFlight[1..];
      assert s.link.inFlight == [m] + rest;
    }
  }

  lemma ReceiveSound(u: Setup, s: Sys)
    requires Sound(u, s)
    ensures Sound(u, DoReceive(s))
  {
    var t := DoReceive(s);
    hide Logged, J.Keeps, Inbound, Frontier, Covered, OnDisk;
    if t != s {
      if t.link.Open? {
        ReceiveInbound(s);
        SameInboundSound(u, s, t);
      } else {
        QuietSound(u, s, t);
      }
    }
  }

  lemma CutSound(u: Setup, s: Sys)
    requires Sound(u, s)
    ensures Sound(u, Act(u, s, Cut))
  {
    var t := Act(u, s, Cut);
    var f :| Frontier(u, s, f);
    var n := if s.loop.Received? then 1 else 0;
    assert Inbound(t) == Inbound(s)[..n];
    assert AllFrom(t.all, Inbound(t)) by { assert forall i | 0 <= i < n :: Inbound(s)[..n][i] == Inbound(s)[i]; }
    OrderedPrefix(s.all, Inbound(s), n, f);
    hide Logged, J.Keeps, Inbound, Ordered, Covered;
    assert Frontier(u, t, f);
  }

  // ---------- storing and acknowledging ----------

  /** The disk history after a step. */
  ghost function Noted(u: Setup, t: Sys): Sys { t.(onDisk := t.onDisk + OnDisk(u.cfg, t.box)) }

  lemma NotedIs(u: Setup, t: Sys)
    ensures Noted(u, t) == t.(onDisk := Noted(u, t).onDisk)
    ensures t.onDisk <= Noted(u, t).onDisk && OnDisk(u.cfg, t.box) <= Noted(u, t).onDisk
  {
  }

  /** When the daemon moves past a START or END, its key is on disk. */
  lemma StoredKey(u: Setup, s: Sys, choice: Option<string>)
    requires Sound(u, s) && s.loop.Received?
    requires DoStore(u, s, choice).loop.Storing?
    ensures var t := DoStore(u, s, choice);
            && t == s.(box := t.box, loop := Storing(s.loop.rec))
            && Logged(u.cfg, t.box) && t.box.mem.lastAck == s.box.mem.lastAck
            && (Boundary(s.loop.rec.event.phase) ==> KeyHeld(OnDisk(u.cfg, t.box), Key(u.cfg, s.loop.rec.event)))
  {
    hide Enqueue, IsCoalesceChoice, Key, Logged, OnDisk, Covered, Frontier, Inbound, AllFrom, J.Keeps;
    var r := s.loop.rec;
    BeginKeeps(u.cfg, s.box);
    EnqueueSummary(u, Begin(s.box), r, choice);
  }

  /** What the event loop needs to know of an enqueue. */
  lemma EnqueueSummary(u: Setup, w: World, r: J.Rec, choice: Option<string>)
    requires Logged(u.cfg, w) && IsCoalesceChoice(w.mem.records, r.event, choice)
    ensures SelfKeyed(w.mem.records)
    ensures var (w1, res) := Enqueue(u.cfg, w, r.event, r.cursor, AlarmEnabled(u.delivery, r.event.phase),
                                     u.delivery.evidence, choice);
            && Logged(u.cfg, w1) && w1.mem.lastAck == w.mem.lastAck
            && (res.Added? || res.Existing? ==> KeyHeld(OnDisk(u.cfg, w1), Key(u.cfg, r.event)))
            && (res == Refused(ErrUpdateDropped) ==> r.event.phase.Update?)
  {
    hide Enqueue, IsCoalesceChoice, Key, Logged, OnDisk, Grows, Stored;
    var alarm := AlarmEnabled(u.delivery, r.event.phase);
    Keyed(u.cfg, w);
    EnqueueKeeps(u.cfg, w, r.event, r.cursor, alarm, u.delivery.evidence, choice);
    var (w1, res) := Enqueue(u.cfg, w, r.event, r.cursor, alarm, u.delivery.evidence, choice);
    HeldOnDisk(u.cfg, w1, r.event);
    GrowsAck(u.cfg, w, w1, r.event);
  }

  lemma HeldOnDisk(cfg: Config, w: World, e: Event)
    requires Logged(cfg, w)
    ensures Key(cfg, e) in w.mem.records ==> KeyHeld(OnDisk(cfg, w), Key(cfg, e))
    ensures forall cursor: nat | Stored(cfg, w, e, cursor) :: KeyHeld(OnDisk(cfg, w), Key(cfg, e))
  {
    var k := Key(cfg, e);
    hide Key;
    if k in w.mem.records {
      var r := Replay(cfg, w.disk.log).value.records[k];
      assert Held(k, r.event, r.cursor) in OnDisk(cfg, w);
    }
  }

  lemma GrowsAck(cfg: Config, w: World, w1: World, e: Event)
    requires Grows(cfg, w, w1, e)
    ensures w1.mem.lastAck == w.mem.lastAck
  {
  }

  /** The frontier moves past the record in hand. */
  lemma FrontierAdvances(u: Setup, s: Sys, t: Sys, f: nat)
    requires Frontier(u, s, f) && J.Numbered(s.all) && AllFrom(s.all, Inbound(s))
    requires s.loop.Received? && t.loop == Storing(s.loop.rec) && t.all == s.all
    requires t.link == s.link && t.broadcasts == s.broadcasts && s.onDisk <= t.onDisk
    requires Boundary(s.loop.rec.event.phase) ==> KeyHeld(t.onDisk, Key(u.cfg, s.loop.rec.event))
    ensures var g := if f < s.loop.rec.cursor then s.loop.rec.cursor else f;
            Frontier(u, t, g) && s.loop.rec.cursor <= |s.all| && Covered(u, t, s.loop.rec.cursor)
            && AllFrom(s.all, Inbound(t))
  {
    var r := s.loop.rec;
    var g := if f < r.cursor then r.cursor else f;
    var rs := Inbound(s);
    assert rs[0] == r && Inbound(t) == rs[1..];
    NumberedBelow(s.all);
    HeadAdvances(s.all, rs, f);
    OrderedTail(s.all, rs, f, g);
    assert r in s.all;
    assert Covered(u, t, g);
    CoveredBelow(u, t, r.cursor, g);
    assert AllFrom(s.all, rs[1..]) by { assert forall i | 0 <= i < |rs[1..]| :: rs[1..][i] == rs[i + 1]; }
  }

  lemma StoringSound(u: Setup, s: Sys, t: Sys)
    requires Sound(u, s) && s.loop.Received? && Logged(u.cfg, t.box)
    requires t == s.(box := t.box, loop := Storing(s.loop.rec), onDisk := t.onDisk)
    requires s.onDisk <= t.onDisk && OnDisk(u.cfg, t.box) <= t.onDisk
    requires t.box.mem.lastAck == s.box.mem.lastAck
    requires Boundary(s.loop.rec.event.phase) ==> KeyHeld(t.onDisk, Key(u.cfg, s.loop.rec.event))
    ensures Sound(u, t)
  {
    var f :| Frontier(u, s, f);
    hide Frontier, Logged, Inbound, Covered, OnDisk;
    FrontierAdvances(u, s, t, f);
    CoveredAfter(u, s, t, s.box.mem.lastAck);
  }

  lemma StoreSound(u: Setup, s: Sys, choice: Option<string>)
    requires Sound(u, s)
    ensures Sound(u, Noted(u, DoStore(u, s, choice)))
  {
    var t := DoStore(u, s, choice);
    if !s.loop.Received? || !IsCoalesceChoice(s.box.mem.records, s.loop.rec.event, choice) {
      NotedSame(u, s);
    } else if t.loop.Storing? {
      StoredKey(u, s, choice);
      hide Sound, DoStore, Logged, OnDisk, IsCoalesceChoice;
      StoringSound(u, s, Noted(u, t));
    } else {
      RefusedSound(u, s, choice);
    }
  }

  /** An enqueue that the event loop does not get past ends the connection. */
  lemma RefusedShape(u: Setup, s: Sys, choice: Option<string>)
    requires Logged(u.cfg, s.box) && SelfKeyed(s.box.mem.records)
    requires s.loop.Received? && IsCoalesceChoice(s.box.mem.records, s.loop.rec.event, choice)
    requires !DoStore(u, s, choice).loop.Storing?
    ensures var t := DoStore(u, s, choice);
            && t == s.(box := t.box, loop := t.loop, link := Closed) && (t.loop.Idle? || t.loop.Stopped?)
            && Logged(u.cfg, t.box) && t.box.mem.lastAck == s.box.mem.lastAck
  {
    BeginKeeps(u.cfg, s.box);
    hide Enqueue, Logged, IsCoalesceChoice, OnDisk, KeyHeld, Key;
    EnqueueSummary(u, Begin(s.box), s.loop.rec, choice);
  }

  lemma RefusedSound(u: Setup, s: Sys, choice: Option<string>)
    requires Sound(u, s) && s.loop.Received? && IsCoalesceChoice(s.box.mem.records, s.loop.rec.event, choice)
    requires SelfKeyed(s.box.mem.records) && !DoStore(u, s, choice).loop.Storing?
    ensures Sound(u, Noted(u, DoStore(u, s, choice)))
  {
    SoundBox(u, s);
    hide Sound, Logged, IsCoalesceChoice, OnDisk, Noted, DoStore;
    RefusedShape(u, s, choice);
    NotedIs(u, DoStore(u, s, choice));
    DropSound(u, s, Noted(u, DoStore(u, s, choice)));
  }

  lemma NotedSame(u: Setup, s: Sys)
    requires Sound(u, s)
    ensures Noted(u, s) == s
  {
    assert s.onDisk + OnDisk(u.cfg, s.box) == s.onDisk;
  }

  lemma CoveredAfter(u: Setup, s: Sys, t: Sys, f: nat)
    requires t.all == s.all && s.onDisk <= t.onDisk && Covered(u, s, f)
    ensures Covered(u, t, f)
  {
  }

  /** The outbox moved on by itself; the cursor may have reached the record in hand. */
  lemma BoxSound(u: Setup, s: Sys, t: Sys)
    requires Sound(u, s) && Logged(u.cfg, t.box)
    requires t == s.(box := t.box, loop := t.loop, onDisk := t.onDisk)
    requires t.loop == s.loop || (s.loop.Storing? && t.loop.Streaming?)
    requires s.onDisk <= t.onDisk && OnDisk(u.cfg, t.box) <= t.onDisk
    requires t.box.mem.lastAck >= s.box.mem.lastAck
    requires t.box.mem.lastAck == s.box.mem.lastAck || (s.loop.Storing? && t.box.mem.lastAck == s.loop.rec.cursor)
    ensures Sound(u, t)
  {
    hide Logged, J.Keeps, OnDisk;
    var f :| Frontier(u, s, f);
    CoveredAfter(u, s, t, f);
    CoveredAfter(u, s, t, s.box.mem.lastAck);
    if s.loop.Storing? { CoveredAfter(u, s, t, s.loop.rec.cursor); }
    hide Covered;
    assert Inbound(t) == Inbound(s);
    hide Inbound;
    assert Frontier(u, t, f);
  }

  lemma AcknowledgeSound(u: Setup, s: Sys)
    requires Sound(u, s)
    ensures Sound(u, Noted(u, DoAcknowledge(u, s)))
  {
    hide Sound, Ack, Logged, OnDisk, Noted;
    SoundBox(u, s);
    if s.loop.Storing? {
      AckKeeps(u.cfg, Begin(s.box), s.loop.rec.cursor);
      var t := DoAcknowledge(u, s);
      NotedIs(u, t);
      if t.loop.Streaming? { BoxSound(u, s, Noted(u, t)); } else { DropSound(u, s, Noted(u, t)); }
    } else {
      NotedSame(u, s);
    }
  }

  lemma MarkCursor(cfg: Config, w: World, c: Call)
    requires Logged(cfg, w) && IsMark(c) && CallerSafe(w.mem.records, c)
    ensures SelfKeyed(w.mem.records)
    ensures Logged(cfg, MarkCall(cfg, w, c).0) && MarkCall(cfg, w, c).0.mem.lastAck == w.mem.lastAck
  {
    hide Logged, MarkCall, CallerSafe, Exact;
    Keyed(cfg, w);
    MarkKeeps(cfg, w, c);
    AppendKeepsMemory(cfg, w, c);
  }

  lemma MarkSound(u: Setup, s: Sys, c: Call)
    requires Sound(u, s)
    ensures SelfKeyed(s.box.mem.records)
    ensures Sound(u, Noted(u, Act(u, s, Mark(c))))
  {
    SoundBox(u, s);
    hide Sound, MarkCall, Logged, OnDisk, CallerSafe, MarkedRecord, Noted;
    NotedIs(u, Act(u, s, Mark(c)));
    if IsMark(c) && CallerSafe(s.box.mem.records, c) {
      MarkCursor(u.cfg, Begin(s.box), c);
      BoxSound(u, s, Noted(u, Act(u, s, Mark(c))));
    } else {
      NotedSame(u, s);
    }
  }

  /** The cursor a crash leaves is the one before the call, or the one being stored. */
  lemma CrashCursor(u: Setup, s: Sys, c: Call, at: nat, cut: bool)
    requires Logged(u.cfg, s.box) && SelfKeyed(s.box.mem.records) && UnderWay(u, s, c)
    requires RestartOk(u.cfg, s.box, CallCrash(c, at, cut))
    ensures var (w, st) := Step(u.cfg, s.box, CallCrash(c, at, cut));
            && st == Ok && Logged(u.cfg, w)
            && (w.mem.lastAck == s.box.mem.lastAck || (s.loop.Storing? && w.mem.lastAck == s.loop.rec.cursor))
  {
    hide Logged, CallerSafe, IsCoalesceChoice, ChoiceOk, Complete, Less, Exact, UnderWay, Step, CrashFile, RestartOk;
    UnderWayOk(u, s, c, at, cut);
    var call := CallCrash(c, at, cut);
    var via := CrashStep(u.cfg, s.box, call);
    CompleteRestarts(u.cfg, s.box, call);
    CompleteCursor(u, s, c);
    LessCursor(u.cfg, s.box, via);
    ExactLogged(u.cfg, Step(u.cfg, s.box, call).0);
    StateCursor(via, s.box, Complete(u.cfg, Begin(s.box), c).0);
    AgreesCursor(Step(u.cfg, s.box, call).0.mem, via.mem);
    hide SameState, Agrees;
  }

  lemma AgreesCursor(d: Mem, m: Mem)
    requires Agrees(d, m)
    ensures d.lastAck == m.lastAck
  {
  }

  lemma StateCursor(via: World, a: World, b: World)
    ensures SameState(via, a) ==> via.mem.lastAck == a.mem.lastAck
    ensures SameState(via, b) ==> via.mem.lastAck == b.mem.lastAck
  {
  }

  lemma UnderWayOk(u: Setup, s: Sys, c: Call, at: nat, cut: bool)
    requires UnderWay(u, s, c) && SelfKeyed(s.box.mem.records) && RestartOk(u.cfg, s.box, CallCrash(c, at, cut))
    ensures CareTaken(u.cfg, s.box, CallCrash(c, at, cut))
  {
    hide IsCoalesceChoice, RestartOk;
    var rs := s.box.mem.records;
    assert CallerSafe(rs, c) && ChoiceOk(rs, c);
    assert CallerSafe(rs, CallCrash(c, at, cut)) && ChoiceOk(rs, CallCrash(c, at, cut));
  }

  lemma LessCursor(cfg: Config, w: World, via: World)
    ensures Less(cfg, w.mem, via.mem) ==> via.mem.lastAck == w.mem.lastAck
  {
  }

  lemma CompleteCursor(u: Setup, s: Sys, c: Call)
    requires Logged(u.cfg, s.box) && UnderWay(u, s, c) && (Restarts(c) ==> Sealed(s.box.disk))
    ensures SelfKeyed(s.box.mem.records)
    ensures var w := Complete(u.cfg, Begin(s.box), c).0;
            w.mem.lastAck == s.box.mem.lastAck || (s.loop.Storing? && w.mem.lastAck == s.loop.rec.cursor)
  {
    Keyed(u.cfg, s.box);
    BeginKeeps(u.cfg, s.box);
    hide Logged, CallerSafe, Enqueue, Ack, MarkCall, Grows, Stored, IsCoalesceChoice;
    var w := Begin(s.box);
    match c {
      case CallEnqueue(e, cursor, alarm, evidence, choice) =>
        EnqueueKeeps(u.cfg, w, e, cursor, alarm, evidence, choice);
        GrowsAck(u.cfg, w, Complete(u.cfg, w, c).0, e);
      case CallAck(cursor) => AckKeeps(u.cfg, w, cursor);
      case CallReopen => ReopenKeeps(u.cfg, w, w.faults);
      case _ => AppendKeepsMemory(u.cfg, w, c);
    }
  }

  /** The daemon may die before, inside or after any outbox call it has come to. */
  lemma CrashSound(u: Setup, s: Sys, c: Call, at: nat, cut: bool)
    requires Sound(u, s) && SelfKeyed(s.box.mem.records)
    requires UnderWay(u, s, c) ==> RestartOk(u.cfg, s.box, CallCrash(c, at, cut))
    ensures Sound(u, Noted(u, Act(u, s, DaemonCrash(c, at, cut))))
  {
    hide Sound, Step, Logged, OnDisk, UnderWay, Noted, RestartOk;
    SoundBox(u, s);
    NotedIs(u, Act(u, s, DaemonCrash(c, at, cut)));
    if UnderWay(u, s, c) {
      CrashCursor(u, s, c, at, cut);
      var t := Act(u, s, DaemonCrash(c, at, cut));
      DropSound(u, s, Noted(u, t));
    } else {
      NotedSame(u, s);
    }
  }

  // ---------- the engine starts again ----------

  /** The newest cursor the engine comes back with after dying in the append of `e`. */
  function BackAt(u: Setup, s: Sys, e: Event): nat { J.Newest(J.RoomMade(u.lim, s.journal, e)) }

  predicate InHand(s: Sys) { s.loop.Received? || s.loop.Storing? }

  /** The daemon has neither acknowledged nor in hand anything past cursor `k`. */
  predicate Within(s: Sys, k: nat) { s.box.mem.lastAck <= k && (InHand(s) ==> s.loop.rec.cursor <= k) }

  /** What a restart of the engine changes, with the cursors past `k` given up. */
  ghost predicate Resumes(u: Setup, s: Sys, t: Sys, k: nat) {
    && k <= |s.all|
    && t == s.(journal := t.journal, all := s.all[..k], lost := s.lost + (set r | r in s.all[k..]),
               broadcasts := [], link := Closed)
    && J.Keeps(u.lim, t.journal, t.all)
  }

  lemma RestartResumes(u: Setup, s: Sys)
    requires J.Keeps(u.lim, s.journal, s.all) && SelfKeyed(s.box.mem.records)
    ensures var t := Act(u, s, EngineRestart); Resumes(u, s, t, |s.all|) && t.all == s.all && t.lost == s.lost
  {
    J.ReopenSame(u.lim, s.journal, s.all);
    var j := s.journal.(dropped := 0);
    assert J.Keeps(u.lim, j, s.all);
    hide J.Keeps, J.Reopen;
    NothingCut(s);
  }

  lemma NothingCut(s: Sys)
    ensures s.all[..|s.all|] == s.all && s.lost + (set r | r in s.all[|s.all|..]) == s.lost
  {
  }

  /** After a crash in an append the engine gives up UPDATEs alone. */
  lemma CrashResumes(u: Setup, s: Sys, e: Event)
    requires J.Keeps(u.lim, s.journal, s.all) && SelfKeyed(s.box.mem.records)
    ensures var k := BackAt(u, s, e);
            && Resumes(u, s, Act(u, s, EngineCrash(e)), k)
            && (forall i | k <= i < |s.all| :: s.all[i].event.phase.Update?)
            && (k == |s.all| <==> J.KeepsNewest(u.lim, s.journal, e))
  {
    hide J.Keeps, J.Reopen, J.RoomMade, J.KeepsNewest;
    J.CrashKeepsIff(u.lim, s.journal, s.all, e);
  }

  lemma NumberedCut(all: seq<J.Rec>, k: nat)
    requires J.Numbered(all) && k <= |all|
    ensures forall r | r in all[..k] :: r in all && r.cursor <= k
    ensures forall r | r in all && r.cursor <= k :: r in all[..k]
    ensures forall r | r in all && r.cursor > k :: r in all[k..]
    ensures forall r | r in all[k..] :: r in all && r.cursor > k
  {
    forall r | r in all && r.cursor <= k ensures r in all[..k] {
      var i :| 0 <= i < |all| && all[i] == r;
      assert all[..k][i] == r;
    }
    forall r | r in all && r.cursor > k ensures r in all[k..] {
      var i :| 0 <= i < |all| && all[i] == r;
      assert all[k..][i - k] == r;
    }
    forall r | r in all[k..] ensures r in all && r.cursor > k {
      var i :| 0 <= i < |all[k..]| && all[k..][i] == r;
      assert all[k + i] == r;
    }
  }

  lemma KeepsNumbered(u: Setup, s: Sys)
    requires J.Keeps(u.lim, s.journal, s.all)
    ensures J.Numbered(s.all)
  {
  }

  lemma CoveredCut(u: Setup, s: Sys, t: Sys, k: nat, c: nat)
    requires J.Numbered(s.all) && k <= |s.all| && t.all == s.all[..k] && t.onDisk == s.onDisk && Covered(u, s, c)
    ensures Covered(u, t, c)
  {
    NumberedCut(s.all, k);
    hide J.Numbered, Key;
  }

  /** With no connection left, all that is on its way is the record in hand. */
  lemma ClosedInbound(t: Sys)
    requires t.link.Closed?
    ensures Inbound(t) == if t.loop.Received? then [t.loop.rec] else []
  {
  }

  lemma HandFrom(u: Setup, s: Sys)
    requires AllFrom(s.all, Inbound(s)) && s.loop.Received?
    ensures s.loop.rec in s.all
  {
    assert Inbound(s)[0] == s.loop.rec;
  }

  /** No START or END lies between the frontier and the record in hand, so none does between
      the frontier, moved back to `k`, and that record. */
  lemma FrontierCut(u: Setup, s: Sys, t: Sys, k: nat, f: nat)
    requires Frontier(u, s, f) && Resumes(u, s, t, k) && J.Numbered(s.all)
    ensures exists g :: Frontier(u, t, g)
  {
    var g := if f <= k then f else k;
    NumberedCut(s.all, k);
    CoveredCut(u, s, t, k, f);
    CoveredBelow(u, t, g, f);
    ClosedInbound(t);
    hide Covered, J.Keeps, J.Numbered;
    if s.loop.Received? {
      assert Inbound(s)[0] == s.loop.rec;
      assert Inbound(s)[..0] == [];
      assert Ordered(t.all, Inbound(t), g);
    }
    assert Frontier(u, t, g);
  }

  lemma SoundParts(u: Setup, s: Sys)
    requires Sound(u, s)
    ensures J.Keeps(u.lim, s.journal, s.all) && J.Numbered(s.all) && AllFrom(s.all, Inbound(s))
    ensures s.loop.Storing? ==> Covered(u, s, s.loop.rec.cursor)
    ensures Covered(u, s, s.box.mem.lastAck) && OnDisk(u.cfg, s.box) <= s.onDisk && Logged(u.cfg, s.box)
    ensures exists f :: Frontier(u, s, f)
  {
  }

  /** The engine starts again with the cursors up to `k`: the promise stands exactly when the
      daemon is not past them. */
  lemma ResumedSoundIff(u: Setup, s: Sys, t: Sys, k: nat)
    requires Sound(u, s) && Resumes(u, s, t, k)
    ensures Sound(u, t) <==> Within(s, k)
  {
    hide Sound, Resumes, Within;
    if Within(s, k) { ResumedSound(u, s, t, k); }
    if Sound(u, t) { ResumedWithin(u, s, t, k); }
  }

  lemma ResumedSound(u: Setup, s: Sys, t: Sys, k: nat)
    requires Sound(u, s) && Resumes(u, s, t, k) && Within(s, k)
    ensures Sound(u, t)
  {
    hide Logged, J.Keeps, OnDisk, Inbound, Frontier, Covered, J.Numbered;
    SoundParts(u, s);
    var f :| Frontier(u, s, f);
    FrontierCut(u, s, t, k, f);
    NumberedCut(s.all, k);
    ClosedInbound(t);
    CoveredCut(u, s, t, k, s.box.mem.lastAck);
    if s.loop.Storing? { CoveredCut(u, s, t, k, s.loop.rec.cursor); }
    if s.loop.Received? { HandFrom(u, s); }
  }

  lemma ResumedWithin(u: Setup, s: Sys, t: Sys, k: nat)
    requires Sound(u, s) && Resumes(u, s, t, k) && Sound(u, t)
    ensures Within(s, k)
  {
    hide Logged, J.Keeps, OnDisk, Inbound, Frontier, Covered, J.Numbered;
    SoundParts(u, s);
    NumberedCut(s.all, k);
    if s.loop.Received? { HandFrom(u, t); }
  }

  lemma WithinAll(u: Setup, s: Sys)
    requires Sound(u, s)
    ensures Within(s, |s.all|)
  {
    SoundParts(u, s);
    if s.loop.Received? { HandFrom(u, s); NumberedBelow(s.all); }
    hide Logged, J.Keeps, OnDisk, Inbound, Frontier, Covered;
  }

  lemma RestartSound(u: Setup, s: Sys)
    requires Sound(u, s) && SelfKeyed(s.box.mem.records)
    ensures Sound(u, Act(u, s, EngineRestart))
  {
    hide Sound, J.Keeps;
    SoundParts(u, s);
    WithinAll(u, s);
    RestartResumes(u, s);
    ResumedSoundIff(u, s, Act(u, s, EngineRestart), |s.all|);
  }

  /** The engine dies after an append has made room: the promise stands exactly when the
      daemon is not ahead of what the journal then holds. */
  lemma EngineCrashSoundIff(u: Setup, s: Sys, e: Event)
    requires Sound(u, s) && SelfKeyed(s.box.mem.records)
    ensures Sound(u, Act(u, s, EngineCrash(e))) <==> Within(s, BackAt(u, s, e))
  {
    hide Sound, J.Keeps, J.RoomMade, J.KeepsNewest;
    SoundParts(u, s);
    CrashResumes(u, s, e);
    ResumedSoundIff(u, s, Act(u, s, EngineCrash(e)), BackAt(u, s, e));
  }

  lemma CoveredCarries(u: Setup, s: Sys, t: Sys)
    requires t.all == s.all && t.onDisk == s.onDisk
    ensures forall c: nat | Covered(u, s, c) :: Covered(u, t, c)
  {
  }

  // ---------- every action, every run ----------

  /** A daemon crash leaves a file without a shared line for the restart. */
  ghost predicate Loadable(u: Setup, s: Sys, a: Action)
    requires SelfKeyed(s.box.mem.records)
  {
    a.DaemonCrash? && UnderWay(u, s, a.during) ==> RestartOk(u.cfg, s.box, CallCrash(a.during, a.at, a.cut))
  }

  /** And an engine crash a journal that the daemon is not ahead of. */
  ghost predicate Spared(u: Setup, s: Sys, a: Action)
    requires SelfKeyed(s.box.mem.records)
  {
    Loadable(u, s, a) && (a.EngineCrash? ==> Within(s, BackAt(u, s, a.event)))
  }

  lemma NextSound(u: Setup, s: Sys, a: Action)
    requires Sound(u, s) && SelfKeyed(s.box.mem.records) && Spared(u, s, a)
    ensures Sound(u, Next(u, s, a))
  {
    hide Sound, J.Keeps, Logged, Covered, Frontier, Inbound, AllFrom, UnderWay, RestartOk, J.RoomMade;
    match a {
      case Produce(e) => ProduceSound(u, s, e);
      case Broadcast => BroadcastSound(u, s);
      case Connect => ConnectSound(u, s);
      case ServeSubscribe => ServeSound(u, s);
      case Receive => ReceiveSound(u, s);
      case Store(choice) => StoreSound(u, s, choice);
      case Acknowledge => AcknowledgeSound(u, s);
      case Abandon => DisconnectSound(u, s);
      case Mark(c) => MarkSound(u, s, c);
      case Cut => CutSound(u, s);
      case DaemonCrash(c, at, cut) => CrashSound(u, s, c, at, cut);
      case EngineRestart => RestartSound(u, s);
      case EngineCrash(e) => EngineCrashSoundIff(u, s, e);
    }
    var t := Act(u, s, a);
    if Sound(u, t) { NotedSame(u, t); }
    assert Next(u, s, a) == Noted(u, t);
  }

  /** A run of the two processes from a fresh start, whichever compactions fail in it. */
  ghost predicate IsRun(u: Setup, ss: seq<Sys>, acts: seq<Action>) {
    && |ss| == |acts| + 1
    && (exists faults :: ss[0] == Fresh(faults))
    && forall i | 0 <= i < |acts| :: SelfKeyed(ss[i].box.mem.records) && ss[i + 1] == Next(u, ss[i], acts[i])
  }

  lemma NothingOnDisk(cfg: Config, w: World)
    requires w.disk.log == []
    ensures OnDisk(cfg, w) == {}
  {
  }

  lemma StartSound(u: Setup, faults: seq<bool>)
    ensures Sound(u, Fresh(faults))
  {
    hide J.Keeps, Logged, Key, Exact, J.Numbered, J.Retained;
    var s := Fresh(faults);
    J.StartKeeps(u.lim);
    EmptyExact(u.cfg, faults);
    ExactLogged(u.cfg, s.box);
    NothingOnDisk(u.cfg, s.box);
    assert Frontier(u, s, 0);
  }

  /** The run so far has been spared. */
  ghost predicate SparedRun(u: Setup, ss: seq<Sys>, acts: seq<Action>)
    requires IsRun(u, ss, acts)
  {
    forall i | 0 <= i < |acts| :: Spared(u, ss[i], acts[i])
  }

  // ---------- what gets on the disk ----------

  /** Every record the journal ever accepted. */
  ghost function Ever(s: Sys): set<J.Rec> { (set r | r in s.all) + s.lost }

  /** The accepted records as the outbox would hold them. */
  ghost function Accepted(u: Setup, rs: set<J.Rec>): set<Held> {
    set r | r in rs :: Held(Key(u.cfg, r.event), r.event, r.cursor)
  }

  /** Nothing but accepted records was ever on the daemon's disk, and none was given up
      that is not an UPDATE. */
  ghost predicate Genuine(u: Setup, s: Sys) {
    s.onDisk <= Accepted(u, Ever(s)) && forall r | r in s.lost :: r.event.phase.Update?
  }

  /** No action takes a record out of history, and only an engine crash gives one up. */
  lemma EverGrows(u: Setup, s: Sys, a: Action)
    requires SelfKeyed(s.box.mem.records) && J.Keeps(u.lim, s.journal, s.all)
    ensures var t := Act(u, s, a);
            && Ever(s) <= Ever(t)
            && forall r | r in t.lost :: r in s.lost || r.event.phase.Update?
  {
    hide Enqueue, Ack, Step, UnderWay, MarkCall, IsCoalesceChoice, J.Append, J.Keeps, Restarted, J.RoomMade;
    var t := Act(u, s, a);
    if a.EngineCrash? {
      CrashResumes(u, s, a.event);
      ResumesEver(u, s, t, BackAt(u, s, a.event));
    } else if a.EngineRestart? {
      RestartResumes(u, s);
      ResumesEver(u, s, t, |s.all|);
    } else {
      assert t.lost == s.lost;
      assert s.all <= t.all;
    }
  }

  lemma ResumesEver(u: Setup, s: Sys, t: Sys, k: nat)
    requires Resumes(u, s, t, k)
    ensures Ever(t) == Ever(s)
    ensures (forall i | k <= i < |s.all| :: s.all[i].event.phase.Update?) ==>
              forall r | r in t.lost :: r in s.lost || r.event.phase.Update?
  {
    hide J.Keeps;
    assert s.all == s.all[..k] + s.all[k..];
  }

  lemma OnDiskFrom(cfg: Config, p: set<Held>, w: World)
    requires Logged(cfg, w)
    ensures FileFrom(cfg, p, w.disk) <==> OnDisk(cfg, w) <= p
  {
    hide Logged, Replay;
    if Replay(cfg, w.disk.log).Some? {
      var records := Replay(cfg, w.disk.log).value.records;
      assert forall k | k in records :: Held(k, records[k].event, records[k].cursor) in HeldBy(records);
    }
  }

  /** The outbox call an action makes, if it makes one. */
  ghost function CallOf(u: Setup, s: Sys, a: Action): Option<Call> {
    match a
    case Store(choice) =>
      if s.loop.Received? && IsCoalesceChoice(s.box.mem.records, s.loop.rec.event, choice)
      then Some(EnqueueCall(u, s.loop.rec, choice)) else None
    case Acknowledge => if s.loop.Storing? then Some(CallAck(s.loop.rec.cursor)) else None
    case Mark(c) => if IsMark(c) && CallerSafe(s.box.mem.records, c) then Some(c) else None
    case DaemonCrash(c, at, cut) => if UnderWay(u, s, c) then Some(CallCrash(c, at, cut)) else None
    case _ => None
  }

  lemma ActIsStep(u: Setup, s: Sys, a: Action)
    requires SelfKeyed(s.box.mem.records)
    ensures match CallOf(u, s, a)
            case None => Act(u, s, a).box == s.box
            case Some(c) =>
              && Act(u, s, a).box == Step(u.cfg, s.box, c).0
              && (Loadable(u, s, a) ==> CareTaken(u.cfg, s.box, c))
  {
    hide Enqueue, Ack, MarkCall, IsCoalesceChoice, Restart, CrashFile, RestartOk, J.Append, J.Reopen, J.RoomMade,
      J.SnapshotAfter, UnderWay;
    var c := CallOf(u, s, a);
    if a.DaemonCrash? {
      if c.Some? && Loadable(u, s, a) { UnderWayOk(u, s, a.during, a.at, a.cut); }
    } else if c.Some? {
      NoRestart(u, s, c.value);
    }
  }

  lemma NoRestart(u: Setup, s: Sys, c: Call)
    requires SelfKeyed(s.box.mem.records) && !Restarts(c)
    ensures RestartOk(u.cfg, s.box, c)
  {
  }

  /** Whatever an action does to the outbox: its entries still replay, its cursor does not move
      back, and its file gains nothing but the event being stored. */
  lemma BoxKeeps(u: Setup, s: Sys, a: Action, p: set<Held>)
    requires Logged(u.cfg, s.box) && SelfKeyed(s.box.mem.records) && Loadable(u, s, a) && OnDisk(u.cfg, s.box) <= p
    requires CallOf(u, s, a).Some? ==> BringsFrom(u.cfg, p, CallOf(u, s, a).value)
    ensures var t := Act(u, s, a);
            && Logged(u.cfg, t.box) && t.box.mem.lastAck >= s.box.mem.lastAck && OnDisk(u.cfg, t.box) <= p
  {
    hide Logged, OnDisk, Act, CallOf, BringsFrom, Step, FileFrom, CallerSafe, ChoiceOk, RestartOk, Loadable;
    ActIsStep(u, s, a);
    var (c, t) := (CallOf(u, s, a), Act(u, s, a));
    OnDiskFrom(u.cfg, p, s.box);
    if c.Some? {
      SafeClean(u.cfg, s.box, c.value);
      StepLoggedIff(u.cfg, s.box, c.value);
      StepAckMonotone(u.cfg, s.box, c.value);
      StepFrom(u.cfg, p, s.box, c.value);
      FromMem(u.cfg, p, t.box);
      OnDiskFrom(u.cfg, p, t.box);
    }
  }

  lemma CallBrings(u: Setup, s: Sys, a: Action)
    requires AllFrom(s.all, Inbound(s))
    ensures CallOf(u, s, a).Some? ==> BringsFrom(u.cfg, Accepted(u, Ever(s)), CallOf(u, s, a).value)
  {
    if s.loop.Received? { HandFrom(u, s); }
    hide Key, IsCoalesceChoice, CallerSafe, Inbound;
  }

  /** Nothing gets on the daemon's disk but events the journal accepted, under their keys
      and with their cursors, and the journal gives up UPDATEs alone. */
  lemma NextGenuine(u: Setup, s: Sys, a: Action)
    requires Sound(u, s) && Genuine(u, s) && SelfKeyed(s.box.mem.records) && Spared(u, s, a)
    ensures Genuine(u, Next(u, s, a))
  {
    hide Sound, Logged, J.Keeps, Inbound, AllFrom, Accepted, OnDisk, Act, CallOf, BringsFrom, Ever, Within, BackAt;
    SoundParts(u, s);
    var (p, t) := (Accepted(u, Ever(s)), Act(u, s, a));
    EverGrows(u, s, a);
    AcceptedGrows(u, Ever(s), Ever(t));
    CallBrings(u, s, a);
    GenuineDisk(u, s);
    SparedLoadable(u, s, a);
    BoxKeeps(u, s, a, p);
    OnlyHistory(u, s, a);
    hide UnderWay, RestartOk;
    EverSame(t, Next(u, s, a));
  }

  lemma GenuineDisk(u: Setup, s: Sys)
    requires Genuine(u, s) && OnDisk(u.cfg, s.box) <= s.onDisk
    ensures OnDisk(u.cfg, s.box) <= Accepted(u, Ever(s))
  {
  }

  lemma AcceptedGrows(u: Setup, a: set<J.Rec>, b: set<J.Rec>)
    requires a <= b
    ensures Accepted(u, a) <= Accepted(u, b)
  {
  }

  lemma EverSame(s: Sys, t: Sys)
    requires s.all == t.all && s.lost == t.lost
    ensures Ever(s) == Ever(t)
  {
  }

  lemma SparedLoadable(u: Setup, s: Sys, a: Action)
    requires SelfKeyed(s.box.mem.records) && Spared(u, s, a)
    ensures Loadable(u, s, a)
  {
  }

  lemma OnlyHistory(u: Setup, s: Sys, a: Action)
    requires SelfKeyed(s.box.mem.records)
    ensures var t := Act(u, s, a);
            && Next(u, s, a) == t.(onDisk := s.onDisk + OnDisk(u.cfg, t.box)) && t.onDisk == s.onDisk
  {
    hide Enqueue, Ack, MarkCall, IsCoalesceChoice, Step, J.Append, J.Reopen, J.RoomMade, J.SnapshotAfter, OnDisk;
  }

  lemma RunStep(u: Setup, ss: seq<Sys>, acts: seq<Action>, i: nat) returns (s: Sys, a: Action)
    requires IsRun(u, ss, acts) && SparedRun(u, ss, acts) && 0 < i < |ss|
    ensures s == ss[i - 1] && SelfKeyed(s.box.mem.records) && ss[i] == Next(u, s, a) && Spared(u, s, a)
  {
    hide Next, Spared;
    s, a := ss[i - 1], acts[i - 1];
  }

  lemma RunStart(u: Setup, ss: seq<Sys>, acts: seq<Action>)
    requires IsRun(u, ss, acts)
    ensures |ss| == |acts| + 1 && Sound(u, ss[0]) && Genuine(u, ss[0])
  {
    hide Next, Sound;
    var faults :| ss[0] == Fresh(faults);
    StartSound(u, faults);
  }

  /** The invariant holds along every such run, and nothing but accepted records gets on
      the daemon's disk. */
  lemma {:induction false} RunSound(u: Setup, ss: seq<Sys>, acts: seq<Action>, i: nat)
    requires IsRun(u, ss, acts) && SparedRun(u, ss, acts) && i < |ss|
    ensures Sound(u, ss[i]) && Genuine(u, ss[i])
    decreases i
  {
    hide *;
    RunStart(u, ss, acts);
    if i > 0 {
      RunSound(u, ss, acts, i - 1);
      var s, a := RunStep(u, ss, acts, i);
      NextSound(u, s, a);
      NextGenuine(u, s, a);
    }
  }

  lemma EverBoundary(u: Setup, s: Sys, r: J.Rec)
    requires Genuine(u, s) && r in Ever(s) && Boundary(r.event.phase)
    ensures r in s.all
  {
    hide Accepted;
  }

  lemma HeldUpTo(u: Setup, s: Sys, r: J.Rec)
    requires Sound(u, s) && r in s.all && Boundary(r.event.phase) && r.cursor <= s.box.mem.lastAck
    ensures KeyHeld(s.onDisk, Key(u.cfg, r.event)) && Logged(u.cfg, s.box)
  {
    hide Logged, J.Keeps, Frontier, Inbound, AllFrom, KeyHeld, Key;
  }

  /** End to end: at every moment of a run in which the connection breaks wherever it likes,
      compactions fail, the daemon dies inside any outbox call that leaves it a file without a
      shared line, and the engine dies inside any append that leaves it a journal the daemon
      is not ahead of: each START and END the journal ever accepted with a cursor at or below
      the acknowledged one has been written to the daemon's disk under its key, and the
      entries of the outbox file still replay to the outbox in memory. */
  lemma NoBoundaryLost(u: Setup, ss: seq<Sys>, acts: seq<Action>, i: nat, r: J.Rec)
    requires IsRun(u, ss, acts) && SparedRun(u, ss, acts) && i < |ss|
    requires r in Ever(ss[i]) && Boundary(r.event.phase) && r.cursor <= ss[i].box.mem.lastAck
    ensures KeyHeld(ss[i].onDisk, Key(u.cfg, r.event))
    ensures Logged(u.cfg, ss[i].box)
  {
    hide *;
    RunSound(u, ss, acts, i);
    EverBoundary(u, ss[i], r);
    HeldUpTo(u, ss[i], r);
  }

  /** And when no two accepted events share a key, the event itself has been on the disk,
      with its cursor. */
  lemma NoBoundaryEventLost(u: Setup, ss: seq<Sys>, acts: seq<Action>, i: nat, r: J.Rec)
    requires IsRun(u, ss, acts) && SparedRun(u, ss, acts) && i < |ss|
    requires r in Ever(ss[i]) && Boundary(r.event.phase) && r.cursor <= ss[i].box.mem.lastAck
    requires forall q | q in Ever(ss[i]) && Key(u.cfg, q.event) == Key(u.cfg, r.event) :: q == r
    ensures Held(Key(u.cfg, r.event), r.event, r.cursor) in ss[i].onDisk
  {
    RunSound(u, ss, acts, i);
    NoBoundaryLost(u, ss, acts, i, r);
    hide IsRun, SparedRun, Key, Logged, Ever;
    var h :| h in ss[i].onDisk && h.key == Key(u.cfg, r.event);
    assert h in Accepted(u, Ever(ss[i]));
  }
}
