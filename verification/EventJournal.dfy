// The producer's event journal: a bounded queue of records mirrored in a file.
// START and END are never evicted; the oldest UPDATEs make room.
module EventJournal {
  import opened Common
  import opened EventContract

  const CURSOR_MAX: nat := 0xFFFF_FFFF_FFFF_FFFF

  datatype Rec = Rec(cursor: nat, event: Event, bytes: nat)

  /** Limits, and the length of an encoded record line, newline included. */
  datatype Limits = Limits(maxRecords: nat, maxBytes: nat, size: (nat, Event) -> nat)

  datatype Journal = Journal(records: seq<Rec>, bytes: nat, nextCursor: nat, dropped: nat)

  datatype AppendResult = Accepted(cursor: nat) | UpdateDropped | JournalFull | BadPhase | CursorsExhausted

  function Empty(): Journal { Journal([], 0, 0, 0) }

  function Sum(s: seq<Rec>): nat {
    if s == [] then 0 else Sum(s[..|s| - 1]) + s[|s| - 1].bytes
  }

  // ---------- eviction ----------

  /** Both limits hold with `slots` more records of `incoming` bytes in all. */
  predicate Fits(lim: Limits, keep: seq<Rec>, slots: nat, incoming: nat) {
    |keep| + slots <= lim.maxRecords && Sum(keep) + incoming <= lim.maxBytes
  }

  /** Index of the oldest UPDATE, or the length. */
  function OldestUpdate(s: seq<Rec>): (i: nat)
    ensures i <= |s| && (i < |s| ==> s[i].event.phase.Update?)
    ensures forall j | 0 <= j < i :: !s[j].event.phase.Update?
  {
    if s == [] || s[0].event.phase.Update? then 0 else 1 + OldestUpdate(s[1..])
  }

  function RemoveAt(s: seq<Rec>, i: nat): seq<Rec>
    requires i < |s|
  {
    s[..i] + s[i + 1..]
  }

  /** Drop oldest UPDATEs until the limits hold. */
  function Evict(lim: Limits, keep: seq<Rec>, slots: nat, incoming: nat): Option<seq<Rec>>
    decreases |keep|
  {
    if Fits(lim, keep, slots, incoming) then Some(keep)
    else
      var i := OldestUpdate(keep);
      if i == |keep| then None else Evict(lim, RemoveAt(keep, i), slots, incoming)
  }

  function Append(lim: Limits, j: Journal, e: Event): (Journal, AppendResult) {
    if !KnownPhase(e.phase) then (j, BadPhase)
    else if j.nextCursor >= CURSOR_MAX then (j, CursorsExhausted)
    else
      var cursor := j.nextCursor + 1;
      var n := lim.size(cursor, e);
      match Evict(lim, j.records, 1, n)
      case None => if e.phase.Update? then (j.(dropped := j.dropped + 1), UpdateDropped) else (j, JournalFull)
      case Some(keep) =>
        (Journal(keep + [Rec(cursor, e, n)], Sum(keep) + n, cursor, j.dropped), Accepted(cursor))
  }

  lemma AppendAccepts(lim: Limits, j: Journal, e: Event, keep: seq<Rec>)
    requires KnownPhase(e.phase) && j.nextCursor < CURSOR_MAX
    requires Evict(lim, j.records, 1, lim.size(j.nextCursor + 1, e)) == Some(keep)
    ensures var cursor := j.nextCursor + 1;
            var n := lim.size(cursor, e);
            Append(lim, j, e) ==
            (Journal(keep + [Rec(cursor, e, n)], Sum(keep) + n, cursor, j.dropped), Accepted(cursor))
  {
  }

  /** An append brings in its own record and no other. */
  lemma AppendAdds(lim: Limits, j: Journal, e: Event)
    ensures var (j1, r) := Append(lim, j, e);
            forall q | q in j1.records :: q in j.records || (r.Accepted? && q.cursor == r.cursor == j.nextCursor + 1)
  {
    EvictFrom(lim, j.records, 1, lim.size(j.nextCursor + 1, e));
    hide Evict, Sum;
  }

  lemma {:induction false} EvictFrom(lim: Limits, s: seq<Rec>, slots: nat, incoming: nat)
    ensures Evict(lim, s, slots, incoming).Some? ==>
              forall r | r in Evict(lim, s, slots, incoming).value :: r in s
    decreases |s|
  {
    hide Fits;
    if !Fits(lim, s, slots, incoming) && OldestUpdate(s) < |s| {
      EvictFrom(lim, RemoveAt(s, OldestUpdate(s)), slots, incoming);
    }
  }

  lemma AppendRefuses(lim: Limits, j: Journal, e: Event)
    requires KnownPhase(e.phase) && j.nextCursor < CURSOR_MAX
    requires Evict(lim, j.records, 1, lim.size(j.nextCursor + 1, e)).None?
    ensures Append(lim, j, e) ==
            if e.phase.Update? then (j.(dropped := j.dropped + 1), UpdateDropped) else (j, JournalFull)
  {
  }

  /** Open the journal over the records recovered from its file. */
  function Reopen(lim: Limits, lines: seq<Rec>): Option<Journal> {
    match Evict(lim, lines, 0, 0)
    case None => None
    case Some(keep) =>
      Some(Journal(keep, Sum(keep), if lines == [] then 0 else lines[|lines| - 1].cursor, 0))
  }

  // ---------- the retention policy, stated on its own ----------

  function Boundaries(s: seq<Rec>): seq<Rec> {
    if s == [] then []
    else Boundaries(s[..|s| - 1]) + (if s[|s| - 1].event.phase.Update? then [] else [s[|s| - 1]])
  }

  function Updates(s: seq<Rec>): seq<Rec> {
    if s == [] then []
    else Updates(s[..|s| - 1]) + (if s[|s| - 1].event.phase.Update? then [s[|s| - 1]] else [])
  }

  /** `all` with its `n` oldest UPDATEs left out and everything else in order. */
  function DropOldest(all: seq<Rec>, n: nat): seq<Rec> {
    if all == [] then []
    else if n > 0 && all[0].event.phase.Update? then DropOldest(all[1..], n - 1)
    else [all[0]] + DropOldest(all[1..], n)
  }

  lemma UpdatesSnoc(s: seq<Rec>, r: Rec)
    ensures Updates(s + [r]) == Updates(s) + if r.event.phase.Update? then [r] else []
    ensures Boundaries(s + [r]) == Boundaries(s) + if r.event.phase.Update? then [] else [r]
    ensures Sum(s + [r]) == Sum(s) + r.bytes
  {
    assert (s + [r])[..|s|] == s;
  }

  lemma {:induction false} UpdatesConcat(a: seq<Rec>, b: seq<Rec>)
    ensures Updates(a + b) == Updates(a) + Updates(b)
    ensures Boundaries(a + b) == Boundaries(a) + Boundaries(b)
    ensures Sum(a + b) == Sum(a) + Sum(b)
  {
    if b == [] {
      assert a + b == a;
    } else {
      var front, r := b[..|b| - 1], b[|b| - 1];
      UpdatesConcat(a, front);
      UpdatesSnoc(a + front, r);
      assert a + b == (a + front) + [r];
    }
  }

  lemma {:induction false} DropNone(all: seq<Rec>)
    ensures DropOldest(all, 0) == all
  {
    if all != [] { DropNone(all[1..]); }
  }

  lemma DropHead(all: seq<Rec>, n: nat)
    requires all != []
    ensures DropOldest(all, n) ==
            if n > 0 && all[0].event.phase.Update? then DropOldest(all[1..], n - 1)
            else [all[0]] + DropOldest(all[1..], n)
  {
  }

  lemma NoUpdates()
    ensures Updates([]) == [] && Boundaries([]) == []
  {
  }

  lemma UpdatesHead(s: seq<Rec>)
    requires s != []
    ensures Updates(s) == (if s[0].event.phase.Update? then [s[0]] else []) + Updates(s[1..])
    ensures Boundaries(s) == (if s[0].event.phase.Update? then [] else [s[0]]) + Boundaries(s[1..])
  {
    UpdatesConcat([s[0]], s[1..]);
    UpdatesSnoc([], s[0]);
    assert [] + [s[0]] == [s[0]] && [s[0]] + s[1..] == s;
  }

  lemma UpdatesCons(r: Rec, s: seq<Rec>)
    ensures Updates([r] + s) == (if r.event.phase.Update? then [r] else []) + Updates(s)
    ensures Boundaries([r] + s) == (if r.event.phase.Update? then [] else [r]) + Boundaries(s)
  {
    UpdatesHead([r] + s);
    assert ([r] + s)[1..] == s;
  }

  /** What the policy means: every START and END stays, and of the UPDATEs a suffix. */
  lemma {:induction false} DropOldestMeans(all: seq<Rec>, n: nat)
    requires n <= |Updates(all)|
    ensures Boundaries(DropOldest(all, n)) == Boundaries(all)
    ensures Updates(DropOldest(all, n)) == Updates(all)[n..]
  {
    hide Updates, Boundaries, DropOldest;
    if all == [] {
      DropNone(all);
      NoUpdates();
    } else {
      UpdatesHead(all);
      DropHead(all, n);
      if n > 0 && all[0].event.phase.Update? {
        DropOldestMeans(all[1..], n - 1);
        assert ([all[0]] + Updates(all[1..]))[n..] == Updates(all[1..])[n - 1..];
      } else {
        DropOldestMeans(all[1..], n);
        UpdatesCons(all[0], DropOldest(all[1..], n));
        if n > 0 {
          assert [] + Updates(all[1..]) == Updates(all[1..]) && [] + Updates(all[1..])[n..] == Updates(all[1..])[n..];
        } else {
          assert Updates(all)[0..] == Updates(all) && Updates(all[1..])[0..] == Updates(all[1..]);
        }
      }
    }
  }

  lemma {:induction false} DropOldestSnoc(all: seq<Rec>, n: nat, r: Rec)
    requires n <= |Updates(all)|
    ensures DropOldest(all + [r], n) == DropOldest(all, n) + [r]
  {
    if all == [] {
      assert all + [r] == [r];
    } else {
      UpdatesHead(all);
      assert (all + [r])[1..] == all[1..] + [r];
      if n > 0 && all[0].event.phase.Update? {
        DropOldestSnoc(all[1..], n - 1, r);
      } else {
        DropOldestSnoc(all[1..], n, r);
      }
    }
  }

  lemma PastBoundary(head: Rec, rest: seq<Rec>)
    requires !head.event.phase.Update?
    ensures OldestUpdate([head] + rest) == OldestUpdate(rest) + 1
    ensures OldestUpdate(rest) < |rest| ==>
              RemoveAt([head] + rest, OldestUpdate(rest) + 1) == [head] + RemoveAt(rest, OldestUpdate(rest))
  {
    var i := OldestUpdate(rest);
    OldestCons(head, rest);
    hide OldestUpdate;
    if i < |rest| {
      TakeCons(head, rest, i);
      Regroup([head], rest[..i], rest[i + 1..]);
    }
  }

  lemma OldestCons(head: Rec, rest: seq<Rec>)
    requires !head.event.phase.Update?
    ensures OldestUpdate([head] + rest) == OldestUpdate(rest) + 1
  {
    assert ([head] + rest)[1..] == rest;
  }

  lemma TakeCons(head: Rec, rest: seq<Rec>, i: nat)
    requires i < |rest|
    ensures var all := [head] + rest; all[..i + 1] == [head] + rest[..i] && all[i + 2..] == rest[i + 1..]
  {
  }

  /** Removing the oldest retained UPDATE drops one more. */
  lemma {:induction false} DropOneMore(all: seq<Rec>, n: nat)
    requires n <= |Updates(all)|
    ensures var kept := DropOldest(all, n);
            var i := OldestUpdate(kept);
            && (i < |kept| <==> n < |Updates(all)|)
            && (i < |kept| ==> RemoveAt(kept, i) == DropOldest(all, n + 1))
  {
    if all != [] {
      UpdatesHead(all);
      hide Updates, Boundaries, Sum;
      if all[0].event.phase.Update? {
        if n > 0 { DropOneMore(all[1..], n - 1); } else { DropNone(all[1..]); DropNone(all); }
      } else {
        DropOneMore(all[1..], n);
        var rest := DropOldest(all[1..], n);
        assert DropOldest(all, n) == [all[0]] + rest;
        assert DropOldest(all, n + 1) == [all[0]] + DropOldest(all[1..], n + 1);
        hide DropOldest;
        PastBoundary(all[0], rest);
      }
    }
  }

  /** Eviction drops the fewest UPDATEs that make room, and gives up only when even
      dropping all of them would not. */
  lemma {:induction false} EvictMeans(lim: Limits, all: seq<Rec>, n: nat, slots: nat, incoming: nat)
    returns (m: nat)
    requires n <= |Updates(all)|
    ensures n <= m <= |Updates(all)|
    ensures forall i | n <= i < m :: !Fits(lim, DropOldest(all, i), slots, incoming)
    ensures if Fits(lim, DropOldest(all, m), slots, incoming)
            then Evict(lim, DropOldest(all, n), slots, incoming) == Some(DropOldest(all, m))
            else m == |Updates(all)| && Evict(lim, DropOldest(all, n), slots, incoming) == None
    decreases |Updates(all)| - n
  {
    hide Fits;
    DropOneMore(all, n);
    if !Fits(lim, DropOldest(all, n), slots, incoming) && n < |Updates(all)| {
      m := EvictMeans(lim, all, n + 1, slots, incoming);
    } else {
      m := n;
    }
  }

  // ---------- runs ----------

  /** The journal after a sequence of append calls, and every record it ever accepted. */
  function Run(lim: Limits, es: seq<Event>): (Journal, seq<Rec>) {
    if es == [] then (Empty(), [])
    else
      var (j, all) := Run(lim, es[..|es| - 1]);
      var e := es[|es| - 1];
      var (j1, r) := Append(lim, j, e);
      (j1, if r.Accepted? then all + [Rec(r.cursor, e, lim.size(r.cursor, e))] else all)
  }

  ghost predicate Retained(kept: seq<Rec>, all: seq<Rec>) {
    exists n | 0 <= n <= |Updates(all)| :: kept == DropOldest(all, n)
  }

  /** Accepted records carry the cursors 1, 2, 3, ... */
  ghost predicate Numbered(all: seq<Rec>) {
    forall i | 0 <= i < |all| :: all[i].cursor == i + 1 && KnownPhase(all[i].event.phase)
  }

  /** The journal holds what the policy keeps of the accepted records. */
  ghost predicate Keeps(lim: Limits, j: Journal, all: seq<Rec>) {
    && Retained(j.records, all) && Numbered(all)
    && j.bytes == Sum(j.records) <= lim.maxBytes && |j.records| <= lim.maxRecords
    && j.nextCursor == |all| <= CURSOR_MAX
    && (all != [] ==> j.records != [] && j.records[|j.records| - 1] == all[|all| - 1])
  }

  lemma RetainedSnoc(all: seq<Rec>, m: nat, r: Rec)
    requires m <= |Updates(all)|
    ensures Retained(DropOldest(all, m) + [r], all + [r])
  {
    DropOldestSnoc(all, m, r);
    UpdatesSnoc(all, r);
    assert m <= |Updates(all + [r])|;
  }

  lemma NumberedSnoc(all: seq<Rec>, r: Rec)
    requires Numbered(all) && r.cursor == |all| + 1
    ensures KnownPhase(r.event.phase) ==> Numbered(all + [r])
  {
  }

  lemma AcceptKeeps(lim: Limits, keep: seq<Rec>, all: seq<Rec>, r: Rec, dropped: nat)
    requires Retained(keep + [r], all + [r]) && Numbered(all + [r]) && r.cursor == |all| + 1 <= CURSOR_MAX
    requires Fits(lim, keep, 1, r.bytes) && Sum(keep + [r]) == Sum(keep) + r.bytes
    ensures Keeps(lim, Journal(keep + [r], Sum(keep) + r.bytes, r.cursor, dropped), all + [r])
  {
    hide Retained, Numbered, Sum;
  }

  lemma AppendKeeps(lim: Limits, j: Journal, all: seq<Rec>, e: Event)
    requires Keeps(lim, j, all)
    ensures var (j1, r) := Append(lim, j, e);
            match r
            case Accepted(cursor) => cursor == |all| + 1 && Keeps(lim, j1, all + [Rec(cursor, e, lim.size(cursor, e))])
            case UpdateDropped => e.phase.Update? && Keeps(lim, j1, all) && j1 == j.(dropped := j.dropped + 1)
            case _ => j1 == j
  {
    var n :| 0 <= n <= |Updates(all)| && j.records == DropOldest(all, n);
    var cursor := j.nextCursor + 1;
    var r := Rec(cursor, e, lim.size(cursor, e));
    assert j.nextCursor == |all| && Numbered(all);
    DropCounted(lim, j, all);
    hide Evict, DropOldest, Updates, Sum, Retained, Numbered, Keeps, Fits;
    var m := EvictMeans(lim, all, n, 1, r.bytes);
    var keep := DropOldest(all, m);
    AcceptedKept(lim, all, m, r);
    if KnownPhase(e.phase) && j.nextCursor < CURSOR_MAX {
      if Fits(lim, keep, 1, r.bytes) {
        AppendAccepts(lim, j, e, keep);
        hide Append;
        AcceptKeeps(lim, keep, all, r, j.dropped);
      }
    }
  }

  lemma DropCounted(lim: Limits, j: Journal, all: seq<Rec>)
    requires Keeps(lim, j, all)
    ensures Keeps(lim, j.(dropped := j.dropped + 1), all)
  {
    hide Retained, Numbered, Sum;
  }

  lemma AcceptedKept(lim: Limits, all: seq<Rec>, m: nat, r: Rec)
    requires m <= |Updates(all)| && Numbered(all) && r.cursor == |all| + 1
    ensures var keep := DropOldest(all, m);
            && Retained(keep + [r], all + [r]) && Sum(keep + [r]) == Sum(keep) + r.bytes
            && (KnownPhase(r.event.phase) ==> Numbered(all + [r]))
  {
    RetainedSnoc(all, m, r);
    UpdatesSnoc(DropOldest(all, m), r);
    NumberedSnoc(all, r);
  }

  /** Over any sequence of appends: START and END records are exactly those ever
      accepted, UPDATEs a suffix, bytes exact, both limits met, cursors 1, 2, 3, ... */
  lemma {:induction false} RunKeeps(lim: Limits, es: seq<Event>)
    ensures var (j, all) := Run(lim, es);
            && Keeps(lim, j, all)
            && Boundaries(j.records) == Boundaries(all)
            && exists n | 0 <= n <= |Updates(all)| :: Updates(j.records) == Updates(all)[n..]
  {
    var (j, all) := Run(lim, es);
    if es != [] {
      RunKeeps(lim, es[..|es| - 1]);
      var (j0, all0) := Run(lim, es[..|es| - 1]);
      AppendKeeps(lim, j0, all0, es[|es| - 1]);
    } else {
      DropNone([]);
      assert j.records == DropOldest(all, 0);
    }
    assert Keeps(lim, j, all);
    var n :| 0 <= n <= |Updates(all)| && j.records == DropOldest(all, n);
    DropOldestMeans(all, n);
  }

  lemma StartKeeps(lim: Limits)
    ensures Keeps(lim, Empty(), [])
  {
    RunKeeps(lim, []);
  }

  /** Closing and opening again between appends loses nothing but the drop counter. */
  lemma ReopenSame(lim: Limits, j: Journal, all: seq<Rec>)
    requires Keeps(lim, j, all)
    ensures Reopen(lim, j.records) == Some(j.(dropped := 0))
  {
    var n :| 0 <= n <= |Updates(all)| && j.records == DropOldest(all, n);
    DropOldestMembers(all, n);
    assert all == [] ==> j.records == [] by {
      if j.records != [] { assert j.records[0] in all; }
    }
  }

  // ---------- dying in the middle of an append ----------

  /** The file once an append has made room and before its record is written: the rename of
      the compacted file and the write of the line are two steps. */
  function RoomMade(lim: Limits, j: Journal, e: Event): seq<Rec> {
    if !KnownPhase(e.phase) || j.nextCursor >= CURSOR_MAX then j.records
    else
      match Evict(lim, j.records, 1, lim.size(j.nextCursor + 1, e))
      case None => j.records
      case Some(keep) => keep
  }

  lemma RoomFrom(lim: Limits, j: Journal, e: Event)
    ensures forall r | r in RoomMade(lim, j, e) :: r in j.records
  {
    EvictFrom(lim, j.records, 1, lim.size(j.nextCursor + 1, e));
    hide Evict;
  }

  function Newest(s: seq<Rec>): nat { if s == [] then 0 else s[|s| - 1].cursor }

  /** Making room for `e` leaves the newest record: it is a START or END, or leaving out all
      the other UPDATEs is enough, or no room is made at all. */
  predicate KeepsNewest(lim: Limits, j: Journal, e: Event) {
    var (s, n) := (j.records, lim.size(j.nextCursor + 1, e));
    || s == [] || !s[|s| - 1].event.phase.Update?
    || !KnownPhase(e.phase) || j.nextCursor >= CURSOR_MAX || !Fits(lim, Boundaries(s), 1, n)
    || (Updates(s) != [] && Fits(lim, DropOldest(s, |Updates(s)| - 1), 1, n))
  }

  /** With every UPDATE left out the STARTs and ENDs remain. */
  lemma {:induction false} DropAll(s: seq<Rec>)
    ensures DropOldest(s, |Updates(s)|) == Boundaries(s)
  {
    if s != [] {
      UpdatesHead(s);
      DropAll(s[1..]);
      hide Updates, Boundaries;
    }
  }

  lemma SplitLast(s: seq<Rec>)
    requires s != []
    ensures var (front, r) := (s[..|s| - 1], s[|s| - 1]);
            && s == front + [r]
            && Updates(s) == Updates(front) + (if r.event.phase.Update? then [r] else [])
            && Boundaries(s) == Boundaries(front) + (if r.event.phase.Update? then [] else [r])
  {
  }

  lemma {:induction false} BoundariesFrom(s: seq<Rec>)
    ensures forall r | r in Boundaries(s) :: r in s
  {
    if s != [] { BoundariesFrom(s[..|s| - 1]); }
  }

  /** The newest record goes exactly when it is an UPDATE and every UPDATE does. */
  lemma NewestDropped(s: seq<Rec>, m: nat)
    requires Increasing(s) && (forall r | r in s :: r.cursor >= 1) && m <= |Updates(s)|
    ensures Newest(DropOldest(s, m)) == Newest(s) <==>
            s == [] || !s[|s| - 1].event.phase.Update? || m < |Updates(s)|
    ensures m == |Updates(s)| ==> DropOldest(s, m) == Boundaries(s)
  {
    hide DropOldest, Updates, Boundaries;
    DropAll(s);
    if s == [] {
      DropNone(s);
      assert |Updates(s)| == 0 by { NoUpdates(); }
    } else {
      var (front, r) := (s[..|s| - 1], s[|s| - 1]);
      SplitLast(s);
      if m <= |Updates(front)| {
        DropOldestSnoc(front, m, r);
      } else {
        BoundariesFrom(front);
        BelowLast(s, Boundaries(front));
      }
    }
  }

  lemma BelowLast(s: seq<Rec>, b: seq<Rec>)
    requires s != [] && Increasing(s) && s[|s| - 1].cursor >= 1 && forall r | r in b :: r in s[..|s| - 1]
    ensures Newest(b) < s[|s| - 1].cursor
  {
    if b != [] {
      var r := b[|b| - 1];
      assert r in b;
      var i :| 0 <= i < |s| - 1 && s[..|s| - 1][i] == r;
      assert s[i] == r;
    }
  }

  /** Leaving out one more never makes a fit worse. */
  lemma FitsMore(lim: Limits, s: seq<Rec>, i: nat, j: nat, slots: nat, incoming: nat)
    requires i <= j <= |Updates(s)| && Fits(lim, DropOldest(s, i), slots, incoming)
    ensures Fits(lim, DropOldest(s, j), slots, incoming)
    decreases j - i
  {
    hide DropOldest, Updates, Sum;
    if i < j {
      DropOneMore(s, i);
      var kept := DropOldest(s, i);
      SumWithout(kept, OldestUpdate(kept));
      FitsMore(lim, s, i + 1, j, slots, incoming);
    }
  }

  lemma SumWithout(s: seq<Rec>, i: nat)
    requires i < |s|
    ensures Sum(RemoveAt(s, i)) <= Sum(s) && |RemoveAt(s, i)| == |s| - 1
  {
    var (a, b, c) := (s[..i], [s[i]], s[i + 1..]);
    UpdatesConcat(a, c);
    UpdatesConcat(a, b);
    UpdatesConcat(a + b, c);
    assert a + b + c == s;
    hide Sum;
  }

  lemma RoomIsEvict(lim: Limits, j: Journal, e: Event)
    requires KnownPhase(e.phase) && j.nextCursor < CURSOR_MAX
    ensures RoomMade(lim, j, e) ==
            var keep := Evict(lim, j.records, 1, lim.size(j.nextCursor + 1, e));
            if keep.Some? then keep.value else j.records
  {
  }

  /** The condition says what it is meant to, and otherwise nothing but the STARTs and ENDs
      is left. */
  lemma KeepsNewestIff(lim: Limits, j: Journal, e: Event)
    requires Increasing(j.records) && forall r | r in j.records :: r.cursor >= 1
    ensures KeepsNewest(lim, j, e) <==> Newest(RoomMade(lim, j, e)) == Newest(j.records)
    ensures !KeepsNewest(lim, j, e) ==> RoomMade(lim, j, e) == Boundaries(j.records)
  {
    hide DropOldest, Updates, Boundaries, Evict, Fits, Increasing, Newest, RoomMade;
    if KnownPhase(e.phase) && j.nextCursor < CURSOR_MAX {
      var (s, n) := (j.records, lim.size(j.nextCursor + 1, e));
      RoomIsEvict(lim, j, e);
      DropNone(s);
      DropAll(s);
      var m := EvictMeans(lim, s, 0, 1, n);
      NewestDropped(s, m);
      if Fits(lim, DropOldest(s, m), 1, n) {
        FitsMore(lim, s, m, |Updates(s)|, 1, n);
        if m < |Updates(s)| { FitsMore(lim, s, m, |Updates(s)| - 1, 1, n); }
        if s != [] && s[|s| - 1].event.phase.Update? { LastUpdate(s); }
      }
    } else {
      assert RoomMade(lim, j, e) == j.records by { RoomRefused(lim, j, e); }
    }
  }

  lemma LastUpdate(s: seq<Rec>)
    requires s != [] && s[|s| - 1].event.phase.Update?
    ensures Updates(s) != []
  {
  }

  lemma RoomRefused(lim: Limits, j: Journal, e: Event)
    requires !KnownPhase(e.phase) || j.nextCursor >= CURSOR_MAX
    ensures RoomMade(lim, j, e) == j.records
  {
  }

  lemma EvictFits(lim: Limits, all: seq<Rec>, n: nat, incoming: nat) returns (m: nat)
    requires n <= |Updates(all)| && Fits(lim, DropOldest(all, n), 0, 0)
    ensures m <= |Updates(all)| && Fits(lim, DropOldest(all, m), 0, 0)
    ensures match Evict(lim, DropOldest(all, n), 1, incoming)
            case None => m == n
            case Some(keep) => keep == DropOldest(all, m)
  {
    m := EvictMeans(lim, all, n, 1, incoming);
    if !Fits(lim, DropOldest(all, m), 1, incoming) { m := n; }
  }

  /** What the file then holds is again what the policy keeps of the accepted records. */
  lemma RoomRetained(lim: Limits, j: Journal, all: seq<Rec>, e: Event) returns (m: nat)
    requires Keeps(lim, j, all)
    ensures m <= |Updates(all)| && RoomMade(lim, j, e) == DropOldest(all, m)
    ensures Fits(lim, RoomMade(lim, j, e), 0, 0)
  {
    var n :| 0 <= n <= |Updates(all)| && j.records == DropOldest(all, n);
    hide Evict, DropOldest, Updates, Sum, Numbered;
    m := EvictFits(lim, all, n, lim.size(j.nextCursor + 1, e));
    if !KnownPhase(e.phase) || j.nextCursor >= CURSOR_MAX { m := n; }
  }

  lemma NewestAccepted(lim: Limits, j: Journal, all: seq<Rec>)
    requires Keeps(lim, j, all)
    ensures Newest(j.records) == |all|
  {
    KeepsMembers(lim, j, all);
    assert all == [] ==> j.records == [] by {
      if j.records != [] { assert j.records[0] in all; }
    }
  }

  /** Whatever the policy leaves out, only UPDATEs are newer than the newest record it keeps,
      and what it keeps is what it would keep without them. */
  lemma {:induction false} NewestKept(all: seq<Rec>, m: nat)
    requires Numbered(all) && m <= |Updates(all)|
    ensures var (s, k) := (DropOldest(all, m), Newest(DropOldest(all, m)));
            && k <= |all| && (forall i | k <= i < |all| :: all[i].event.phase.Update?)
            && Retained(s, all[..k]) && Numbered(all[..k])
            && (k > 0 ==> s != [] && s[|s| - 1] == all[k - 1])
  {
    hide DropOldest, Updates, Boundaries;
    if all == [] {
      DropNone(all);
      NoUpdates();
      assert all[..0] == all;
    } else {
      var (front, r) := (all[..|all| - 1], all[|all| - 1]);
      SplitLast(all);
      if m <= |Updates(front)| {
        DropOldestSnoc(front, m, r);
        assert all[..|all|] == all;
      } else {
        DropAll(all);
        DropAll(front);
        NewestKept(front, |Updates(front)|);
        var k := Newest(DropOldest(all, m));
        assert all[..k] == front[..k];
      }
    }
  }

  /** The engine always comes back from a crash in the middle of an append, with a journal that
      holds what the policy keeps of the records up to its newest one; those past it, all of
      them UPDATEs, are as if never accepted, and their cursors are given out again. There are
      none exactly when making room left the newest record. */
  lemma CrashKeepsIff(lim: Limits, j: Journal, all: seq<Rec>, e: Event)
    requires Keeps(lim, j, all)
    ensures var (r, k) := (Reopen(lim, RoomMade(lim, j, e)), Newest(RoomMade(lim, j, e)));
            && r.Some? && r.value.records == RoomMade(lim, j, e) && r.value.nextCursor == k <= |all|
            && Keeps(lim, r.value, all[..k]) && (forall i | k <= i < |all| :: all[i].event.phase.Update?)
            && (k == |all| <==> KeepsNewest(lim, j, e))
            && (k < |all| ==> k == Newest(Boundaries(j.records)))
  {
    hide DropOldest, Updates, Sum, Evict, Boundaries, KeepsNewest;
    var m := RoomRetained(lim, j, all, e);
    NewestAccepted(lim, j, all);
    KeepsMembers(lim, j, all);
    NumberedFrom(all);
    KeepsNewestIff(lim, j, e);
    NewestKept(all, m);
    ReopenIs(lim, RoomMade(lim, j, e));
    hide RoomMade, Reopen;
  }

  lemma ReopenIs(lim: Limits, s: seq<Rec>)
    requires Fits(lim, s, 0, 0)
    ensures Reopen(lim, s) == Some(Journal(s, Sum(s), Newest(s), 0))
  {
  }

  lemma NumberedFrom(all: seq<Rec>)
    requires Numbered(all)
    ensures forall r | r in all :: r.cursor >= 1
  {
  }

  // ---------- replay to a subscriber ----------

  ghost predicate Increasing(s: seq<Rec>) {
    forall i, j | 0 <= i < j < |s| :: s[i].cursor < s[j].cursor
  }

  /** The retained records past a cursor. */
  function After(s: seq<Rec>, cursor: nat): seq<Rec> {
    if s == [] then [] else if s[0].cursor <= cursor then After(s[1..], cursor) else [s[0]] + After(s[1..], cursor)
  }

  /** The gap flag of a snapshot: some step between neighbours is larger than one. */
  function Gap(s: seq<Rec>, previous: nat): bool {
    if s == [] then false
    else (s[0].cursor > previous && s[0].cursor - previous > 1) || Gap(s[1..], s[0].cursor)
  }

  datatype Snapshot = Snapshot(records: seq<Rec>, gap: bool, oldest: nat, latest: nat)

  function SnapshotAfter(records: seq<Rec>, cursor: nat): Snapshot {
    var s := After(records, cursor);
    Snapshot(s, Gap(s, cursor),
             if records == [] then 0 else records[0].cursor,
             if records == [] then 0 else records[|records| - 1].cursor)
  }

  /** The first `k` records are at or below the cursor, the others past it. */
  ghost predicate SplitsAt(s: seq<Rec>, k: nat, cursor: nat) {
    && k <= |s|
    && (forall i | 0 <= i < k :: s[i].cursor <= cursor)
    && (forall i | k <= i < |s| :: s[i].cursor > cursor)
  }

  lemma SplitsHead(s: seq<Rec>, k: nat, cursor: nat)
    requires s != [] && Increasing(s) && SplitsAt(s[1..], k, cursor)
    ensures s[0].cursor <= cursor ==> SplitsAt(s, k + 1, cursor)
    ensures s[0].cursor > cursor ==> k == 0 && SplitsAt(s, 0, cursor)
  {
    assert forall i | 1 <= i < |s| :: s[i] == s[1..][i - 1];
    assert k > 0 ==> s[1..][0].cursor <= cursor && s[0].cursor < s[1].cursor;
  }

  lemma {:induction false} AfterIs(s: seq<Rec>, cursor: nat) returns (k: nat)
    requires Increasing(s)
    ensures SplitsAt(s, k, cursor) && After(s, cursor) == s[k..]
  {
    if s == [] {
      k := 0;
    } else {
      k := AfterIs(s[1..], cursor);
      SplitsHead(s, k, cursor);
      hide SplitsAt, Increasing;
      assert s[1..][k..] == s[k + 1..];
      if s[0].cursor <= cursor { k := k + 1; }
    }
  }

  /** The cursors run on from `previous` without a hole. */
  ghost predicate Contiguous(s: seq<Rec>, previous: nat) {
    forall i | 0 <= i < |s| :: s[i].cursor == previous + 1 + i
  }

  lemma ContiguousHead(s: seq<Rec>, previous: nat)
    requires s != []
    ensures Contiguous(s, previous) <==> s[0].cursor == previous + 1 && Contiguous(s[1..], previous + 1)
  {
    if s[0].cursor == previous + 1 && Contiguous(s[1..], previous + 1) {
      forall i | 0 <= i < |s| ensures s[i].cursor == previous + 1 + i {
        if i > 0 { assert s[i] == s[1..][i - 1]; }
      }
    }
  }

  lemma {:induction false} GapExact(s: seq<Rec>, previous: nat)
    requires Increasing(s) && (s != [] ==> s[0].cursor > previous)
    ensures !Gap(s, previous) <==> Contiguous(s, previous)
  {
    if s == [] {
    } else {
      ContiguousHead(s, previous);
      IncreasingTail(s);
      hide Increasing, Contiguous;
      GapExact(s[1..], s[0].cursor);
    }
  }

  lemma IncreasingTail(s: seq<Rec>)
    requires s != [] && Increasing(s)
    ensures Increasing(s[1..]) && (|s| > 1 ==> s[1..][0].cursor > s[0].cursor)
  {
  }

  lemma {:induction false} DropOldestMembers(all: seq<Rec>, n: nat)
    ensures forall r | r in DropOldest(all, n) :: r in all
    ensures forall r | r in all && !r.event.phase.Update? :: r in DropOldest(all, n)
  {
    if all != [] {
      DropOldestMembers(all[1..], if n > 0 && all[0].event.phase.Update? then n - 1 else n);
      assert forall r | r in all :: r == all[0] || r in all[1..];
    }
  }

  lemma {:induction false} DropOldestIncreasing(all: seq<Rec>, n: nat)
    requires Increasing(all)
    ensures Increasing(DropOldest(all, n))
  {
    if all != [] {
      var m := if n > 0 && all[0].event.phase.Update? then n - 1 else n;
      DropOldestIncreasing(all[1..], m);
      DropOldestMembers(all[1..], m);
      var rest := DropOldest(all[1..], m);
      forall r | r in rest ensures all[0].cursor < r.cursor {
        assert r in all[1..];
        var i :| 0 <= i < |all[1..]| && all[1..][i] == r;
        assert all[i + 1] == r;
      }
    }
  }

  lemma KeepsMembers(lim: Limits, j: Journal, all: seq<Rec>)
    requires Keeps(lim, j, all)
    ensures Increasing(j.records)
    ensures forall r | r in j.records :: r in all && r.cursor <= |all|
    ensures forall r | r in all && Boundary(r.event.phase) :: r in j.records
    ensures all != [] ==> j.records != [] && j.records[|j.records| - 1].cursor == |all|
  {
    var n :| 0 <= n <= |Updates(all)| && j.records == DropOldest(all, n);
    DropOldestIncreasing(all, n);
    DropOldestMembers(all, n);
  }

  /** What a resuming subscriber is sent: accepted records past its cursor, in order,
      and every START and END among them. */
  lemma ReplaySends(lim: Limits, j: Journal, all: seq<Rec>, cursor: nat)
    requires Keeps(lim, j, all)
    ensures var sent := After(j.records, cursor);
            && Increasing(sent)
            && (forall r | r in sent :: r in all && r.cursor > cursor)
            && (forall r | r in all && r.cursor > cursor && Boundary(r.event.phase) :: r in sent)
  {
    KeepsMembers(lim, j, all);
    hide Keeps;
    var k := AfterIs(j.records, cursor);
    forall r | r in j.records && r.cursor > cursor ensures r in j.records[k..] {
      var i :| 0 <= i < |j.records| && j.records[i] == r;
      assert j.records[k..][i - k] == r;
    }
  }

  /** Everything sent is in the journal. */
  lemma ReplayFrom(lim: Limits, j: Journal, all: seq<Rec>, cursor: nat)
    requires Keeps(lim, j, all)
    ensures forall r | r in SnapshotAfter(j.records, cursor).records :: r in j.records
  {
    KeepsMembers(lim, j, all);
    hide Keeps;
    var k := AfterIs(j.records, cursor);
  }

  lemma NoneKept(lim: Limits, j: Journal, all: seq<Rec>)
    requires Keeps(lim, j, all)
    ensures all == [] ==> j.records == []
    ensures Newest(j.records) == |all|
  {
    NewestAccepted(lim, j, all);
    assert all == [] ==> j.records == [] by {
      if j.records != [] {
        KeepsMembers(lim, j, all);
        assert j.records[0] in all;
      }
    }
  }

  /** The records past a cursor are a suffix that ends with the newest. */
  lemma SuffixSent(s: seq<Rec>, cursor: nat) returns (k: nat)
    requires Increasing(s)
    ensures k <= |s| && SplitsAt(s, k, cursor) && After(s, cursor) == s[k..] && Increasing(s[k..])
    ensures s[k..] == [] <==> Newest(s) <= cursor
    ensures s[k..] != [] ==> Newest(s[k..]) == Newest(s) && s[k..][0].cursor > cursor
  {
    hide After;
    k := AfterIs(s, cursor);
  }

  /** What it is told: nothing is sent only when its cursor is already the newest, and
      the gap flag is false exactly when the records sent run from the next cursor to
      the newest without a hole. */
  lemma ReplayGapExact(lim: Limits, j: Journal, all: seq<Rec>, cursor: nat)
    requires Keeps(lim, j, all)
    ensures var s := SnapshotAfter(j.records, cursor);
            && (s.records == [] <==> cursor >= |all|)
            && s.latest == |all|
            && (!s.gap <==> Contiguous(s.records, cursor))
            && (s.records != [] ==> s.records[|s.records| - 1].cursor == s.latest)
            && (s.records != [] ==> (!s.gap <==> |s.records| == |all| - cursor))
  {
    hide Keeps, After, Gap, Increasing, SplitsAt, Contiguous;
    KeepsMembers(lim, j, all);
    NoneKept(lim, j, all);
    var k := SuffixSent(j.records, cursor);
    var sent := j.records[k..];
    GapExact(sent, cursor);
    if sent != [] { GapCount(sent, cursor, |all|); }
  }

  /** Increasing cursors in (previous, latest], ending at latest, fill it iff there are enough. */
  lemma {:induction false} GapCount(s: seq<Rec>, previous: nat, latest: nat)
    requires Increasing(s) && s != [] && s[0].cursor > previous && s[|s| - 1].cursor == latest
    ensures |s| <= latest - previous
    ensures |s| == latest - previous <==> Contiguous(s, previous)
  {
    ContiguousHead(s, previous);
    IncreasingTail(s);
    hide Increasing;
    if |s| == 1 {
      assert Contiguous(s[1..], previous + 1);
    } else {
      hide Contiguous;
      assert s[1..][|s| - 2] == s[|s| - 1];
      GapCount(s[1..], s[0].cursor, latest);
    }
  }
}
