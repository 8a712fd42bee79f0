// The event journal as the engine runs it: a record queue and byte counter updated
// in place, a file rewritten under pressure, and byte-level recovery on open.
module EventJournalStore {
  import opened Common
  import opened EventContract
  import opened EventJournal
  import opened Lines

  /** Index of the oldest UPDATE, by scanning from the head. */
  method FindOldestUpdate(s: seq<Rec>) returns (i: nat)
    ensures i == OldestUpdate(s)
  {
    i := 0;
    while i < |s| && !s[i].event.phase.Update?
      invariant i <= |s| && OldestUpdate(s) == i + OldestUpdate(s[i..])
    {
      i := i + 1;
    }
  }

  lemma {:induction false} SumRemove(s: seq<Rec>, i: nat)
    requires i < |s|
    ensures Sum(RemoveAt(s, i)) == Sum(s) - s[i].bytes
  {
    UpdatesConcat(s[..i], s[i + 1..]);
    UpdatesConcat(s[..i], [s[i]]);
    UpdatesConcat(s[..i] + [s[i]], s[i + 1..]);
    UpdatesSnoc([], s[i]);
    assert [] + [s[i]] == [s[i]];
    assert s == s[..i] + [s[i]] + s[i + 1..];
  }

  lemma SumNext(s: seq<Rec>, k: nat)
    requires k < |s|
    ensures Sum(s[..k + 1]) == Sum(s[..k]) + s[k].bytes
  {
    assert s[..k + 1][..k] == s[..k];
  }

  lemma SumNothing()
    ensures Sum([]) == 0
  {
  }

  /** Drop oldest UPDATEs until both limits hold; false when only START and END are left. */
  method EvictLoop(lim: Limits, all: seq<Rec>, slots: nat, incoming: nat) returns (ok: bool, keep: seq<Rec>, bytes: nat)
    requires incoming <= lim.maxBytes
    ensures Evict(lim, all, slots, incoming) == if ok then Some(keep) else None
    ensures bytes == Sum(keep)
  {
    hide Sum, OldestUpdate;
    keep := all;
    bytes := 0;
    assert Sum(all[..0]) == 0 by { SumNothing(); }
    for k := 0 to |all|
      invariant bytes == Sum(all[..k])
    {
      SumNext(all, k);
      bytes := bytes + all[k].bytes;
    }
    assert all[..|all|] == all;
    while |keep| + slots > lim.maxRecords || bytes > lim.maxBytes || incoming > lim.maxBytes - bytes
      invariant bytes == Sum(keep)
      invariant Evict(lim, keep, slots, incoming) == Evict(lim, all, slots, incoming)
      decreases |keep|
    {
      var i := FindOldestUpdate(keep);
      if i == |keep| { return false, keep, bytes; }
      SumRemove(keep, i);
      bytes := bytes - keep[i].bytes;
      keep := keep[..i] + keep[i + 1..];
    }
    ok := true;
  }

  class Store {
    const lim: Limits
    var records: seq<Rec>
    var file: seq<Rec>
    var bytes: nat
    var nextCursor: nat
    var dropped: nat

    ghost function Now(): Journal
      reads this
    {
      Journal(records, bytes, nextCursor, dropped)
    }

    /** The file holds the records in memory and the byte counter is their total. */
    ghost predicate Valid()
      reads this
    {
      file == records && bytes == Sum(records)
    }

    constructor (lim: Limits, lines: seq<Rec>, nextCursor: nat)
      ensures this.lim == lim && file == lines && Valid()
      ensures Now() == Journal(lines, Sum(lines), nextCursor, 0)
    {
      this.lim, records, file := lim, lines, lines;
      this.nextCursor, dropped, bytes := nextCursor, 0, Sum(lines);
    }

    /** Open over recovered lines, trimming to the limits if they shrank. */
    static method Open(lim: Limits, lines: seq<Rec>) returns (store: Store?)
      ensures store == null <==> Reopen(lim, lines).None?
      ensures store != null ==> fresh(store) && store.lim == lim && store.Valid()
      ensures store != null ==> Reopen(lim, lines) == Some(store.Now())
    {
      var last := if lines == [] then 0 else lines[|lines| - 1].cursor;
      var ok, keep, total := EvictLoop(lim, lines, 0, 0);
      if !ok { return null; }
      store := new Store(lim, keep, last);
    }

    /** Make room for a record: ok, or the reason it cannot be taken. */
    method CompactToFitLocked(incoming: nat, phase: Phase) returns (r: AppendResult)
      requires Valid()
      modifies this`records, this`file, this`bytes, this`dropped
      ensures Valid()
      ensures match Evict(lim, old(records), 1, incoming)
              case None =>
                && records == old(records)
                && r == (if phase.Update? then UpdateDropped else JournalFull)
                && dropped == (if phase.Update? then old(dropped) + 1 else old(dropped))
              case Some(keep) => r.Accepted? && records == keep && dropped == old(dropped)
    {
      if |records| + 1 <= lim.maxRecords && bytes <= lim.maxBytes && incoming <= lim.maxBytes - bytes {
        return Accepted(0);
      }
      var ok, keep, keepBytes := false, [], 0;
      if incoming > lim.maxBytes {
        NeverFits(lim, records, incoming);
      } else {
        ok, keep, keepBytes := EvictLoop(lim, records, 1, incoming);
      }
      if !ok {
        if phase.Update? {
          dropped := dropped + 1;
          return UpdateDropped;
        }
        return JournalFull;
      }
      file := keep; // one atomic replacement of the file
      records, bytes := keep, keepBytes;
      r := Accepted(0);
    }

    method Append(e: Event) returns (r: AppendResult)
      requires Valid()
      modifies this
      ensures Valid() && (Now(), r) == EventJournal.Append(lim, old(Now()), e)
    {
      if !KnownPhase(e.phase) { return BadPhase; }
      if nextCursor >= CURSOR_MAX { return CursorsExhausted; }
      r := AppendKnown(e);
    }

    method AppendKnown(e: Event) returns (r: AppendResult)
      requires Valid() && KnownPhase(e.phase) && nextCursor < CURSOR_MAX
      modifies this
      ensures Valid() && (Now(), r) == EventJournal.Append(lim, old(Now()), e)
    {
      hide Sum, Evict, EventJournal.Append;
      var cursor := nextCursor + 1;
      var n := lim.size(cursor, e);
      r := CompactToFitLocked(n, e.phase);
      if !r.Accepted? {
        AppendRefuses(lim, old(Now()), e);
        return;
      }
      assert file == RoomMade(lim, old(Now()), e); // all that a crash at this point leaves
      var record := Rec(cursor, e, n);
      UpdatesSnoc(records, record);
      AppendAccepts(lim, old(Now()), e, records);
      file := file + [record];
      records := records + [record];
      bytes := bytes + n;
      nextCursor := cursor;
      r := Accepted(cursor);
    }

    method Subscribe(cursor: nat) returns (s: Snapshot)
      ensures s == SnapshotAfter(records, cursor)
    {
      var out: seq<Rec>, gap, previous := [], false, cursor;
      ghost var goal := SnapshotAfter(records, cursor);
      for i := 0 to |records|
        invariant out + After(records[i..], cursor) == goal.records
        invariant (gap || Gap(After(records[i..], cursor), previous)) == goal.gap
      {
        var r := records[i];
        if r.cursor > cursor {
          if r.cursor > previous && r.cursor - previous > 1 { gap := true; }
          previous := r.cursor;
          out := out + [r];
        }
      }
      s := Snapshot(out, gap, if records == [] then 0 else records[0].cursor,
                    if records == [] then 0 else records[|records| - 1].cursor);
    }
  }

  lemma {:induction false} NeverFits(lim: Limits, s: seq<Rec>, incoming: nat)
    requires incoming > lim.maxBytes
    ensures Evict(lim, s, 1, incoming).None?
    decreases |s|
  {
    var i := OldestUpdate(s);
    if i < |s| { NeverFits(lim, RemoveAt(s, i), incoming); }
  }

  // ---------- recovery of the file ----------

  type Decoder = Bytes -> Option<(nat, Event)>

  /** Records recovered from `at` on, and the offset where the good prefix ends. */
  function RecoverFrom(dec: Decoder, b: Bytes, at: nat, last: nat): (r: (seq<Rec>, nat))
    requires at <= |b|
    ensures at <= r.1 <= |b|
    decreases |b| - at
  {
    if at == |b| then ([], at)
    else
      var end := LineEnd(b, at);
      var d := dec(b[at..end]);
      if b[end - 1] != NL || d.None? || d.value.0 <= last then ([], at)
      else
        var (rs, good) := RecoverFrom(dec, b, end, d.value.0);
        ([Rec(d.value.0, d.value.1, end - at)] + rs, good)
  }

  method Recover(dec: Decoder, b: Bytes) returns (rs: seq<Rec>, good: nat)
    ensures (rs, good) == RecoverFrom(dec, b, 0, 0)
  {
    hide RecoverFrom;
    rs, good := [], 0;
    var last := 0;
    ghost var goal := RecoverFrom(dec, b, 0, 0);
    assert [] + goal.0 == goal.0;
    while good < |b|
      invariant good <= |b|
      invariant goal.0 == rs + RecoverFrom(dec, b, good, last).0
      invariant goal.1 == RecoverFrom(dec, b, good, last).1
      decreases |b| - good
    {
      var end := LineEnd(b, good);
      var d := dec(b[good..end]);
      RecoverStep(dec, b, good, last);
      if b[end - 1] != NL || d.None? || d.value.0 <= last {
        assert rs + [] == rs;
        return;
      }
      var r := Rec(d.value.0, d.value.1, end - good);
      Regroup(rs, [r], RecoverFrom(dec, b, end, d.value.0).0);
      rs := rs + [r];
      good, last := end, d.value.0;
    }
    RecoverEnd(dec, b, last);
    assert rs + [] == rs;
  }

  lemma RecoverStep(dec: Decoder, b: Bytes, at: nat, last: nat)
    requires at < |b|
    ensures var end := LineEnd(b, at);
            var d := dec(b[at..end]);
            RecoverFrom(dec, b, at, last) ==
              if b[end - 1] != NL || d.None? || d.value.0 <= last then ([], at)
              else
                var (rs, good) := RecoverFrom(dec, b, end, d.value.0);
                ([Rec(d.value.0, d.value.1, end - at)] + rs, good)
  {
  }

  lemma RecoverEnd(dec: Decoder, b: Bytes, last: nat)
    ensures RecoverFrom(dec, b, |b|, last) == ([], |b|)
  {
  }

  /** `b` is nothing but complete, decodable lines with strictly increasing cursors above `last`. */
  ghost predicate ParsesTo(dec: Decoder, b: Bytes, rs: seq<Rec>, last: nat)
    decreases |rs|
  {
    if rs == [] then b == []
    else
      var n := rs[0].bytes;
      && 0 < n <= |b| && b[n - 1] == NL && NL !in b[..n - 1]
      && dec(b[..n]) == Some((rs[0].cursor, rs[0].event)) && rs[0].cursor > last
      && ParsesTo(dec, b[n..], rs[1..], rs[0].cursor)
  }

  lemma {:induction false} LineHasOneNewline(b: Bytes, at: nat)
    requires at < |b|
    ensures NL !in b[at..LineEnd(b, at) - 1]
    decreases |b| - at
  {
    var end := LineEnd(b, at);
    if end > at + 1 {
      LineHasOneNewline(b, at + 1);
      assert b[at..end - 1] == [b[at]] + b[at + 1..end - 1];
    }
  }

  lemma ParsesCons(dec: Decoder, line: Bytes, rest: Bytes, r: Rec, rs: seq<Rec>, last: nat)
    requires 0 < |line| == r.bytes && line[|line| - 1] == NL && NL !in line[..|line| - 1]
    requires dec(line) == Some((r.cursor, r.event)) && r.cursor > last && ParsesTo(dec, rest, rs, r.cursor)
    ensures ParsesTo(dec, line + rest, [r] + rs, last)
  {
    var (b, all) := (line + rest, [r] + rs);
    assert b[..|line|] == line && b[..|line| - 1] == line[..|line| - 1] && b[|line|..] == rest;
    assert all[1..] == rs;
  }

  lemma NothingParses(dec: Decoder, b: Bytes, at: nat, last: nat)
    requires at <= |b| && RecoverFrom(dec, b, at, last).0 == []
    ensures RecoverFrom(dec, b, at, last).1 == at && ParsesTo(dec, b[at..at], [], last)
  {
  }

  lemma CutAt(b: Bytes, at: nat, end: nat, good: nat)
    requires at < end <= good <= |b|
    ensures b[at..good] == b[at..end] + b[end..good] && b[at..end][..end - at - 1] == b[at..end - 1]
    ensures b[at..end][end - at - 1] == b[end - 1]
  {
  }

  lemma {:induction false} RecoverParses(dec: Decoder, b: Bytes, at: nat, last: nat)
    requires at <= |b|
    ensures var (rs, good) := RecoverFrom(dec, b, at, last); ParsesTo(dec, b[at..good], rs, last)
    decreases |b| - at
  {
    hide ParsesTo;
    var (rs, good) := RecoverFrom(dec, b, at, last);
    if rs == [] {
      NothingParses(dec, b, at, last);
    } else {
      var end := LineEnd(b, at);
      var cursor := dec(b[at..end]).value.0;
      RecoverParses(dec, b, end, cursor);
      LineHasOneNewline(b, at);
      var rest := RecoverFrom(dec, b, end, cursor).0;
      CutAt(b, at, end, good);
      assert rs == [rs[0]] + rest;
      ParsesCons(dec, b[at..end], b[end..good], rs[0], rest, last);
    }
  }

  lemma FirstLine(dec: Decoder, b: Bytes, at: nat, last: nat, stop: nat, rs: seq<Rec>)
    requires at <= stop <= |b| && rs != [] && ParsesTo(dec, b[at..stop], rs, last)
    ensures var n := rs[0].bytes;
            && 0 < n && at + n <= stop && LineEnd(b, at) == at + n && b[at + n - 1] == NL
            && dec(b[at..at + n]) == Some((rs[0].cursor, rs[0].event)) && rs[0].cursor > last
            && ParsesTo(dec, b[at + n..stop], rs[1..], rs[0].cursor)
  {
    var n := rs[0].bytes;
    var whole := b[at..stop];
    forall i | at <= i < at + n - 1 ensures b[i] != NL { assert b[i] == whole[..n - 1][i - at]; }
    assert b[at + n - 1] == whole[n - 1];
    LineEndAt(b, at, n - 1);
    assert whole[..n] == b[at..at + n] && whole[n..] == b[at + n..stop];
  }

  lemma RecoverOne(dec: Decoder, b: Bytes, at: nat, last: nat, r: Rec)
    requires 0 < r.bytes && at + r.bytes <= |b| && LineEnd(b, at) == at + r.bytes && b[at + r.bytes - 1] == NL
    requires dec(b[at..at + r.bytes]) == Some((r.cursor, r.event)) && r.cursor > last
    ensures var (rest, good) := RecoverFrom(dec, b, at + r.bytes, r.cursor);
            RecoverFrom(dec, b, at, last) == ([r] + rest, good)
  {
  }

  lemma ConsPrefix(rs: seq<Rec>, rest: seq<Rec>)
    requires rs != [] && rs[1..] <= rest
    ensures rs <= [rs[0]] + rest
  {
    assert rs == [rs[0]] + rs[1..];
  }

  lemma {:induction false} RecoverLongest(dec: Decoder, b: Bytes, at: nat, last: nat, stop: nat, rs: seq<Rec>)
    requires at <= stop <= |b| && ParsesTo(dec, b[at..stop], rs, last)
    ensures var (got, good) := RecoverFrom(dec, b, at, last); stop <= good && rs <= got
    decreases |rs|
  {
    if rs != [] {
      FirstLine(dec, b, at, last, stop, rs);
      hide ParsesTo, RecoverFrom;
      var n := rs[0].bytes;
      RecoverLongest(dec, b, at + n, rs[0].cursor, stop, rs[1..]);
      RecoverOne(dec, b, at, last, rs[0]);
      ConsPrefix(rs, RecoverFrom(dec, b, at + n, rs[0].cursor).0);
    } else {
      assert b[at..stop] == [] && at == stop;
    }
  }

  /** Recovery keeps the longest well-formed prefix of any file, and nothing else. */
  lemma RecoveryLongest(dec: Decoder, b: Bytes)
    ensures var (rs, good) := RecoverFrom(dec, b, 0, 0);
            && ParsesTo(dec, b[..good], rs, 0)
            && forall stop, other | 0 <= stop <= |b| && ParsesTo(dec, b[..stop], other, 0) ::
                 stop <= good && other <= rs
  {
    var (rs, good) := RecoverFrom(dec, b, 0, 0);
    RecoverParses(dec, b, 0, 0);
    assert b[0..good] == b[..good];
    hide ParsesTo, RecoverFrom;
    forall stop, other | 0 <= stop <= |b| && ParsesTo(dec, b[..stop], other, 0)
      ensures stop <= good && other <= rs
    {
      assert b[0..stop] == b[..stop];
      RecoverLongest(dec, b, 0, 0, stop, other);
    }
  }

  /** Recovering the truncated file again changes nothing. */
  lemma RecoverTwice(dec: Decoder, b: Bytes)
    ensures var (rs, good) := RecoverFrom(dec, b, 0, 0); RecoverFrom(dec, b[..good], 0, 0) == (rs, good)
  {
    var (rs, good) := RecoverFrom(dec, b, 0, 0);
    var f := b[..good];
    RecoverParses(dec, b, 0, 0);
    RecoverParses(dec, f, 0, 0);
    hide ParsesTo;
    var (again, good2) := RecoverFrom(dec, f, 0, 0);
    assert f[0..good] == f == b[0..good];
    RecoverLongest(dec, f, 0, 0, good, rs);
    assert f[0..good2] == f;
    RecoverLongest(dec, b, 0, 0, good, again);
    assert again <= rs && rs <= again;
    assert |again| == |rs| && again == rs[..|rs|] == rs;
  }
}
