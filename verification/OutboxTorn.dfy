// A crash at any byte of any write of any call. An append cut short of its last byte loads
// as the file before it or after it. Cut of its newline alone it loads as the file after it,
// but the next line written runs on from it: what becomes of the file then depends on
// whether a compaction comes first, and this says how.
module OutboxTorn {
  import opened Common
  import opened EventContract
  import opened Lines
  import opened OutboxModel
  import opened OutboxSpec
  import opened OutboxProofs
  import opened OutboxCalls
  import opened OutboxCrash
  import opened OutboxRuns
  import opened OutboxFile

  // ---------- how one file follows another ----------

  /** `b` is a snapshot, put in place as a whole, or `a` with one entry more. */
  ghost predicate Follows(a: File, b: File) {
    || (|b.log| == 1 && b.log[0].op.Snapshot? && b.seam.None?)
    || (b.log != [] && b.log[..|b.log| - 1] == a.log && b.seam == a.seam)
  }

  ghost predicate Links(files: seq<File>) {
    forall i | 0 <= i < |files| - 1 :: Follows(files[i], files[i + 1])
  }

  /** The files of a call in order, the one it found first. */
  ghost predicate Chain(start: File, w: World) {
    var files := [start] + w.written;
    w.disk == files[|files| - 1] && Links(files)
  }

  lemma SaveChain(start: File, w: World, file: File)
    requires Chain(start, w) && Follows(w.disk, file)
    ensures Chain(start, Save(w, file))
  {
    hide Follows;
    var (files, more) := ([start] + w.written, [start] + Save(w, file).written);
    assert more == files + [file];
    forall i | 0 <= i < |more| - 1 ensures Follows(more[i], more[i + 1]) {
      if i < |files| - 1 { assert more[i] == files[i] && more[i + 1] == files[i + 1]; }
    }
  }

  lemma CompactChain(cfg: Config, start: File, w: World)
    requires SelfKeyed(w.mem.records) && Chain(start, w)
    ensures Chain(start, Compact(cfg, w).0)
  {
    var w1 := w.(faults := Later(w.faults));
    assert Chain(start, w1);
    hide Chain;
    SaveChain(start, w1, File([SnapshotEntry(cfg, w.mem)], None));
  }

  lemma AppendChain(cfg: Config, start: File, w: World, e: Entry)
    requires SelfKeyed(w.mem.records) && Chain(start, w)
    ensures Chain(start, Append(cfg, w, e).0)
  {
    hide Chain, Compact, FileSize;
    CompactChain(cfg, start, w);
    var w1 := if FileSize(cfg, w.disk) + cfg.lineSize(e) <= cfg.maxBytes then w else Compact(cfg, w).0;
    assert (w1.disk.log + [e])[..|w1.disk.log|] == w1.disk.log;
    SaveChain(start, w1, Extended(w1.disk, e));
  }

  lemma SameChain(start: File, w: World, m: Mem, faults: seq<bool>)
    requires Chain(start, w)
    ensures Chain(start, w.(mem := m)) && Chain(start, w.(faults := faults))
  {
  }

  lemma {:induction false} BoundaryChain(cfg: Config, start: File, w: World, e: Entry)
    requires SelfKeyed(w.mem.records) && Chain(start, w)
    ensures Chain(start, AppendBoundary(cfg, w, e).0)
    decreases w.mem.records.Keys
  {
    if OldestTerminal(w.mem.records).Some? {
      var k := OldestTerminal(w.mem.records).value;
      WithoutKeys(w.mem.records, k);
      var w0 := WithRecords(w, w.mem.records - {k});
      SameChain(start, w, w0.mem, []);
      hide Chain, Compact, Append;
      CompactChain(cfg, start, w0);
      CompactSame(cfg, w0);
      var (w1, st) := Compact(cfg, w0);
      if st == Ok {
        AppendChain(cfg, start, w1, e);
        AppendSame(cfg, w1, e);
        if Append(cfg, w1, e).1 == ErrCapacity { BoundaryChain(cfg, start, Append(cfg, w1, e).0, e); }
      }
    }
  }

  lemma CompactSame(cfg: Config, w: World)
    requires SelfKeyed(w.mem.records)
    ensures Compact(cfg, w).0.mem == w.mem
  {
  }

  lemma AppendSame(cfg: Config, w: World, e: Entry)
    requires SelfKeyed(w.mem.records)
    ensures Append(cfg, w, e).0.mem == w.mem
  {
  }

  lemma WriteChain(cfg: Config, start: File, w: World, e: Entry, phase: Phase)
    requires SelfKeyed(w.mem.records) && Chain(start, w)
    ensures Chain(start, Write(cfg, w, e, phase).0)
  {
    hide Chain, Append;
    AppendChain(cfg, start, w, e);
    AppendSame(cfg, w, e);
    var (w1, st) := Append(cfg, w, e);
    if st == ErrCapacity && !phase.Update? { BoundaryChain(cfg, start, w1, e); }
  }

  lemma RoomChain(cfg: Config, start: File, w: World, e: Event, choice: Option<string>)
    requires SelfKeyed(w.mem.records) && Chain(start, w)
    ensures Chain(start, MakeRoom(cfg, w, e, choice).0)
  {
    hide Compact, EvictDown;
    SameChain(start, w, w.mem.(dropped := w.mem.dropped + 1), []);
    if e.phase.Update? {
      if choice.Some? {
        var w0 := WithRecords(w, w.mem.records - {choice.value});
        SameChain(start, w, w0.mem, Compact(cfg, w0).0.faults);
        CompactChain(cfg, start, w0);
      }
    } else {
      EvictDownKeepsKeys(w.mem.records, cfg.maxRecords);
      var rs := EvictDown(w.mem.records, cfg.maxRecords);
      if rs.Some? {
        var w0 := WithRecords(w, rs.value);
        SameChain(start, w, w0.mem, Compact(cfg, w0).0.faults);
        CompactChain(cfg, start, w0);
      }
    }
    hide Chain;
  }

  lemma InsertChain(cfg: Config, start: File, w: World, e: Event, cursor: nat, alarm: bool, evidence: bool)
    requires SelfKeyed(w.mem.records) && Chain(start, w)
    ensures Chain(start, Insert(cfg, w, e, cursor, alarm, evidence).0)
  {
    hide Chain, Write;
    var (w0, entry) := Prepare(cfg, w, e, cursor, alarm, evidence);
    SameChain(start, w, w0.mem, []);
    WriteChain(cfg, start, w0, entry, e.phase);
    SameChain(start, Write(cfg, w0, entry, e.phase).0, Insert(cfg, w, e, cursor, alarm, evidence).0.mem, []);
  }

  lemma NoWrites(w: World)
    requires w.written == []
    ensures Chain(w.disk, w)
  {
  }

  lemma AckChain(cfg: Config, w: World, cursor: nat)
    requires SelfKeyed(w.mem.records) && Chain(w.disk, w)
    ensures Chain(w.disk, Ack(cfg, w, cursor).0)
  {
    hide Append, Chain;
    var e := Entry(JOURNAL_VERSION, "", AckOp(cursor));
    AppendChain(cfg, w.disk, w, e);
    SameChain(w.disk, Append(cfg, w, e).0, Append(cfg, w, e).0.mem.(lastAck := cursor), []);
  }

  lemma MarkChain(cfg: Config, w: World, c: Call)
    requires SelfKeyed(w.mem.records) && IsMark(c) && Chain(w.disk, w)
    ensures Chain(w.disk, MarkCall(cfg, w, c).0)
  {
    hide Append, Chain, MarkOp, MarkedRecord;
    if c.key in w.mem.records {
      var e := Entry(JOURNAL_VERSION, "", MarkOp(w.mem.records[c.key], c));
      AppendChain(cfg, w.disk, w, e);
      SameChain(w.disk, Append(cfg, w, e).0, MarkCall(cfg, w, c).0.mem, []);
    }
  }

  lemma RestartLinks(cfg: Config, w: World)
    requires SelfKeyed(w.mem.records) && w.written == []
    ensures Links([w.disk] + Restart(cfg, w, w.disk).0.written)
  {
    hide Replay, Found;
  }

  /** Each file a call puts in place follows the one before it. */
  lemma CallChain(cfg: Config, w: World, c: Call)
    requires SelfKeyed(w.mem.records) && w.written == []
    ensures Links([w.disk] + Complete(cfg, w, c).0.written)
    ensures !Restarts(c) ==> Chain(w.disk, Complete(cfg, w, c).0)
  {
    hide Append, Restart, MakeRoom, Insert, Key, ValidEvent, MarkCall, Ack, Links;
    NoWrites(w);
    match c {
      case CallEnqueue(e, cursor, alarm, evidence, choice) =>
        RoomChain(cfg, w.disk, w, e, choice);
        InsertChain(cfg, w.disk, MakeRoom(cfg, w, e, choice).0, e, cursor, alarm, evidence);
      case CallAck(cursor) => AckChain(cfg, w, cursor);
      case CallReopen => RestartLinks(cfg, w);
      case CallCrash(_, _, _) => RestartLinks(cfg, w);
      case _ => MarkChain(cfg, w, c);
    }
  }

  // ---------- crash at any byte of a call ----------

  /** From one write of a call to the next the file stays, is replaced as a whole by a
      snapshot, or gains one line. */
  lemma FilesFollow(cfg: Config, w: World, c: Call, at: nat)
    requires SelfKeyed(w.mem.records)
    ensures var (a, b) := (FileAt(cfg, w, c, at), FileAt(cfg, w, c, at + 1)); b == a || Follows(a, b)
  {
    CallChain(cfg, Begin(w), c);
    hide Complete, Follows;
    var files := [w.disk] + Complete(cfg, Begin(w), c).0.written;
    if at + 1 < |files| { assert Follows(files[at], files[at + 1]); }
  }

  /** What an append to a file leaves when it is cut after `k` bytes. A line that runs on from
      a lost newline is spoilt by its first byte. */
  function AfterCut(c: Codec, f: File, e: Entry, k: nat): File {
    if k == 0 || (f.seam.None? && k < |c.enc(e)|) then f
    else if k == |c.enc(e)| then CutShort(Extended(f, e))
    else Extended(f, e)
  }

  /** The load finds the same state, and leaves the same file behind. */
  predicate SameLoad(a: LoadResult, b: LoadResult) {
    match (a, b)
    case (Loaded(m, f, _), Loaded(n, g, _)) => m == n && f == g
    case (LoadFailed, LoadFailed) => true
    case _ => false
  }

  lemma RenderExtended(c: Codec, f: File, e: Entry)
    requires SeamIn(f)
    ensures RenderFile(c, Extended(f, e)) == RenderFile(c, f) + Line(c, e)
  {
    var log := f.log + [e];
    assert log[..|log| - 1] == f.log;
    if f.seam.Some? {
      var n := f.seam.value;
      assert log[..n] == f.log[..n];
      assert log[n + 1..][..|log[n + 1..]| - 1] == f.log[n + 1..];
    }
  }

  /** An append cut at any byte. */
  lemma AppendCut(cfg: Config, c: Codec, f: File, e: Entry, k: nat)
    requires Faithful(cfg, c) && k <= |Line(c, e)| && SeamIn(f) && !e.op.Snapshot?
    requires Replay(cfg, f.log + [e]).Some? && ShortFile(c, f) && ShortFile(c, Extended(f, e))
    ensures SameLoad(Load(cfg, c, RenderFile(c, f) + Line(c, e)[..k]),
                     Load(cfg, c, RenderFile(c, AfterCut(c, f, e, k))))
  {
    hide Faithful, Load, Replay, RenderFile, Render, ShortFile;
    if k == 0 {
      assert RenderFile(c, f) + Line(c, e)[..k] == RenderFile(c, f);
    } else if k == |Line(c, e)| {
      RenderExtended(c, f, e);
      assert Line(c, e)[..k] == Line(c, e);
    } else if f.seam.None? {
      CutWhole(cfg, c, f, e, k);
    } else {
      CutSpoilt(cfg, c, f, e, k);
    }
  }

  lemma ReplayFront(cfg: Config, log: seq<Entry>, e: Entry)
    requires Replay(cfg, log + [e]).Some?
    ensures Replay(cfg, log).Some?
  {
    ReplaySnoc(cfg, log, e);
  }

  lemma CutWhole(cfg: Config, c: Codec, f: File, e: Entry, k: nat)
    requires Faithful(cfg, c) && 0 < k < |Line(c, e)| && f.seam.None? && !e.op.Snapshot?
    requires Replay(cfg, f.log + [e]).Some? && ShortFile(c, f) && ShortFile(c, Extended(f, e))
    ensures SameLoad(Load(cfg, c, RenderFile(c, f) + Line(c, e)[..k]),
                     Load(cfg, c, RenderFile(c, AfterCut(c, f, e, k))))
  {
    hide Faithful, Load, Replay, Render;
    WholeShort(c, Extended(f, e));
    CrashAtomic(cfg, c, f.log, e, k);
    ReplayFront(cfg, f.log, e);
    if k < |c.enc(e)| {
      FileLoads(cfg, c, f);
    } else {
      var g := CutShort(Extended(f, e));
      assert AfterCut(c, f, e, k) == g && g.log[..|f.log|] == f.log && g.log[|f.log| + 1..] == [];
      RenderNone(c);
      assert Line(c, e)[..k] == c.enc(e);
      assert RenderFile(c, g) == RenderFile(c, f) + Line(c, e)[..k];
    }
  }

  lemma RenderNone(c: Codec)
    ensures Render(c, []) == []
  {
  }

  lemma WholeShort(c: Codec, f: File)
    requires f.seam.None? && ShortFile(c, f)
    ensures ShortLines(c, f.log)
  {
    forall i | 0 <= i < |f.log| ensures f.log[i].op != Malformed && |Line(c, f.log[i])| <= LINE_LIMIT {
      assert LineLength(c, f, i) <= LINE_LIMIT;
    }
  }

  /** A line cut short behind a line without its newline. */
  lemma CutSpoilt(cfg: Config, c: Codec, f: File, e: Entry, k: nat)
    requires Faithful(cfg, c) && 0 < k < |Line(c, e)| && f.seam.Some? && SeamIn(f)
    requires Replay(cfg, f.log + [e]).Some? && ShortFile(c, Extended(f, e))
    ensures SameLoad(Load(cfg, c, RenderFile(c, f) + Line(c, e)[..k]), Load(cfg, c, RenderFile(c, Extended(f, e))))
  {
    hide Faithful, Load, Replay, Render, ShortFile, LoadFrom, Trim;
    var n := f.seam.value;
    var (front, a) := (f.log[..n], f.log[n]);
    var g := Extended(f, e);
    assert g.log[..n] == front && g.log[n] == a;
    FileLoads(cfg, c, g);
    ReplayFront(cfg, f.log, e);
    ReplayPrefix(cfg, f.log, n);
    ShortGlued(c, g);
    assert Line(c, e)[..k] == c.enc(e)[..k];
    if n + 1 == |f.log| {
      var tail := c.enc(a) + c.enc(e)[..k];
      assert g.log[n + 1] == e;
      RenderNone(c);
      assert f.log[n + 1..] == [];
      assert RenderFile(c, f) + Line(c, e)[..k] == Render(c, front) + tail;
      NoNewline(cfg, c, a, e, k);
      LoadRendered(cfg, c, front, tail);
      TornTail(cfg, c, Render(c, front), tail, Replay(cfg, front).value);
    } else {
      assert g.log[n + 1] == f.log[n + 1];
      SpoiltInside(cfg, c, f, Line(c, e)[..k]);
    }
  }

  lemma NoNewline(cfg: Config, c: Codec, a: Entry, e: Entry, k: nat)
    requires Faithful(cfg, c) && 0 < k <= |c.enc(e)|
    ensures var tail := c.enc(a) + c.enc(e)[..k];
            && tail != [] && NL !in tail[..|tail| - 1] && Torn(c, tail)
            && |tail| <= |c.enc(a)| + |Line(c, e)|
  {
    var tail := c.enc(a) + c.enc(e)[..k];
    forall i | 0 <= i < |tail| ensures tail[i] != NL {
      if i < |c.enc(a)| { assert tail[i] in c.enc(a); } else { assert tail[i] in c.enc(e); }
    }
    hide Trim, Torn;
  }

  lemma SpoiltInside(cfg: Config, c: Codec, f: File, more: Bytes)
    requires Faithful(cfg, c) && f.seam.Some? && f.seam.value + 1 < |f.log| && Replay(cfg, f.log).Some? && more != []
    ensures Load(cfg, c, RenderFile(c, f) + more).LoadFailed?
  {
    hide Faithful, Replay, Render, LoadFrom, RenderFile;
    var n := f.seam.value;
    var (front, a, b) := (f.log[..n], f.log[n], f.log[n + 1]);
    var rest := Render(c, f.log[n + 2..]) + more;
    RenderGlued(c, f);
    ReplayPrefix(cfg, f.log, n);
    var glued := c.enc(a) + Line(c, b);
    assert RenderFile(c, f) + more == Render(c, front) + (glued + rest);
    assert Render(c, front) + (glued + rest) == Render(c, front) + glued + rest;
    LoadRendered(cfg, c, front, glued + rest);
    GluedLine(cfg, c, Render(c, front), a, b, rest, Replay(cfg, front).value);
  }

  /** The load of the bytes and the load of the model. */
  lemma LoadIs(cfg: Config, c: Codec, f: File, faults: seq<bool>)
    requires Faithful(cfg, c) && SeamIn(f) && Replay(cfg, f.log).Some? && ShortFile(c, f)
    ensures var (r, s) := (Load(cfg, c, RenderFile(c, f)), LoadStore(cfg, f, faults));
            && (r.Loaded? <==> s.Some?)
            && (r.Loaded? ==> r.mem == s.value.mem && r.file == RenderFile(c, s.value.disk))
  {
    hide Faithful, Load, Replay, RenderFile, ShortFile;
    FileLoads(cfg, c, f);
  }

  lemma CrashFinds(cfg: Config, w: World, c: Call, at: nat)
    requires Logged(cfg, w) && SelfKeyed(w.mem.records) && (Restarts(c) ==> Sealed(w.disk))
    requires ChoiceOk(w.mem.records, c) && CallerSafe(w.mem.records, c)
    ensures Replay(cfg, FileAt(cfg, w, c, at).log).Some? && SeamIn(FileAt(cfg, w, c, at))
  {
    hide Complete, FileAt, ChoiceOk, CallerSafe;
    PoisonedSafe(cfg, w, c, at);
    var via := FileAtIs(cfg, w, c, at);
  }

  lemma PoisonedSafe(cfg: Config, w: World, c: Call, at: nat)
    requires SelfKeyed(w.mem.records) && CallerSafe(w.mem.records, c)
    ensures !Poisoned(cfg, w, c, at)
  {
  }

  lemma ShortCutFile(c: Codec, f: File)
    requires ShortFile(c, f)
    ensures ShortFile(c, CutShort(f))
  {
    var g := CutShort(f);
    forall i | 0 <= i < |g.log| ensures g.log[i].op != Malformed && LineLength(c, g, i) <= LINE_LIMIT {
      assert LineLength(c, f, i) <= LINE_LIMIT;
    }
  }

  /** Cut a line that a call appends at any byte: the load finds what a restart finds after
      one of the model's crashes, just before that write, just after it, or just after it
      and without its newline. */
  lemma CrashAnywhere(cfg: Config, c: Codec, w: World, call: Call, at: nat, e: Entry, k: nat)
    requires Faithful(cfg, c) && k <= |Line(c, e)| && !e.op.Snapshot?
    requires Logged(cfg, w) && SelfKeyed(w.mem.records) && (Restarts(call) ==> Sealed(w.disk))
    requires ChoiceOk(w.mem.records, call) && CallerSafe(w.mem.records, call)
    requires FileAt(cfg, w, call, at + 1) == Extended(FileAt(cfg, w, call, at), e)
    requires ShortFile(c, FileAt(cfg, w, call, at)) && ShortFile(c, FileAt(cfg, w, call, at + 1))
    ensures var f := FileAt(cfg, w, call, at);
            var n := if k == 0 || (f.seam.None? && k < |c.enc(e)|) then at else at + 1;
            var r := Load(cfg, c, RenderFile(c, f) + Line(c, e)[..k]);
            var s := LoadStore(cfg, CrashFile(cfg, w, call, n, n > at && k == |c.enc(e)|), w.faults);
            && (r.Loaded? <==> s.Some?)
            && (r.Loaded? ==> r.mem == s.value.mem && r.file == RenderFile(c, s.value.disk))
  {
    hide Faithful, Load, LoadStore, Replay, RenderFile, ShortFile, Logged, ChoiceOk, CallerSafe, SeamIn, AfterCut;
    var (f, g) := (FileAt(cfg, w, call, at), FileAt(cfg, w, call, at + 1));
    CrashFinds(cfg, w, call, at);
    CrashFinds(cfg, w, call, at + 1);
    AppendCut(cfg, c, f, e, k);
    var h := CutIsCrash(cfg, c, w, call, at, e, k);
    hide FileAt, CrashFile;
    AfterCutOk(cfg, c, f, e, k);
    LoadIs(cfg, c, h, w.faults);
  }

  /** The file that a cut leaves is the one the model's crash leaves. */
  lemma CutIsCrash(cfg: Config, c: Codec, w: World, call: Call, at: nat, e: Entry, k: nat) returns (h: File)
    requires SelfKeyed(w.mem.records) && FileAt(cfg, w, call, at + 1) == Extended(FileAt(cfg, w, call, at), e)
    ensures var f := FileAt(cfg, w, call, at);
            var n := if k == 0 || (f.seam.None? && k < |c.enc(e)|) then at else at + 1;
            && h == AfterCut(c, f, e, k)
            && h == CrashFile(cfg, w, call, n, n > at && k == |c.enc(e)|)
  {
    hide Complete;
    h := AfterCut(c, FileAt(cfg, w, call, at), e, k);
  }

  lemma AfterCutOk(cfg: Config, c: Codec, f: File, e: Entry, k: nat)
    requires SeamIn(f) && Replay(cfg, f.log + [e]).Some? && Replay(cfg, f.log).Some?
    requires ShortFile(c, f) && ShortFile(c, Extended(f, e))
    ensures var h := AfterCut(c, f, e, k); SeamIn(h) && Replay(cfg, h.log).Some? && ShortFile(c, h)
  {
    hide ShortFile, Replay;
    ShortCutFile(c, Extended(f, e));
  }
}
