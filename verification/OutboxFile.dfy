// The outbox file as bytes: how a load treats a torn tail, and what a crash at any
// byte of an append leaves behind.
module OutboxFile {
  import opened Common
  import opened EventContract
  import opened Lines
  import opened OutboxModel
  import opened OutboxSpec
  import opened OutboxProofs
  import opened OutboxCalls
  import opened OutboxRuns

  const LINE_LIMIT: nat := 0x80_0000

  /** The JSON encoder of one entry, without the newline, and the decoder of a trimmed line. */
  datatype Codec = Codec(enc: Entry -> Bytes, dec: Bytes -> Option<Entry>)

  predicate Space(b: bv8) { b == 32 || 9 <= b <= 13 }

  function TrimLeft(s: Bytes): Bytes {
    if s != [] && Space(s[0]) then TrimLeft(s[1..]) else s
  }

  function TrimRight(s: Bytes): Bytes {
    if s != [] && Space(s[|s| - 1]) then TrimRight(s[..|s| - 1]) else s
  }

  function Trim(s: Bytes): Bytes { TrimRight(TrimLeft(s)) }

  /** What the model needs of JSON objects: they decode to themselves, hold no raw
      newline, and neither a proper prefix decodes nor one with the start of another, or the
      whole of it, behind it. */
  ghost predicate Faithful(cfg: Config, c: Codec) {
    && (forall e: Entry :: c.enc(e) != [] && NL !in c.enc(e) && Trim(c.enc(e)) == c.enc(e))
    && (forall e: Entry | e.op != Malformed :: c.dec(c.enc(e)) == Some(e))
    && (forall e: Entry, k: nat | 0 < k < |c.enc(e)| :: Torn(c, c.enc(e)[..k]))
    && (forall e: Entry, f: Entry, k: nat | 0 < k <= |c.enc(f)| :: Torn(c, c.enc(e) + c.enc(f)[..k]))
    && (forall e: Entry :: cfg.lineSize(e) == |c.enc(e)| + 1)
  }

  predicate Torn(c: Codec, s: Bytes) { Trim(s) == [] || c.dec(Trim(s)) == None }

  function Line(c: Codec, e: Entry): Bytes { c.enc(e) + [NL] }

  function Render(c: Codec, log: seq<Entry>): Bytes {
    if log == [] then [] else Render(c, log[..|log| - 1]) + Line(c, log[|log| - 1])
  }

  datatype LoadResult = Loaded(mem: Mem, file: Bytes, recoveredTail: bool) | LoadFailed

  function LoadFrom(cfg: Config, c: Codec, b: Bytes, at: nat, m: Mem): LoadResult
    requires at <= |b|
    decreases |b| - at
  {
    if at == |b| then Loaded(m, b, false)
    else
      var end := LineEnd(b, at);
      var payload := Trim(b[at..end]);
      if end - at > LINE_LIMIT then LoadFailed
      else if payload == [] || c.dec(payload).None? then
        if end == |b| then Loaded(m, b[..at], true) else LoadFailed
      else
        match Apply(cfg, m, c.dec(payload).value)
        case None => LoadFailed
        case Some(m1) => if b[end - 1] != NL then Loaded(m1, b, false) else LoadFrom(cfg, c, b, end, m1)
  }

  function Load(cfg: Config, c: Codec, b: Bytes): LoadResult { LoadFrom(cfg, c, b, 0, EmptyMem) }

  /** The loop of `load`: read a line, decode, apply, stop at the tail. */
  method LoadFile(cfg: Config, c: Codec, b: Bytes) returns (r: LoadResult)
    ensures r == Load(cfg, c, b)
  {
    var at, m := 0, EmptyMem;
    while at < |b|
      invariant at <= |b|
      invariant LoadFrom(cfg, c, b, at, m) == Load(cfg, c, b)
      decreases |b| - at
    {
      var start, end := at, at;
      while end < |b| && (end == start || b[end - 1] != NL)
        invariant start <= end <= |b|
        invariant end < |b| && (end == start || b[end - 1] != NL) ==> LineEnd(b, start) == LineEnd(b, end)
        invariant end > start && !(end < |b| && b[end - 1] != NL) ==> LineEnd(b, start) == end
        decreases |b| - end
      {
        end := end + 1;
      }
      if end - start > LINE_LIMIT { return LoadFailed; }
      var payload := Trim(b[start..end]);
      if payload == [] || c.dec(payload).None? {
        return if end == |b| then Loaded(m, b[..start], true) else LoadFailed;
      }
      var next := Apply(cfg, m, c.dec(payload).value);
      if next.None? { return LoadFailed; }
      m := next.value;
      if b[end - 1] != NL { return Loaded(m, b, false); }
      at := end;
    }
    r := Loaded(m, b, false);
  }

  // ---------- complete lines ----------

  lemma TrimLine(cfg: Config, c: Codec, e: Entry)
    requires Faithful(cfg, c)
    ensures Trim(Line(c, e)) == c.enc(e)
  {
    var s := c.enc(e);
    TrimEnds(s);
    assert Line(c, e)[..|s|] == s;
  }

  lemma {:induction false} TrimShrinks(s: Bytes)
    ensures |TrimLeft(s)| <= |s| && |TrimRight(s)| <= |s|
    ensures s != [] && Space(s[0]) ==> |TrimLeft(s)| < |s|
  {
    if s != [] { TrimShrinks(s[1..]); TrimShrinks(s[..|s| - 1]); }
  }

  lemma TrimEnds(s: Bytes)
    requires s != [] && Trim(s) == s
    ensures !Space(s[0]) && !Space(s[|s| - 1]) && TrimLeft(s) == s && TrimRight(s) == s
  {
    TrimShrinks(s);
    TrimShrinks(TrimLeft(s));
    TrimShrinks(s[..|s| - 1]);
  }

  /** A whole line is applied and the load moves to the next one. */
  lemma LoadLine(cfg: Config, c: Codec, b: Bytes, at: nat, e: Entry, m: Mem)
    requires Faithful(cfg, c) && e.op != Malformed && Apply(cfg, m, e).Some?
    requires at + |Line(c, e)| <= |b| && b[at..at + |Line(c, e)|] == Line(c, e)
    ensures LoadFrom(cfg, c, b, at, m)
            == if |Line(c, e)| > LINE_LIMIT then LoadFailed
               else LoadFrom(cfg, c, b, at + |Line(c, e)|, Apply(cfg, m, e).value)
  {
    var n := |c.enc(e)|;
    forall i | at <= i < at + n ensures b[i] != NL {
      assert b[i] == b[at..at + n + 1][i - at] == c.enc(e)[i - at];
    }
    assert b[at + n] == b[at..at + n + 1][n];
    LineEndAt(b, at, n);
    TrimLine(cfg, c, e);
  }

  /** No entry is malformed and every line is short enough to be read back. */
  predicate ShortLines(c: Codec, log: seq<Entry>) {
    forall i | 0 <= i < |log| :: log[i].op != Malformed && |Line(c, log[i])| <= LINE_LIMIT
  }

  lemma ShortSnoc(c: Codec, log: seq<Entry>)
    requires log != []
    ensures var e := log[|log| - 1];
            ShortLines(c, log) <==> ShortLines(c, log[..|log| - 1]) && e.op != Malformed && |Line(c, e)| <= LINE_LIMIT
  {
    assert forall i | 0 <= i < |log| - 1 :: log[..|log| - 1][i] == log[i];
  }

  /** The load gets past the rendered lines exactly when each is short enough. */
  lemma {:induction false} LoadRendered(cfg: Config, c: Codec, log: seq<Entry>, tail: Bytes)
    requires Faithful(cfg, c) && Replay(cfg, log).Some?
    ensures Load(cfg, c, Render(c, log) + tail) ==
            if ShortLines(c, log)
            then LoadFrom(cfg, c, Render(c, log) + tail, |Render(c, log)|, Replay(cfg, log).value)
            else LoadFailed
  {
    hide Apply, LoadFrom, Faithful;
    assert log == [] ==> ShortLines(c, log);
    if log != [] {
      var front, e := log[..|log| - 1], log[|log| - 1];
      var rest := Line(c, e) + tail;
      LoadRendered(cfg, c, front, rest);
      ShortSnoc(c, log);
      NotMalformed(cfg, front, e);
      var b := Render(c, front) + rest;
      assert b == Render(c, log) + tail;
      assert b[|Render(c, front)|..|Render(c, front)| + |Line(c, e)|] == Line(c, e);
      LoadLine(cfg, c, b, |Render(c, front)|, e, Replay(cfg, front).value);
    }
  }

  lemma NotMalformed(cfg: Config, front: seq<Entry>, e: Entry)
    requires Replay(cfg, front).Some? && Apply(cfg, Replay(cfg, front).value, e).Some?
    ensures e.op != Malformed
  {
  }

  // ---------- crash at any byte ----------

  /** What an append interrupted after `k` bytes leaves in the file. */
  function Cut(c: Codec, log: seq<Entry>, e: Entry, k: nat): Bytes
    requires k <= |Line(c, e)|
  {
    Render(c, log) + Line(c, e)[..k]
  }

  /** A last line that does not decode is cut off. */
  lemma TornTail(cfg: Config, c: Codec, pre: Bytes, tail: Bytes, m: Mem)
    requires 0 < |tail| <= LINE_LIMIT && NL !in tail[..|tail| - 1] && Torn(c, tail)
    ensures LoadFrom(cfg, c, pre + tail, |pre|, m) == Loaded(m, pre, true)
  {
    hide Apply;
    var b, at := pre + tail, |pre|;
    forall i | at <= i < |b| - 1 ensures b[i] != NL { assert b[i] == tail[..|tail| - 1][i - at]; }
    LastLineEnd(b, at);
    assert b[at..|b|] == tail && b[..at] == pre;
  }

  /** A last line that decodes but lacks its newline is applied as it stands. */
  lemma UnterminatedTail(cfg: Config, c: Codec, pre: Bytes, e: Entry, m: Mem)
    requires Faithful(cfg, c) && e.op != Malformed && Apply(cfg, m, e).Some?
    ensures LoadFrom(cfg, c, pre + c.enc(e), |pre|, m) ==
            if |c.enc(e)| > LINE_LIMIT then LoadFailed
            else Loaded(Apply(cfg, m, e).value, pre + c.enc(e), false)
  {
    hide Apply;
    var b, at := pre + c.enc(e), |pre|;
    LastLineEnd(b, at);
    assert b[at..|b|] == c.enc(e) && b[|b| - 1] in c.enc(e);
  }

  /** Crash atomicity: a load finds the state before the append or the state after it.
      A torn line is cut off; a line that lacks only its newline is taken as it stands. */
  lemma CrashAtomic(cfg: Config, c: Codec, log: seq<Entry>, e: Entry, k: nat)
    requires Faithful(cfg, c) && ShortLines(c, log + [e])
    requires Replay(cfg, log + [e]).Some? && k <= |Line(c, e)|
    ensures Replay(cfg, log).Some?
    ensures Load(cfg, c, Cut(c, log, e, k)) ==
            if k == 0 then Loaded(Replay(cfg, log).value, Render(c, log), false)
            else if k < |c.enc(e)| then Loaded(Replay(cfg, log).value, Render(c, log), true)
            else Loaded(Replay(cfg, log + [e]).value, Cut(c, log, e, k), false)
  {
    ReplaySnoc(cfg, log, e);
    ShortFront(c, log, e);
    hide Apply, Replay;
    var tail := Line(c, e)[..k];
    if k == |Line(c, e)| {
      assert (log + [e])[..|log|] == log;
      assert Cut(c, log, e, k) == Render(c, log + [e]) + [];
      LoadRendered(cfg, c, log + [e], []);
    } else {
      assert tail == c.enc(e)[..k];
      LoadRendered(cfg, c, log, tail);
      if k == |c.enc(e)| {
        UnterminatedTail(cfg, c, Render(c, log), e, Replay(cfg, log).value);
      } else if k > 0 {
        TornTail(cfg, c, Render(c, log), tail, Replay(cfg, log).value);
      }
    }
  }

  /** The entries a load recovers after the crash. */
  function Survivors(c: Codec, log: seq<Entry>, e: Entry, k: nat): seq<Entry> {
    if k < |c.enc(e)| then log else log + [e]
  }

  /** Recover after the crash, append `f` in full, and load again: `f` survives exactly
      when the crash did not stop just short of the newline. In that one case `e` and
      `f` share a line, which the next load drops, so both are gone. */
  lemma RecoverThenAppend(cfg: Config, c: Codec, log: seq<Entry>, e: Entry, k: nat, f: Entry)
    requires Faithful(cfg, c) && ShortLines(c, log + [e]) && k <= |Line(c, e)|
    requires Replay(cfg, log + [e]).Some? && f.op != Malformed
    requires |c.enc(e)| + |Line(c, f)| <= LINE_LIMIT
    requires Replay(cfg, Survivors(c, log, e, k) + [f]).Some?
    ensures Load(cfg, c, Cut(c, log, e, k)).Loaded?
    ensures var again := Load(cfg, c, Load(cfg, c, Cut(c, log, e, k)).file + Line(c, f));
            && (k != |c.enc(e)| <==> again == Loaded(Replay(cfg, Survivors(c, log, e, k) + [f]).value,
                                                     Render(c, Survivors(c, log, e, k) + [f]), false))
            && (k == |c.enc(e)| ==> again == Loaded(Replay(cfg, log).value, Render(c, log), true))
  {
    CrashAtomic(cfg, c, log, e, k);
    assert |c.enc(e)| < |Line(c, e)|;
    hide *;
    if k == |c.enc(e)| {
      LoadGlued(cfg, c, log, e, f);
    } else {
      LoadExtended(cfg, c, log, e, k, f);
    }
  }

  lemma LoadGlued(cfg: Config, c: Codec, log: seq<Entry>, e: Entry, f: Entry)
    requires Faithful(cfg, c) && ShortLines(c, log + [e]) && Replay(cfg, log).Some?
    requires |c.enc(e)| + |Line(c, f)| <= LINE_LIMIT
    ensures Load(cfg, c, Cut(c, log, e, |c.enc(e)|) + Line(c, f))
            == Loaded(Replay(cfg, log).value, Render(c, log), true)
  {
    hide Apply, Replay;
    assert Cut(c, log, e, |c.enc(e)|) + Line(c, f) == Render(c, log) + (c.enc(e) + c.enc(f) + [NL]);
    var tail := c.enc(e) + c.enc(f) + [NL];
    ShortFront(c, log, e);
    LoadRendered(cfg, c, log, tail);
    TornGlued(cfg, c, e, f);
    assert tail == c.enc(e) + Line(c, f);
    TornTail(cfg, c, Render(c, log), tail, Replay(cfg, log).value);
  }

  lemma LoadExtended(cfg: Config, c: Codec, log: seq<Entry>, e: Entry, k: nat, f: Entry)
    requires Faithful(cfg, c) && ShortLines(c, log + [e]) && k <= |Line(c, e)| && k != |c.enc(e)|
    requires f.op != Malformed && |Line(c, f)| <= LINE_LIMIT
    requires Replay(cfg, Survivors(c, log, e, k) + [f]).Some?
    ensures var base := Survivors(c, log, e, k);
            var file := if k < |c.enc(e)| then Render(c, log) else Cut(c, log, e, k);
            Load(cfg, c, file + Line(c, f)) == Loaded(Replay(cfg, base + [f]).value, Render(c, base + [f]), false)
  {
    hide Apply, Replay;
    var base := Survivors(c, log, e, k);
    ShortFront(c, log, e);
    assert (log + [e])[..|log|] == log;
    assert (base + [f])[..|base|] == base;
    var file := if k < |c.enc(e)| then Render(c, log) else Cut(c, log, e, k);
    assert file == Render(c, base) by { assert Line(c, e)[..|Line(c, e)|] == Line(c, e); }
    assert file + Line(c, f) == Render(c, base + [f]) + [];
    LoadRendered(cfg, c, base + [f], []);
  }

  lemma ShortFront(c: Codec, log: seq<Entry>, e: Entry)
    requires ShortLines(c, log + [e])
    ensures ShortLines(c, log) && e.op != Malformed && |Line(c, e)| <= LINE_LIMIT
  {
    assert (log + [e])[|log|] == e;
    forall i | 0 <= i < |log| ensures log[i].op != Malformed && |Line(c, log[i])| <= LINE_LIMIT {
      assert (log + [e])[i] == log[i];
    }
  }

  lemma TrimGlued(cfg: Config, c: Codec, e: Entry, f: Entry)
    requires Faithful(cfg, c)
    ensures Trim(c.enc(e) + c.enc(f) + [NL]) == c.enc(e) + c.enc(f)
  {
    TrimEnds(c.enc(e));
    TrimEnds(c.enc(f));
    var s := c.enc(e) + c.enc(f);
    assert s[|s| - 1] == c.enc(f)[|c.enc(f)| - 1];
    assert TrimRight(s) == s && TrimLeft(s + [NL]) == s + [NL];
    assert (s + [NL])[..|s|] == s;
  }

  // ---------- loading twice ----------

  lemma {:induction false} ReloadFrom(cfg: Config, c: Codec, b: Bytes, at: nat, m: Mem)
    requires at <= |b| && LoadFrom(cfg, c, b, at, m).Loaded?
    ensures var r := LoadFrom(cfg, c, b, at, m);
            && at <= |r.file| <= |b| && r.file == b[..|r.file|]
            && LoadFrom(cfg, c, r.file, at, m) == Loaded(r.mem, r.file, false)
    decreases |b| - at
  {
    hide Apply;
    if at == |b| {
      assert b[..|b|] == b;
    } else {
      var end := LineEnd(b, at);
      var payload := Trim(b[at..end]);
      if payload == [] || c.dec(payload).None? {
      } else if b[end - 1] != NL {
        assert b[..|b|] == b;
      } else {
        var m1 := Apply(cfg, m, c.dec(payload).value).value;
        ReloadFrom(cfg, c, b, end, m1);
        var f := LoadFrom(cfg, c, b, end, m1).file;
        LineEndPrefix(b, |f|, at);
        assert f[at..end] == b[at..end];
      }
    }
  }

  /** Whatever a load recovers from any file, loading the file it leaves behind finds
      the same state and cuts nothing more. */
  lemma ReloadSame(cfg: Config, c: Codec, b: Bytes)
    requires Load(cfg, c, b).Loaded?
    ensures Load(cfg, c, Load(cfg, c, b).file) == Loaded(Load(cfg, c, b).mem, Load(cfg, c, b).file, false)
  {
    ReloadFrom(cfg, c, b, 0, EmptyMem);
  }

  // ---------- files with a seam ----------

  /** The bytes of a file. */
  function RenderFile(c: Codec, f: File): Bytes {
    if f.seam.None? || f.seam.value >= |f.log| then Render(c, f.log)
    else
      var n := f.seam.value;
      Render(c, f.log[..n]) + c.enc(f.log[n]) + Render(c, f.log[n + 1..])
  }

  /** The bytes of the line that entry `i` begins. */
  function LineLength(c: Codec, f: File, i: nat): nat
    requires i < |f.log|
  {
    if f.seam != Some(i) then |Line(c, f.log[i])|
    else if i + 1 == |f.log| then |c.enc(f.log[i])|
    else |c.enc(f.log[i])| + |Line(c, f.log[i + 1])|
  }

  /** No entry is malformed and every line is short enough to be read back. */
  predicate ShortFile(c: Codec, f: File) {
    forall i | 0 <= i < |f.log| :: f.log[i].op != Malformed && LineLength(c, f, i) <= LINE_LIMIT
  }

  lemma {:induction false} RenderSize(cfg: Config, c: Codec, log: seq<Entry>)
    requires Faithful(cfg, c)
    ensures |Render(c, log)| == LogSize(cfg, log)
  {
    if log != [] { RenderSize(cfg, c, log[..|log| - 1]); }
  }

  lemma {:induction false} LogSizeSplit(cfg: Config, log: seq<Entry>, n: nat)
    requires n <= |log|
    ensures LogSize(cfg, log) == LogSize(cfg, log[..n]) + LogSize(cfg, log[n..])
  {
    if n == |log| {
      assert log[..n] == log && log[n..] == [];
    } else {
      var front := log[..|log| - 1];
      LogSizeSplit(cfg, front, n);
      assert front[..n] == log[..n] && front[n..] == log[n..][..|log[n..]| - 1];
    }
  }

  /** The model's size of a file is the number of its bytes. */
  lemma FileSizeIs(cfg: Config, c: Codec, f: File)
    requires Faithful(cfg, c) && SeamIn(f)
    ensures |RenderFile(c, f)| == FileSize(cfg, f)
  {
    hide Faithful;
    RenderSize(cfg, c, f.log);
    if f.seam.Some? {
      var n := f.seam.value;
      var (a, b) := (f.log[..n], f.log[n + 1..]);
      LogSizeSplit(cfg, f.log, n);
      LogSizeSplit(cfg, f.log[n..], 1);
      assert f.log[n..][..1] == [f.log[n]] && f.log[n..][1..] == b;
      LogSizeOne(cfg, c, f.log[n]);
      RenderSize(cfg, c, a);
      RenderSize(cfg, c, b);
    }
  }

  lemma LogSizeOne(cfg: Config, c: Codec, e: Entry)
    requires Faithful(cfg, c)
    ensures LogSize(cfg, [e]) == |c.enc(e)| + 1
  {
    ReplayOne(cfg, e);
  }

  lemma {:induction false} ReplayPrefix(cfg: Config, log: seq<Entry>, n: nat)
    requires n <= |log| && Replay(cfg, log).Some?
    ensures Replay(cfg, log[..n]).Some?
  {
    if n == |log| {
      assert log[..n] == log;
    } else {
      assert log[..|log| - 1][..n] == log[..n];
      ReplayPrefix(cfg, log[..|log| - 1], n);
    }
  }

  lemma TornGlued(cfg: Config, c: Codec, e: Entry, f: Entry)
    requires Faithful(cfg, c)
    ensures var tail := c.enc(e) + Line(c, f);
            && tail != [] && tail[|tail| - 1] == NL && NL !in tail[..|tail| - 1] && |tail| == |c.enc(e)| + |Line(c, f)|
            && Torn(c, tail) && Trim(tail) != [] && c.dec(Trim(tail)) == None
  {
    var s := c.enc(e) + c.enc(f);
    var tail := c.enc(e) + Line(c, f);
    assert tail == s + [NL] && tail[..|tail| - 1] == s;
    TrimGlued(cfg, c, e, f);
    assert c.enc(f)[..|c.enc(f)|] == c.enc(f);
    assert Torn(c, s) && Trim(s) == s by { TrimWhole(cfg, c, e, f); }
  }

  lemma TrimWhole(cfg: Config, c: Codec, e: Entry, f: Entry)
    requires Faithful(cfg, c)
    ensures Torn(c, c.enc(e) + c.enc(f)) && Trim(c.enc(e) + c.enc(f)) == c.enc(e) + c.enc(f)
  {
    assert c.enc(f)[..|c.enc(f)|] == c.enc(f);
    TrimEnds(c.enc(e));
    TrimEnds(c.enc(f));
    var s := c.enc(e) + c.enc(f);
    assert s[|s| - 1] == c.enc(f)[|c.enc(f)| - 1];
    assert TrimLeft(s) == s && TrimRight(s) == s;
  }

  /** A line that holds two entries: cut off at the end of the file, fatal before it. */
  lemma GluedLine(cfg: Config, c: Codec, pre: Bytes, e: Entry, f: Entry, rest: Bytes, m: Mem)
    requires Faithful(cfg, c)
    ensures LoadFrom(cfg, c, pre + (c.enc(e) + Line(c, f)) + rest, |pre|, m) ==
            if rest == [] && |c.enc(e)| + |Line(c, f)| <= LINE_LIMIT then Loaded(m, pre, true) else LoadFailed
  {
    TornGlued(cfg, c, e, f);
    hide Apply, Faithful, Trim, Torn, Line;
    var tail := c.enc(e) + Line(c, f);
    var (b, at, n) := (pre + tail + rest, |pre|, |tail| - 1);
    assert b[at..at + n + 1] == tail && b[..at] == pre;
    forall i | at <= i < at + n ensures b[i] != NL { assert b[i] == tail[..n][i - at]; }
    assert b[at + n] == tail[n];
    LineEndAt(b, at, n);
  }

  /** What a load makes of a file whose entries replay: it fails on a line that is too long
      and on one that holds two entries and has another behind it. */
  lemma FileLoads(cfg: Config, c: Codec, f: File)
    requires Faithful(cfg, c) && SeamIn(f) && Replay(cfg, f.log).Some?
    ensures Found(f).Some? ==> Replay(cfg, Found(f).value.log).Some?
    ensures Load(cfg, c, RenderFile(c, f)) ==
            match Found(f)
            case None => LoadFailed
            case Some(g) =>
              if ShortFile(c, f) then Loaded(Replay(cfg, g.log).value, RenderFile(c, g), g != f) else LoadFailed
  {
    hide Apply, Faithful, LoadFrom, Load, Replay;
    if f.seam.None? {
      WholeLoads(cfg, c, f);
    } else if f.seam.value + 1 == |f.log| {
      CutLoads(cfg, c, f);
    } else {
      GluedLoads(cfg, c, f);
    }
  }

  lemma WholeLoads(cfg: Config, c: Codec, f: File)
    requires Faithful(cfg, c) && f.seam.None? && Replay(cfg, f.log).Some?
    ensures Load(cfg, c, RenderFile(c, f)) ==
            if ShortFile(c, f) then Loaded(Replay(cfg, f.log).value, RenderFile(c, f), false) else LoadFailed
  {
    hide Apply, Faithful, LoadFrom, Replay;
    var b := Render(c, f.log);
    assert b + [] == b;
    LoadRendered(cfg, c, f.log, []);
    LoadNothing(cfg, c, b, Replay(cfg, f.log).value);
    assert ShortFile(c, f) <==> ShortLines(c, f.log);
  }

  lemma ReplayLast(cfg: Config, log: seq<Entry>)
    requires log != [] && Replay(cfg, log).Some?
    ensures var (front, e) := (log[..|log| - 1], log[|log| - 1]);
            && Replay(cfg, front).Some? && Apply(cfg, Replay(cfg, front).value, e) == Replay(cfg, log)
            && e.op != Malformed
  {
  }

  lemma ShortCut(c: Codec, f: File)
    requires f.log != [] && f.seam == Some(|f.log| - 1) && f.log[|f.log| - 1].op != Malformed
    ensures ShortFile(c, f) <==>
            ShortLines(c, f.log[..|f.log| - 1]) && |c.enc(f.log[|f.log| - 1])| <= LINE_LIMIT
  {
    var front := f.log[..|f.log| - 1];
    assert forall i | 0 <= i < |front| :: front[i] == f.log[i] && LineLength(c, f, i) == |Line(c, front[i])|;
    if ShortLines(c, front) && |c.enc(f.log[|f.log| - 1])| <= LINE_LIMIT {
      forall i | 0 <= i < |f.log| ensures f.log[i].op != Malformed && LineLength(c, f, i) <= LINE_LIMIT {
        if i < |front| { assert front[i] == f.log[i]; }
      }
    }
  }

  lemma CutLoads(cfg: Config, c: Codec, f: File)
    requires Faithful(cfg, c) && f.log != [] && f.seam == Some(|f.log| - 1) && Replay(cfg, f.log).Some?
    ensures Load(cfg, c, RenderFile(c, f)) ==
            if ShortFile(c, f) then Loaded(Replay(cfg, f.log).value, RenderFile(c, f), false) else LoadFailed
  {
    hide Apply, Faithful, LoadFrom, Replay, ShortFile, ShortLines;
    var (front, e) := (f.log[..|f.log| - 1], f.log[|f.log| - 1]);
    ReplayLast(cfg, f.log);
    ShortCut(c, f);
    assert f.log[|front| + 1..] == [];
    assert RenderFile(c, f) == Render(c, front) + c.enc(e);
    LoadRendered(cfg, c, front, c.enc(e));
    UnterminatedTail(cfg, c, Render(c, front), e, Replay(cfg, front).value);
  }

  lemma ShortGlued(c: Codec, f: File)
    requires f.seam.Some? && f.seam.value + 1 < |f.log| && ShortFile(c, f)
    ensures var n := f.seam.value;
            ShortLines(c, f.log[..n]) && |c.enc(f.log[n])| + |Line(c, f.log[n + 1])| <= LINE_LIMIT
  {
    var n := f.seam.value;
    assert LineLength(c, f, n) <= LINE_LIMIT;
    forall i | 0 <= i < n ensures f.log[..n][i].op != Malformed && |Line(c, f.log[..n][i])| <= LINE_LIMIT {
      assert LineLength(c, f, i) <= LINE_LIMIT;
    }
  }

  /** The other way round when the shared line is the last. */
  lemma GluedShort(c: Codec, f: File)
    requires f.seam.Some? && f.seam.value + 2 == |f.log|
    requires f.log[f.seam.value].op != Malformed && f.log[f.seam.value + 1].op != Malformed
    requires var n := f.seam.value;
             ShortLines(c, f.log[..n]) && |c.enc(f.log[n])| + |Line(c, f.log[n + 1])| <= LINE_LIMIT
    ensures ShortFile(c, f)
  {
    var n := f.seam.value;
    forall i | 0 <= i < |f.log| ensures f.log[i].op != Malformed && LineLength(c, f, i) <= LINE_LIMIT {
      if i < n { assert f.log[..n][i] == f.log[i]; }
    }
  }

  lemma {:induction false} NoneMalformed(cfg: Config, log: seq<Entry>, i: nat)
    requires i < |log| && Replay(cfg, log).Some?
    ensures log[i].op != Malformed
  {
    ReplayPrefix(cfg, log, i + 1);
    assert log[..i + 1][|log[..i + 1]| - 1] == log[i];
    ReplayLast(cfg, log[..i + 1]);
    hide Apply;
  }

  lemma RenderGlued(c: Codec, f: File)
    requires f.seam.Some? && f.seam.value + 1 < |f.log|
    ensures var n := f.seam.value;
            && RenderFile(c, f)
               == Render(c, f.log[..n]) + (c.enc(f.log[n]) + Line(c, f.log[n + 1])) + Render(c, f.log[n + 2..])
            && (Render(c, f.log[n + 2..]) == [] <==> n + 2 == |f.log|)
  {
    var n := f.seam.value;
    RenderCons(c, f.log[n + 1..]);
    assert f.log[n + 1..][1..] == f.log[n + 2..];
  }

  lemma {:induction false} RenderCons(c: Codec, log: seq<Entry>)
    requires log != []
    ensures Render(c, log) == Line(c, log[0]) + Render(c, log[1..])
  {
    if |log| == 1 {
      assert log[..0] == [] && log[1..] == [];
    } else {
      var front := log[..|log| - 1];
      RenderCons(c, front);
      assert front[1..] == log[1..][..|log[1..]| - 1];
    }
  }

  lemma GluedLoads(cfg: Config, c: Codec, f: File)
    requires Faithful(cfg, c) && f.seam.Some? && f.seam.value + 1 < |f.log| && Replay(cfg, f.log).Some?
    ensures var n := f.seam.value;
            && Replay(cfg, f.log[..n]).Some?
            && Load(cfg, c, RenderFile(c, f)) ==
               if n + 2 == |f.log| && ShortFile(c, f)
               then Loaded(Replay(cfg, f.log[..n]).value, Render(c, f.log[..n]), true) else LoadFailed
  {
    hide Apply, Faithful, LoadFrom, Replay, ShortFile, ShortLines, Render, RenderFile;
    var n := f.seam.value;
    var (front, e, g) := (f.log[..n], f.log[n], f.log[n + 1]);
    var rest := Render(c, f.log[n + 2..]);
    ReplayPrefix(cfg, f.log, n);
    RenderGlued(c, f);
    NoneMalformed(cfg, f.log, n);
    NoneMalformed(cfg, f.log, n + 1);
    if ShortFile(c, f) { ShortGlued(c, f); }
    var pre := Render(c, front);
    assert RenderFile(c, f) == pre + ((c.enc(e) + Line(c, g)) + rest);
    LoadRendered(cfg, c, front, (c.enc(e) + Line(c, g)) + rest);
    GluedLine(cfg, c, pre, e, g, rest, Replay(cfg, front).value);
    if n + 2 == |f.log| && ShortLines(c, front) && |c.enc(e)| + |Line(c, g)| <= LINE_LIMIT { GluedShort(c, f); }
  }

  // ---------- the line limit ----------

  /** A compaction may write a line that a load refuses: the store stays recoverable
      exactly when its snapshot line is no longer than the line limit. */
  lemma CompactedLoads(cfg: Config, c: Codec, w: World)
    requires Faithful(cfg, c) && MemOk(cfg, w.mem) && Compact(cfg, w).1 == Ok
    ensures var disk := Compact(cfg, w).0.disk;
            Load(cfg, c, RenderFile(c, disk)) == Loaded(w.mem, RenderFile(c, disk), false)
            <==> cfg.lineSize(SnapshotEntry(cfg, w.mem)) <= LINE_LIMIT
  {
    var e := SnapshotEntry(cfg, w.mem);
    SnapshotRestores(cfg, EmptyMem, w.mem);
    hide Apply, Replay;
    OneLine(cfg, c, e, w.mem);
  }

  lemma OneLine(cfg: Config, c: Codec, e: Entry, m: Mem)
    requires Faithful(cfg, c) && e.op != Malformed && Apply(cfg, EmptyMem, e) == Some(m)
    ensures Load(cfg, c, Render(c, [e])) ==
            if cfg.lineSize(e) <= LINE_LIMIT then Loaded(m, Render(c, [e]), false) else LoadFailed
  {
    hide Apply;
    var b := Render(c, [e]);
    assert [e][..0] == [];
    assert Render(c, [e][..0]) == [];
    assert b == Line(c, e);
    assert b[0..|b|] == Line(c, e);
    LoadLine(cfg, c, b, 0, e, EmptyMem);
  }

  /** With a byte limit of at most 8 MiB every file the store keeps has short lines. */
  lemma SmallFilesHaveShortLines(cfg: Config, c: Codec, f: File)
    requires Faithful(cfg, c) && SeamIn(f) && FileSize(cfg, f) <= LINE_LIMIT && Replay(cfg, f.log).Some?
    ensures ShortFile(c, f)
  {
    forall i | 0 <= i < |f.log| ensures f.log[i].op != Malformed && LineLength(c, f, i) <= LINE_LIMIT {
      NoneMalformed(cfg, f.log, i);
      LineWithin(cfg, c, f, i);
    }
  }

  /** A line is no longer than its file. */
  lemma LineWithin(cfg: Config, c: Codec, f: File, i: nat)
    requires Faithful(cfg, c) && SeamIn(f) && i < |f.log|
    ensures LineLength(c, f, i) <= FileSize(cfg, f)
  {
    hide Faithful;
    LogSizeSplit(cfg, f.log, i);
    var later := f.log[i..];
    LogSizeSplit(cfg, later, 1);
    assert later[..1] == [f.log[i]];
    LogSizeOne(cfg, c, f.log[i]);
    if f.seam.Some? && f.seam.value != i { SeamCounts(cfg, c, f, i); }
    if f.seam == Some(i) && i + 1 < |f.log| {
      LogSizeSplit(cfg, later[1..], 1);
      assert later[1..][..1] == [f.log[i + 1]];
      LogSizeOne(cfg, c, f.log[i + 1]);
    }
  }

  /** The seam takes its byte from another line. */
  lemma SeamCounts(cfg: Config, c: Codec, f: File, i: nat)
    requires Faithful(cfg, c) && SeamIn(f) && f.seam.Some? && f.seam.value != i && i < |f.log|
    ensures |Line(c, f.log[i])| <= LogSize(cfg, f.log) - 1
  {
    hide Faithful;
    var j := f.seam.value;
    var (lo, hi) := if i < j then (i, j) else (j, i);
    LogSizeSplit(cfg, f.log, lo);
    var later := f.log[lo..];
    LogSizeSplit(cfg, later, 1);
    assert later[..1] == [f.log[lo]];
    LogSizeSplit(cfg, later[1..], hi - lo - 1);
    var last := later[1..][hi - lo - 1..];
    LogSizeSplit(cfg, last, 1);
    assert last[..1] == [f.log[hi]];
    LogSizeOne(cfg, c, f.log[lo]);
    LogSizeOne(cfg, c, f.log[hi]);
  }

  lemma LoadNothing(cfg: Config, c: Codec, b: Bytes, m: Mem)
    ensures LoadFrom(cfg, c, b, |b|, m) == Loaded(m, b, false)
  {
  }

  /** The outbox's central promise, down to bytes and for every byte limit: stop the store
      after any careful run and load its file. Without a shared line memory comes back exactly
      when no line is over 8 MiB; with one at the end it comes back as it was two entries
      before, and with one further up the load fails. */
  lemma RunLoads(cfg: Config, c: Codec, w: World, cs: seq<Call>)
    requires Faithful(cfg, c)
    requires Logged(cfg, w) && SelfKeyed(w.mem.records) && Careful(cfg, w, cs)
    ensures var end := Run(cfg, w, cs);
            var r := Load(cfg, c, RenderFile(c, end.disk));
            && (r.Loaded? <==> ShortFile(c, end.disk) && Found(end.disk).Some?)
            && (r.Loaded? && Sealed(end.disk) ==>
                  Agrees(r.mem, end.mem) && !r.recoveredTail && r.file == RenderFile(c, end.disk))
            && (r.Loaded? && !Sealed(end.disk) ==>
                  r.recoveredTail && Some(r.mem) == Replay(cfg, end.disk.log[..|end.disk.log| - 2]))
  {
    RunRecoverable(cfg, w, cs);
    hide Run, Careful, ShortFile, Faithful, Load;
    FileLoads(cfg, c, Run(cfg, w, cs).disk);
  }

  /** With a byte limit of at most 8 MiB no line is. */
  lemma RunLoadsSmall(cfg: Config, c: Codec, w: World, cs: seq<Call>)
    requires Faithful(cfg, c) && cfg.maxBytes <= LINE_LIMIT
    requires Logged(cfg, w) && SelfKeyed(w.mem.records) && Careful(cfg, w, cs)
    requires Sealed(Run(cfg, w, cs).disk)
    ensures var end := Run(cfg, w, cs);
            var r := Load(cfg, c, RenderFile(c, end.disk));
            r.Loaded? && Agrees(r.mem, end.mem)
  {
    RunRecoverable(cfg, w, cs);
    RunLoads(cfg, c, w, cs);
    hide Run, Careful, Faithful, Load;
    SmallFilesHaveShortLines(cfg, c, Run(cfg, w, cs).disk);
  }
}
