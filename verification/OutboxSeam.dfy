// A store that runs on with the last newline of its file lost. Its entries are all there, and
// a compaction puts everything right; a line written before one takes the lost line's entry
// and its own with it, and a second such line makes the file one that never loads again.
module OutboxSeam {
  import opened Common
  import opened EventContract
  import opened Lines
  import opened OutboxModel
  import opened OutboxSpec
  import opened OutboxProofs
  import opened OutboxCalls
  import opened OutboxRuns
  import opened OutboxFile
  import opened OutboxTorn

  /** The newline of the last line is missing. */
  predicate Unended(f: File) { f.log != [] && f.seam == Some(|f.log| - 1) }

  predicate NoRestarts(cs: seq<Call>) { forall i | 0 <= i < |cs| :: !Restarts(cs[i]) }

  /** All the files that the calls of a run put in place, in order. */
  ghost function Writes(cfg: Config, w: World, cs: seq<Call>): seq<File>
    requires SelfKeyed(w.mem.records)
  {
    if cs == [] then []
    else
      var front := cs[..|cs| - 1];
      Writes(cfg, w, front) + Complete(cfg, Begin(Run(cfg, w, front)), cs[|cs| - 1]).0.written
  }

  lemma LinksJoin(a: seq<File>, b: seq<File>)
    requires a != [] && Links(a) && Links([a[|a| - 1]] + b)
    ensures Links(a + b)
  {
    hide Follows;
    var (n, files) := (|a| - 1, a + b);
    forall i | 0 <= i < |files| - 1 ensures Follows(files[i], files[i + 1]) {
      if i < n {
        assert files[i] == a[i] && files[i + 1] == a[i + 1];
      } else {
        var tail := [a[n]] + b;
        assert files[i] == tail[i - n] && files[i + 1] == tail[i - n + 1];
      }
    }
  }

  lemma ChainEnd(start: File, w: World)
    requires Chain(start, w)
    ensures Links([start] + w.written)
    ensures w.disk == if w.written == [] then start else w.written[|w.written| - 1]
  {
    hide Links;
  }

  /** Each write follows the one before, and the last is the file in place. */
  lemma {:induction false} WritesFollow(cfg: Config, w: World, cs: seq<Call>)
    requires SelfKeyed(w.mem.records) && NoRestarts(cs)
    ensures var files := [w.disk] + Writes(cfg, w, cs);
            Links(files) && Run(cfg, w, cs).disk == files[|files| - 1]
  {
    hide Links, Complete;
    if cs == [] {
      OneLink(w.disk);
      assert [w.disk] + Writes(cfg, w, cs) == [w.disk];
    } else {
      var (front, c) := (cs[..|cs| - 1], cs[|cs| - 1]);
      WritesFollow(cfg, w, front);
      var before := Run(cfg, w, front);
      CallChain(cfg, Begin(before), c);
      var after := Complete(cfg, Begin(before), c).0;
      ChainEnd(before.disk, after);
      hide Chain;
      var files := [w.disk] + Writes(cfg, w, front);
      LinksJoin(files, after.written);
      assert files + after.written == [w.disk] + Writes(cfg, w, cs);
    }
  }

  lemma OneLink(f: File)
    ensures Links([f])
  {
  }

  /** Among the first `i` files behind the first one is a snapshot. */
  predicate Compacted(files: seq<File>, i: nat)
    requires i < |files|
  {
    exists j :: 0 < j <= i && files[j].seam.None?
  }

  /** A seam stays where it was, and every write adds a line, until a snapshot takes it away. */
  lemma {:induction false} SeamStays(files: seq<File>, i: nat)
    requires files != [] && Links(files) && Unended(files[0]) && i < |files|
    ensures files[i].seam.None? <==> Compacted(files, i)
    ensures files[i].seam.Some? ==>
              && files[i].seam == files[0].seam && |files[i].log| == |files[0].log| + i
              && files[i].log[..|files[0].log|] == files[0].log
    decreases i
  {
    if i == 0 {
      assert files[0].log[..|files[0].log|] == files[0].log;
    } else {
      SeamStays(files, i - 1);
      assert Follows(files[i - 1], files[i]);
      hide Links, Unended;
      if files[i].seam.Some? {
        assert files[i].log[..|files[i - 1].log|] == files[i - 1].log;
        assert files[i].log[..|files[0].log|] == files[i - 1].log[..|files[0].log|];
      }
    }
  }

  /** What a load makes of the `i`th file after a lost newline: all of it once a snapshot came
      or while nothing was written; two entries short after one line; nothing after two. */
  lemma FoundAfter(files: seq<File>, i: nat)
    requires files != [] && Links(files) && Unended(files[0]) && i < |files|
    ensures Found(files[i]) ==
            if Compacted(files, i) || i == 0 then Some(files[i])
            else if i == 1 then Some(File(files[0].log[..|files[0].log| - 1], None))
            else None
    ensures Sealed(files[i]) <==> Compacted(files, i) || i == 0
  {
    SeamStays(files, i);
    if !Compacted(files, i) {
      var n := |files[0].log|;
      assert files[i].log[..n - 1] == files[i].log[..n][..n - 1];
    }
    hide Links;
  }

  /** Every file of a run loads in full, at every moment, exactly when the first thing
      written after the lost newline is a compaction. */
  lemma AllFoundIff(files: seq<File>)
    requires files != [] && Links(files) && Unended(files[0])
    ensures (forall i | 0 <= i < |files| :: Found(files[i]) == Some(files[i]))
            <==> |files| == 1 || files[1].seam.None?
  {
    hide Links, Found, Unended, Sealed;
    if |files| > 1 {
      FoundAfter(files, 1);
      FoundSealed(files[1]);
      SeamStays(files, 1);
      if files[1].seam.None? {
        forall i | 0 <= i < |files| ensures Found(files[i]) == Some(files[i]) {
          FoundAfter(files, i);
          assert i > 0 ==> Compacted(files, i);
        }
      } else {
        assert Found(files[1]) != Some(files[1]);
      }
    } else {
      FoundAfter(files, 0);
    }
  }

  lemma FoundSealed(f: File)
    ensures Found(f) == Some(f) <==> Sealed(f)
  {
  }

  /** The store runs on after a crash took the last newline. Restarted at any later moment it
      finds memory if nothing has been written since or a compaction has, wherever it came;
      after one line it is back to what it held before the line that the crash cut; after two
      it does not start. */
  lemma RunUnended(cfg: Config, w: World, cs: seq<Call>)
    requires Logged(cfg, w) && SelfKeyed(w.mem.records) && Unended(w.disk)
    requires Careful(cfg, w, cs) && NoRestarts(cs)
    ensures var (ws, end) := (Writes(cfg, w, cs), Run(cfg, w, cs));
            var files := [w.disk] + ws;
            var r := LoadStore(cfg, end.disk, end.faults);
            var front := w.disk.log[..|w.disk.log| - 1];
            && ((forall i | 0 <= i < |files| :: Found(files[i]) == Some(files[i])) <==> ws == [] || ws[0].seam.None?)
            && (Recoverable(cfg, end) <==> ws == [] || Compacted(files, |ws|))
            && (Recoverable(cfg, end) ==> r.Some? && Agrees(r.value.mem, end.mem))
            && (!Recoverable(cfg, end) ==>
                  if |ws| == 1 then r.Some? && Some(r.value.mem) == Replay(cfg, front) else r.None?)
  {
    hide Run, Careful, Writes, Links, Replay, Agrees, Found, Sealed;
    var (ws, end) := (Writes(cfg, w, cs), Run(cfg, w, cs));
    var files := [w.disk] + ws;
    WritesFollow(cfg, w, cs);
    RunRecoverable(cfg, w, cs);
    AllFoundIff(files);
    FoundAfter(files, |ws|);
    hide Compacted;
    LoggedReplays(cfg, end);
    hide Logged;
    FrontReplays(cfg, w);
    if |ws| == 1 && !Recoverable(cfg, end) {
      var front := w.disk.log[..|w.disk.log| - 1];
      assert Found(end.disk) == Some(File(front, None));
      assert LoadStore(cfg, end.disk, end.faults).Some?;
    }
  }

  lemma LoggedReplays(cfg: Config, w: World)
    requires Logged(cfg, w)
    ensures Replay(cfg, w.disk.log).Some? && Agrees(Replay(cfg, w.disk.log).value, w.mem)
  {
  }

  lemma FrontReplays(cfg: Config, w: World)
    requires Logged(cfg, w)
    ensures w.disk.log != [] ==> Replay(cfg, w.disk.log[..|w.disk.log| - 1]).Some?
  {
  }

  /** The bytes agree: after two lines and no compaction the file fails to load. */
  lemma SpoiltBytes(cfg: Config, c: Codec, w: World, cs: seq<Call>)
    requires Faithful(cfg, c)
    requires Logged(cfg, w) && SelfKeyed(w.mem.records) && Unended(w.disk)
    requires Careful(cfg, w, cs) && NoRestarts(cs)
    requires var ws := Writes(cfg, w, cs); |ws| >= 2 && !Compacted([w.disk] + ws, |ws|)
    ensures Load(cfg, c, RenderFile(c, Run(cfg, w, cs).disk)).LoadFailed?
  {
    hide Faithful, Run, Careful, Writes, Links, Unended, Replay, Load, ShortFile;
    var (ws, end) := (Writes(cfg, w, cs), Run(cfg, w, cs));
    WritesFollow(cfg, w, cs);
    RunRecoverable(cfg, w, cs);
    FoundAfter([w.disk] + ws, |ws|);
    FileLoads(cfg, c, end.disk);
  }

  // ---------- a file that does not load ----------

  /** The store is down, and its file will not bring it up. */
  ghost predicate Down(cfg: Config, w: World) {
    !w.open && match Found(w.disk) case None => true case Some(f) => Replay(cfg, f.log).None?
  }

  lemma DownRestarts(cfg: Config, w: World, faults: seq<bool>)
    requires SelfKeyed(w.mem.records) && Down(cfg, w)
    ensures Restart(cfg, w.(faults := faults), w.disk) == (w.(faults := faults), ErrClosed)
  {
    hide Found, Replay;
  }

  lemma DownCompletes(cfg: Config, w: World, c: Call)
    requires SelfKeyed(w.mem.records) && Down(cfg, w)
    ensures Complete(cfg, w, c).0 == w && Complete(cfg, w, c).1 != Ok
  {
    DownRestarts(cfg, w, w.faults);
    hide Found, Replay, Key, ValidEvent;
  }

  /** Nothing a caller does brings it back: the file stays as it is and every start fails. */
  lemma {:induction false} DownStays(cfg: Config, w: World, cs: seq<Call>)
    requires SelfKeyed(w.mem.records) && Down(cfg, w)
    ensures var end := Run(cfg, w, cs); Down(cfg, end) && end.disk == w.disk && end.mem == w.mem
  {
    hide Complete, Restart;
    if cs != [] {
      var (front, c) := (cs[..|cs| - 1], cs[|cs| - 1]);
      DownStays(cfg, w, front);
      var before := Run(cfg, w, front);
      assert Down(cfg, Begin(before));
      hide Down;
      if c.CallCrash? {
        DownCompletes(cfg, Begin(before), c.during);
        assert CrashFile(cfg, before, c.during, c.at, c.cut) == before.disk;
        DownRestarts(cfg, before, before.faults);
      } else {
        DownCompletes(cfg, Begin(before), c);
      }
    }
  }

  /** So after two lines and no compaction the next restart, and each one after it, fails,
      whatever was stored in the meantime. */
  lemma SpoiltForGood(cfg: Config, w: World, cs: seq<Call>, later: seq<Call>)
    requires Logged(cfg, w) && SelfKeyed(w.mem.records) && Unended(w.disk)
    requires Careful(cfg, w, cs) && NoRestarts(cs)
    requires var ws := Writes(cfg, w, cs); |ws| >= 2 && !Compacted([w.disk] + ws, |ws|)
    ensures var down := Step(cfg, Run(cfg, w, cs), CallReopen);
            down.1 == ErrClosed && !Run(cfg, down.0, later).open
  {
    hide Run, Careful, Writes, Links, Unended, Replay;
    var (ws, end) := (Writes(cfg, w, cs), Run(cfg, w, cs));
    WritesFollow(cfg, w, cs);
    FoundAfter([w.disk] + ws, |ws|);
    hide Found, Compacted;
    var down := Step(cfg, end, CallReopen).0;
    assert Down(cfg, down);
    DownStays(cfg, down, later);
  }
}
