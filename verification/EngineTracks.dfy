// Single tracks over a whole history: what it takes to be confirmed, and what it takes to
// change sides of the region.
module EngineTracks {
  import opened Common
  import opened EngineModel
  import opened EngineSpec
  import opened EngineTrace
  import opened EngineRuns

  /** The usable detection of track `k` in an observation. */
  predicate SightedAs(cfg: Config, ts: seq<Track>, k: nat, t: Track) {
    t in ts && t.id == k && Usable(cfg, t)
  }

  predicate IdsDistinct(ts: seq<Track>) { forall i, j | 0 <= j < i < |ts| :: ts[j].id != ts[i].id }

  predicate Mentions(ts: seq<Track>, k: nat) { exists i | 0 <= i < |ts| :: ts[i].id == k }

  ghost predicate Unsighted(cfg: Config, ts: seq<Track>, k: nat) { forall t :: !SightedAs(cfg, ts, k, t) }

  lemma SameTrack(ts: seq<Track>, s: Track, t: Track)
    requires IdsDistinct(ts) && s in ts && t in ts && s.id == t.id
    ensures s == t
  {
  }

  lemma NotSighted(cfg: Config, ts: seq<Track>, t: Track)
    requires IdsDistinct(ts) && t in ts && !Usable(cfg, t)
    ensures Unsighted(cfg, ts, t.id)
  {
    forall s ensures !SightedAs(cfg, ts, t.id, s) {
      if s in ts && s.id == t.id { SameTrack(ts, s, t); }
    }
  }

  lemma {:induction false} ApplyElsewhere(cfg: Config, m: map<nat, Tracked>, ts: seq<Track>, now: Time, k: nat)
    requires !Mentions(ts, k)
    ensures var n := ApplyTracks(cfg, m, ts, now); (k in n <==> k in m) && (k in m ==> n[k] == m[k])
  {
    hide Sight, Usable;
    if ts != [] {
      var (front, t) := (ts[..|ts| - 1], ts[|ts| - 1]);
      assert ts[|ts| - 1].id != k;
      assert !Mentions(front, k) by {
        forall i | 0 <= i < |front| ensures front[i].id != k { assert front[i] == ts[i]; }
      }
      ApplyElsewhere(cfg, m, front, now, k);
    }
  }

  /** An observation changes an entry only by the one detection it has of that track. */
  lemma {:induction false} ApplyAt(cfg: Config, m: map<nat, Tracked>, ts: seq<Track>, now: Time, k: nat)
    requires IdsDistinct(ts) && k in ApplyTracks(cfg, m, ts, now)
    ensures var n := ApplyTracks(cfg, m, ts, now);
            || (k in m && n[k] == m[k] && Unsighted(cfg, ts, k))
            || exists t :: SightedAs(cfg, ts, k, t) && n[k] == Sight(cfg, if k in m then m[k] else Fresh, t, now)
  {
    hide Sight;
    if ts != [] {
      var (front, t) := (ts[..|ts| - 1], ts[|ts| - 1]);
      assert forall i | 0 <= i < |front| :: front[i] == ts[i];
      if t.id == k {
        assert !Mentions(front, k) by {
          forall i | 0 <= i < |front| ensures front[i].id != k { assert ts[i].id != ts[|ts| - 1].id; }
        }
        ApplyElsewhere(cfg, m, front, now, k);
        if Usable(cfg, t) {
          assert SightedAs(cfg, ts, k, t);
          assert ApplyTracks(cfg, m, ts, now)[k] == Sight(cfg, if k in m then m[k] else Fresh, t, now);
        } else {
          NotSighted(cfg, ts, t);
        }
      } else {
        ApplyAt(cfg, m, front, now, k);
        var n := ApplyTracks(cfg, m, front, now);
        if k in m && n[k] == m[k] && Unsighted(cfg, front, k) {
          forall s | SightedAs(cfg, ts, k, s) ensures SightedAs(cfg, front, k, s) {
            var i :| 0 <= i < |ts| && ts[i] == s;
            assert front[i] == s;
          }
        } else {
          var s :| SightedAs(cfg, front, k, s) && n[k] == Sight(cfg, if k in m then m[k] else Fresh, s, now);
          assert SightedAs(cfg, ts, k, s);
        }
      }
    }
  }

  /** One frame: an entry that stays is either sighted or an absent, confirmed one. */
  lemma UpdateAt(cfg: Config, m: map<nat, Tracked>, o: Observation, now: Time, k: nat)
    requires ValidObservation(o) && k in UpdateTracks(cfg, m, o, now)
    ensures var n := UpdateTracks(cfg, m, o, now);
            || (k in m && n[k] == m[k].(present := false) && n[k].confirmed && Unsighted(cfg, o.tracks, k))
            || exists t :: SightedAs(cfg, o.tracks, k, t)
                           && n[k] == Sight(cfg, if k in m then m[k].(present := false) else Fresh, t, now)
  {
    ApplyAt(cfg, Absent(m), o.tracks, now, k);
    hide ValidObservation, ApplyTracks, Sight, Usable;
  }

  // ---------- confirmation ----------

  ghost predicate Sights(f: Item, k: nat) { f.Frame? && exists t :: SightedAs(f.under, f.o.tracks, k, t) }

  /** From item `i` on nothing was cleared and every frame sights the track. */
  ghost predicate SeenSince(log: Log, i: nat, k: nat) {
    i < |log| && log[i].Frame? && forall j | i <= j < |log| :: !log[j].Cleared? && (log[j].Frame? ==> Sights(log[j], k))
  }

  function FramesFrom(log: Log, i: nat): nat {
    if i >= |log| then 0 else FramesFrom(Front(log), i) + if Last(log).Frame? then 1 else 0
  }

  predicate ValidFrames(log: Log) { forall i | 0 <= i < |log| && log[i].Frame? :: ValidObservation(log[i].o) }

  /** An unconfirmed entry has been sighted without a break since the frame that made it. */
  ghost predicate Counting(log: Log, k: nat, t: Tracked) {
    exists i: nat :: SeenSince(log, i, k) && t.first == log[i].now && t.seen == Clip(FramesFrom(log, i)) && t.seen >= 1
  }

  ghost predicate CountsOk(log: Log, k: nat) {
    k in TracksOf(log) && !TracksOf(log)[k].confirmed ==> Counting(log, k, TracksOf(log)[k])
  }

  lemma CountingEmitted(log: Log, item: Item, k: nat, t: Tracked)
    requires Counting(log, k, t) && item.Emitted?
    ensures Counting(log + [item], k, t)
  {
    var i: nat :| SeenSince(log, i, k) && t.first == log[i].now && t.seen == Clip(FramesFrom(log, i)) && t.seen >= 1;
    var l := log + [item];
    assert forall j | 0 <= j < |log| :: l[j] == log[j];
    Snoc(log, item);
    assert SeenSince(l, i, k);
  }

  /** What one sighting does to the count of an unconfirmed entry. */
  lemma SightCounts(cfg: Config, a: Tracked, t: Track, now: Time)
    requires !a.confirmed
    ensures var b := Sight(cfg, a, t, now);
            && b.seen == (if a.seen < U32_MAX then a.seen + 1 else a.seen)
            && b.first == (if b.seen == 1 then now else a.first)
            && (b.confirmed <==> Confirmed(cfg, b, now))
  {
  }

  /** A sighting extends the unbroken run, or begins it. */
  lemma CountingSighted(log: Log, f: Item, k: nat, a: Tracked, b: Tracked)
    requires f.Frame? && Sights(f, k)
    requires if a.seen == 0 then true else Counting(log, k, a)
    requires b.seen == (if a.seen < U32_MAX then a.seen + 1 else a.seen)
             && b.first == (if b.seen == 1 then f.now else a.first)
    ensures Counting(log + [f], k, b)
  {
    var l := log + [f];
    Snoc(log, f);
    assert forall j | 0 <= j < |log| :: l[j] == log[j];
    assert l[|log|] == f;
    if a.seen == 0 {
      assert SeenSince(l, |log|, k);
      assert FramesFrom(l, |log|) == 1;
    } else {
      var i: nat :| SeenSince(log, i, k) && a.first == log[i].now && a.seen == Clip(FramesFrom(log, i)) && a.seen >= 1;
      assert SeenSince(l, i, k);
    }
  }

  lemma FrameCounts(log: Log, f: Item, k: nat)
    requires f.Frame? && ValidObservation(f.o) && CountsOk(log, k) && k in TracksOf(log + [f])
    requires !(k in TracksOf(log) && TracksOf(log)[k].confirmed)
    ensures Counting(log + [f], k, TracksOf(log + [f])[k])
    ensures TracksOf(log + [f])[k].confirmed ==> Confirmed(f.under, TracksOf(log + [f])[k], f.now)
  {
    var m := TracksOf(log);
    FrameSnoc(log, f);
    UpdateAt(f.under, m, f.o, f.now, k);
    var n := TracksOf(log + [f]);
    hide TracksOf, UpdateTracks, ValidObservation, Confirmed;
    var a := if k in m then m[k].(present := false) else Fresh;
    var t :| SightedAs(f.under, f.o.tracks, k, t) && n[k] == Sight(f.under, a, t, f.now);
    SightCounts(f.under, a, t, f.now);
    hide Sight, Usable;
    assert Sights(f, k);
    CountingSighted(log, f, k, a, n[k]);
  }

  lemma {:induction false} CountsAlways(log: Log, k: nat)
    requires ValidFrames(log)
    ensures CountsOk(log, k)
  {
    if log != [] {
      var (front, item) := (Front(log), Last(log));
      assert log == front + [item];
      assert forall i | 0 <= i < |front| :: front[i] == log[i];
      CountsAlways(front, k);
      hide ValidObservation, UpdateTracks, Counting;
      match item
      case Cleared => ClearSnoc(front);
      case Emitted(e, at, cfg, serial, natural) =>
        EmitSnoc(front, e, at, cfg, serial, natural);
        if CountsOk(front, k) && k in TracksOf(front) && !TracksOf(front)[k].confirmed {
          CountingEmitted(front, item, k, TracksOf(front)[k]);
        }
        hide TracksOf;
      case Frame(_, _, _, _, _, _) =>
        FrameSnoc(front, item);
        FrameKeepsConfirmed(front, item, k);
        if k in TracksOf(log) && !(k in TracksOf(front) && TracksOf(front)[k].confirmed) {
          FrameCounts(front, item, k);
        }
        hide TracksOf;
    }
  }

  lemma FrameKeepsConfirmed(log: Log, f: Item, k: nat)
    requires f.Frame? && ValidObservation(f.o)
    ensures k in TracksOf(log) && TracksOf(log)[k].confirmed && k in TracksOf(log + [f]) ==>
              TracksOf(log + [f])[k].confirmed
  {
    FrameSnoc(log, f);
    if k in TracksOf(log) && TracksOf(log)[k].confirmed && k in TracksOf(log + [f]) {
      UpdateAt(f.under, TracksOf(log), f.o, f.now, k);
    }
    hide TracksOf, UpdateTracks, ValidObservation;
  }

  /** A track becomes confirmed only at the end of an unbroken run of frames that sight it,
      long enough in frames, or in time since its first frame. */
  lemma ConfirmedNeedsRun(log: Log, f: Item, k: nat) returns (i: nat)
    requires ValidFrames(log) && f.Frame? && ValidObservation(f.o)
    requires k in TracksOf(log + [f]) && TracksOf(log + [f])[k].confirmed
    requires k in TracksOf(log) ==> !TracksOf(log)[k].confirmed
    ensures SeenSince(log + [f], i, k) && (log + [f])[i].Frame?
    ensures FramesFrom(log + [f], i) >= f.under.confirmFrames
            || Elapsed(f.now, (log + [f])[i].now, f.under.confirmMs * 1000)
  {
    CountsAlways(log, k);
    FrameCounts(log, f, k);
    var l := log + [f];
    var t := TracksOf(l)[k];
    hide TracksOf, ValidObservation, UpdateTracks;
    i :| SeenSince(l, i, k) && t.first == l[i].now && t.seen == Clip(FramesFrom(l, i)) && t.seen >= 1;
  }

  // ---------- sides of the region ----------

  /** Every sighting of the track from item `i` on, one at `i` included, lies on `side`. */
  ghost predicate OnSideSince(log: Log, i: nat, k: nat, side: bool) {
    && i < |log| && log[i].Frame? && Sights(log[i], k)
    && forall j | i <= j < |log| ::
         && !log[j].Cleared?
         && forall t | log[j].Frame? && SightedAs(log[j].under, log[j].o.tracks, k, t) ::
            InsideRoi(log[j].under, t.box) == side
  }

  /** A pending change of side began at such a frame. */
  ghost predicate Candidate(log: Log, k: nat, t: Tracked) {
    t.candidate.Some? ==>
      exists i: nat :: OnSideSince(log, i, k, t.candidate.value.0) && log[i].now == Some(t.candidate.value.1)
  }

  ghost predicate SidesOk(log: Log, k: nat) {
    k in TracksOf(log) ==>
      var t := TracksOf(log)[k];
      Candidate(log, k, t) && (t.candidate.Some? ==> t.inside.Some? && t.candidate.value.0 != t.inside.value)
  }

  lemma OnSideSnoc(log: Log, item: Item, i: nat, k: nat, side: bool)
    requires OnSideSince(log, i, k, side) && !item.Cleared?
    requires forall t | item.Frame? && SightedAs(item.under, item.o.tracks, k, t) ::
             InsideRoi(item.under, t.box) == side
    ensures OnSideSince(log + [item], i, k, side)
  {
    var l := log + [item];
    assert forall j | 0 <= j < |log| :: l[j] == log[j];
    hide InsideRoi, SightedAs;
  }

  lemma SightedOnce(cfg: Config, ts: seq<Track>, k: nat, t: Track, s: Track)
    requires IdsDistinct(ts) && SightedAs(cfg, ts, k, t) && SightedAs(cfg, ts, k, s)
    ensures s == t
  {
  }

  lemma CandidateNew(log: Log, f: Item, k: nat, t: Track)
    requires f.Frame? && ValidObservation(f.o) && SightedAs(f.under, f.o.tracks, k, t)
    ensures OnSideSince(log + [f], |log|, k, InsideRoi(f.under, t.box))
  {
    var l := log + [f];
    assert l[|log|] == f;
    assert IdsDistinct(f.o.tracks);
    hide InsideRoi, Usable, ValidObservation;
    forall s | SightedAs(f.under, f.o.tracks, k, s) ensures s == t { SightedOnce(f.under, f.o.tracks, k, t, s); }
  }

  /** What one sighting does to the side and its candidate. */
  lemma SightSides(cfg: Config, a: Tracked, t: Track, now: Time)
    ensures var b := Sight(cfg, a, t, now);
            && (b.inside, b.candidate) == (UpdateInside(cfg, a, InsideRoi(cfg, t.box), now).inside,
                                           UpdateInside(cfg, a, InsideRoi(cfg, t.box), now).candidate)
  {
    hide InsideRoi, Confirmed;
  }

  /** A flip takes the side of the sighting and, with a debounce, an old enough candidate. */
  lemma SightFlips(cfg: Config, a: Tracked, t: Track, now: Time)
    requires a.inside.Some? && Sight(cfg, a, t, now).inside != a.inside
    ensures Sight(cfg, a, t, now).inside == Some(InsideRoi(cfg, t.box))
    ensures cfg.debounceMs != 0 && now.Some? ==>
              && a.candidate.Some? && a.candidate.value.0 == InsideRoi(cfg, t.box)
              && Elapsed(now, Some(a.candidate.value.1), cfg.debounceMs * 1000)
  {
    SightSides(cfg, a, t, now);
    hide Sight, InsideRoi;
  }

  lemma SightedSides(log: Log, f: Item, k: nat, a: Tracked, t: Track)
    requires f.Frame? && ValidObservation(f.o) && SightedAs(f.under, f.o.tracks, k, t)
    requires Candidate(log, k, a) && (a.candidate.Some? ==> a.inside.Some? && a.candidate.value.0 != a.inside.value)
    ensures var b := Sight(f.under, a, t, f.now);
            && Candidate(log + [f], k, b)
            && (b.candidate.Some? ==> b.inside.Some? && b.candidate.value.0 != b.inside.value)
  {
    var b := Sight(f.under, a, t, f.now);
    var raw := InsideRoi(f.under, t.box);
    SightSides(f.under, a, t, f.now);
    CandidateNew(log, f, k, t);
    assert IdsDistinct(f.o.tracks);
    forall s | SightedAs(f.under, f.o.tracks, k, s) ensures s == t { SightedOnce(f.under, f.o.tracks, k, t, s); }
    hide Sight, InsideRoi, Usable, ValidObservation, SightedAs, OnSideSince;
    var l := log + [f];
    assert l[|log|] == f;
    if b.candidate.Some? && b.candidate == a.candidate {
      var i: nat :| OnSideSince(log, i, k, a.candidate.value.0) && log[i].now == Some(a.candidate.value.1);
      InRange(log, i, k, a.candidate.value.0);
      assert l[i] == log[i];
      OnSideSnoc(log, f, i, k, raw);
    } else if b.candidate.Some? {
      assert OnSideSince(l, |log|, k, raw) && l[|log|].now == Some(b.candidate.value.1);
    }
  }

  lemma InRange(log: Log, i: nat, k: nat, side: bool)
    requires OnSideSince(log, i, k, side)
    ensures i < |log|
  {
  }

  lemma UnsightedSides(log: Log, item: Item, k: nat, a: Tracked)
    requires Candidate(log, k, a) && !item.Cleared?
    requires item.Frame? ==> !Sights(item, k)
    ensures Candidate(log + [item], k, a)
  {
    if a.candidate.Some? {
      var i: nat :| OnSideSince(log, i, k, a.candidate.value.0) && log[i].now == Some(a.candidate.value.1);
      InRange(log, i, k, a.candidate.value.0);
      OnSideSnoc(log, item, i, k, a.candidate.value.0);
      assert (log + [item])[i] == log[i];
    }
  }

  lemma FrameSides(log: Log, f: Item, k: nat)
    requires f.Frame? && ValidObservation(f.o) && SidesOk(log, k)
    ensures SidesOk(log + [f], k)
  {
    FrameSnoc(log, f);
    var (m, n) := (TracksOf(log), TracksOf(log + [f]));
    if k in n {
      UpdateAt(f.under, m, f.o, f.now, k);
      hide TracksOf, UpdateTracks, ValidObservation, Candidate, Usable;
      if k in m && n[k] == m[k].(present := false) && Unsighted(f.under, f.o.tracks, k) {
        CandidateSame(log, k, m[k]);
        UnsightedSides(log, f, k, n[k]);
      } else {
        var a := if k in m then m[k].(present := false) else Fresh;
        var t :| SightedAs(f.under, f.o.tracks, k, t) && n[k] == Sight(f.under, a, t, f.now);
        if k in m { CandidateSame(log, k, m[k]); } else { CandidateNone(log, k); }
        hide Sight;
        SightedSides(log, f, k, a, t);
      }
    }
  }

  lemma CandidateSame(log: Log, k: nat, t: Tracked)
    requires Candidate(log, k, t)
    ensures Candidate(log, k, t.(present := false))
  {
  }

  lemma CandidateNone(log: Log, k: nat)
    ensures Candidate(log, k, Fresh)
  {
  }

  lemma {:induction false} SidesAlways(log: Log, k: nat)
    requires ValidFrames(log)
    ensures SidesOk(log, k)
  {
    if log != [] {
      var (front, item) := (Front(log), Last(log));
      assert log == front + [item];
      assert forall i | 0 <= i < |front| :: front[i] == log[i];
      SidesAlways(front, k);
      hide ValidObservation, UpdateTracks, Candidate;
      match item
      case Cleared => ClearSnoc(front);
      case Emitted(e, at, cfg, serial, natural) =>
        EmitSnoc(front, e, at, cfg, serial, natural);
        if k in TracksOf(front) { UnsightedSides(front, item, k, TracksOf(front)[k]); }
        hide TracksOf;
      case Frame(_, _, _, _, _, _) =>
        FrameSides(front, item, k);
        hide SidesOk;
    }
  }

  /** A tracked person changes sides only without a debounce or a timeline, or after every
      sighting for at least the debounce lay on the new side. */
  lemma SideNeedsDebounce(log: Log, f: Item, k: nat)
    requires ValidFrames(log) && f.Frame? && ValidObservation(f.o)
    requires k in TracksOf(log) && k in TracksOf(log + [f])
    requires var (a, b) := (TracksOf(log)[k].inside, TracksOf(log + [f])[k].inside); a.Some? && b.Some? && a != b
    ensures var side := TracksOf(log + [f])[k].inside.value;
            || f.under.debounceMs == 0 || f.now.None?
            || exists i: nat ::
                 OnSideSince(log + [f], i, k, side) && Elapsed(f.now, (log + [f])[i].now, f.under.debounceMs * 1000)
  {
    SidesAlways(log, k);
    FrameSnoc(log, f);
    var (m, n) := (TracksOf(log), TracksOf(log + [f]));
    UpdateAt(f.under, m, f.o, f.now, k);
    assert IdsDistinct(f.o.tracks);
    hide TracksOf, UpdateTracks, ValidObservation, Usable;
    var a := m[k].(present := false);
    var t :| SightedAs(f.under, f.o.tracks, k, t) && n[k] == Sight(f.under, a, t, f.now);
    var raw := InsideRoi(f.under, t.box);
    SightFlips(f.under, a, t, f.now);
    hide Sight;
    forall s | SightedAs(f.under, f.o.tracks, k, s) ensures s == t { SightedOnce(f.under, f.o.tracks, k, t, s); }
    hide SightedAs, InsideRoi, OnSideSince;
    if f.under.debounceMs != 0 && f.now.Some? {
      var i: nat :| OnSideSince(log, i, k, raw) && log[i].now == Some(a.candidate.value.1);
      InRange(log, i, k, raw);
      OnSideSnoc(log, f, i, k, raw);
      assert (log + [f])[i] == log[i];
    }
  }
}
