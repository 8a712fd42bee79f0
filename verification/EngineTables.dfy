// The fixed 64-slot tables of the engine, updated in place, refine maps and sets.
module EngineTables {
  import opened Common
  import opened EngineModel
  import opened EngineSpec
  import opened EngineFacts

  // ---------- the track table ----------

  datatype Slot = Slot(inUse: bool, id: nat, t: Tracked)

  const FREE := Slot(false, 0, Fresh)

  /** Slots in use never share a track id. */
  ghost predicate Distinct(ss: seq<Slot>) {
    forall i, j | 0 <= i < j < |ss| && ss[i].inUse && ss[j].inUse :: ss[i].id != ss[j].id
  }

  /** The map that a table stands for. */
  ghost function TableOf(ss: seq<Slot>): map<nat, Tracked>
    requires Distinct(ss)
  {
    map i | 0 <= i < |ss| && ss[i].inUse :: ss[i].id := ss[i].t
  }

  ghost predicate ValidTable(a: array<Slot>)
    reads a
  {
    a.Length == MAX_TRACKS && Distinct(a[..])
  }

  predicate Has(ss: seq<Slot>, k: nat) {
    exists i | 0 <= i < |ss| :: ss[i].inUse && ss[i].id == k
  }

  /** The map holds what the slots in use hold, and nothing else. */
  ghost predicate Agrees(ss: seq<Slot>, m: map<nat, Tracked>) {
    && (forall i | 0 <= i < |ss| && ss[i].inUse :: ss[i].id in m && m[ss[i].id] == ss[i].t)
    && (forall k | k in m :: Has(ss, k))
  }

  lemma TableAgrees(ss: seq<Slot>)
    requires Distinct(ss)
    ensures Agrees(ss, TableOf(ss))
  {
  }

  lemma AgreesIs(ss: seq<Slot>, m: map<nat, Tracked>)
    requires Distinct(ss) && Agrees(ss, m)
    ensures TableOf(ss) == m
  {
    TableAgrees(ss);
    var t := TableOf(ss);
    hide TableOf;
    forall k | k in m ensures k in t && t[k] == m[k] {
      var i :| 0 <= i < |ss| && ss[i].inUse && ss[i].id == k;
    }
    forall k | k in t ensures k in m {
      var i :| 0 <= i < |ss| && ss[i].inUse && ss[i].id == k;
    }
  }

  lemma TableSnoc(ss: seq<Slot>, s: Slot)
    requires Distinct(ss + [s])
    ensures Distinct(ss) && (s.inUse ==> s.id !in TableOf(ss))
    ensures TableOf(ss + [s]) == if s.inUse then TableOf(ss)[s.id := s.t] else TableOf(ss)
  {
    var all := ss + [s];
    assert forall i | 0 <= i < |ss| :: all[i] == ss[i];
    assert all[|ss|] == s;
    assert Distinct(ss);
    TableAgrees(ss);
    var m: map<nat, Tracked> := TableOf(ss);
    hide TableOf;
    var n := if s.inUse then m[s.id := s.t] else m;
    assert s.inUse ==> forall i | 0 <= i < |ss| && ss[i].inUse :: ss[i].id != s.id;
    assert s.inUse ==> !Has(ss, s.id);
    forall k | k in n ensures Has(all, k) {
      if k in m { HasAt(ss, all, k); } else { assert all[|ss|].inUse; }
    }
    AgreesIs(all, n);
  }

  lemma HasAt(ss: seq<Slot>, tt: seq<Slot>, k: nat)
    requires Has(ss, k) && |ss| <= |tt|
    requires forall i | 0 <= i < |ss| && ss[i].inUse && ss[i].id == k :: tt[i].inUse && tt[i].id == k
    ensures Has(tt, k)
  {
    var i :| 0 <= i < |ss| && ss[i].inUse && ss[i].id == k;
    assert tt[i].inUse && tt[i].id == k;
  }

  lemma InsertSize(m: map<nat, Tracked>, k: nat, t: Tracked)
    requires k !in m
    ensures |m[k := t]| == |m| + 1
  {
    assert m[k := t].Keys == m.Keys + {k};
  }

  predicate Full(ss: seq<Slot>) { forall i | 0 <= i < |ss| :: ss[i].inUse }

  lemma FullSnoc(ss: seq<Slot>, s: Slot)
    ensures Full(ss + [s]) <==> Full(ss) && s.inUse
  {
    var all := ss + [s];
    assert all[|ss|] == s;
    assert forall i | 0 <= i < |ss| :: all[i] == ss[i];
  }

  /** A table is full exactly when the map has as many entries as there are slots. */
  lemma {:induction false} TableSize(ss: seq<Slot>)
    requires Distinct(ss)
    ensures |TableOf(ss)| <= |ss|
    ensures |TableOf(ss)| == |ss| <==> Full(ss)
  {
    if ss != [] {
      var (front, s) := (ss[..|ss| - 1], ss[|ss| - 1]);
      assert ss == front + [s];
      TableSnoc(front, s);
      TableSize(front);
      if s.inUse { InsertSize(TableOf(front), s.id, s.t); }
      hide TableOf, Distinct;
      FullSnoc(front, s);
    } else {
      AgreesIs(ss, map[]);
    }
  }

  lemma TablePut(ss: seq<Slot>, i: nat, s: Slot)
    requires Distinct(ss) && i < |ss| && s.inUse
    requires if ss[i].inUse then ss[i].id == s.id else s.id !in TableOf(ss)
    ensures Distinct(ss[i := s]) && TableOf(ss[i := s]) == TableOf(ss)[s.id := s.t]
  {
    TableAgrees(ss);
    var m: map<nat, Tracked> := TableOf(ss);
    hide TableOf;
    var tt := ss[i := s];
    assert forall j | 0 <= j < |ss| && j != i && ss[j].inUse :: ss[j].id != s.id;
    assert Distinct(tt);
    forall k | k in m[s.id := s.t] ensures Has(tt, k) {
      if k == s.id { assert tt[i].inUse; } else { HasAt(ss, tt, k); }
    }
    AgreesIs(tt, m[s.id := s.t]);
  }

  lemma TableFree(ss: seq<Slot>, i: nat)
    requires Distinct(ss) && i < |ss| && ss[i].inUse
    ensures Distinct(ss[i := FREE]) && TableOf(ss[i := FREE]) == TableOf(ss) - {ss[i].id}
  {
    TableAgrees(ss);
    var m: map<nat, Tracked> := TableOf(ss);
    hide TableOf;
    var tt := ss[i := FREE];
    assert forall j | 0 <= j < |ss| && j != i && ss[j].inUse :: ss[j].id != ss[i].id;
    assert Distinct(tt);
    forall k | k in m - {ss[i].id} ensures Has(tt, k) { HasAt(ss, tt, k); }
    AgreesIs(tt, m - {ss[i].id});
  }

  method FindTrack(a: array<Slot>, id: nat) returns (slot: int)
    requires ValidTable(a)
    ensures -1 <= slot < a.Length
    ensures slot >= 0 ==> a[slot].inUse && a[slot].id == id
    ensures slot >= 0 <==> id in TableOf(a[..])
    ensures slot >= 0 ==> TableOf(a[..])[id] == a[slot].t
  {
    slot := 0;
    while slot < a.Length
      invariant 0 <= slot <= a.Length
      invariant forall i | 0 <= i < slot :: !(a[i].inUse && a[i].id == id)
    {
      if a[slot].inUse && a[slot].id == id {
        TableAgrees(a[..]);
        return;
      }
      slot := slot + 1;
    }
    slot := -1;
  }

  method AllocateTrack(a: array<Slot>, id: nat) returns (slot: int)
    requires ValidTable(a) && id !in TableOf(a[..])
    modifies a
    ensures ValidTable(a) && -1 <= slot < a.Length
    ensures slot >= 0 <==> |old(TableOf(a[..]))| < MAX_TRACKS
    ensures slot >= 0 ==> a[slot] == Slot(true, id, Fresh) && a[..] == old(a[..])[slot := a[slot]]
    ensures TableOf(a[..]) == if slot >= 0 then old(TableOf(a[..]))[id := Fresh] else old(TableOf(a[..]))
  {
    TableSize(a[..]);
    slot := 0;
    while slot < a.Length
      invariant 0 <= slot <= a.Length
      invariant forall i | 0 <= i < slot :: a[i].inUse
      invariant a[..] == old(a[..])
    {
      if !a[slot].inUse {
        TablePut(a[..], slot, Slot(true, id, Fresh));
        a[slot] := Slot(true, id, Fresh);
        return;
      }
      slot := slot + 1;
    }
    slot := -1;
  }

  /** One observed track, in place. */
  method ObserveTrack(cfg: Config, a: array<Slot>, input: Track, now: Time)
    requires ValidTable(a)
    modifies a
    ensures ValidTable(a) && TableOf(a[..]) == ApplyTrack(cfg, old(TableOf(a[..])), input, now)
  {
    hide Sight, TableOf, Distinct;
    if !input.kind.Person? { return; }
    var slot := FindTrack(a, input.id);
    if input.state.Removed? {
      RemoveTrack(a, input.id, slot);
      return;
    }
    if !(input.state.New? || input.state.Active?) || input.score < cfg.scoreThreshold { return; }
    if slot < 0 {
      slot := AllocateTrack(a, input.id);
      if slot < 0 { return; }
    }
    SightSlot(cfg, a, slot, input, now);
  }

  method RemoveTrack(a: array<Slot>, id: nat, slot: int)
    requires ValidTable(a) && -1 <= slot < a.Length && (slot >= 0 <==> id in TableOf(a[..]))
    requires slot >= 0 ==> a[slot].inUse && a[slot].id == id
    modifies a
    ensures ValidTable(a) && TableOf(a[..]) == old(TableOf(a[..])) - {id}
  {
    ghost var m: map<nat, Tracked> := TableOf(a[..]);
    if slot >= 0 {
      TableFree(a[..], slot);
      hide TableOf;
      a[slot] := FREE;
    } else {
      assert m - {id} == m;
    }
  }

  method SightSlot(cfg: Config, a: array<Slot>, slot: nat, input: Track, now: Time)
    requires ValidTable(a) && slot < a.Length && a[slot].inUse && a[slot].id == input.id
    modifies a
    ensures ValidTable(a)
    ensures TableOf(a[..]) == old(TableOf(a[..]))[input.id := Sight(cfg, old(a[slot].t), input, now)]
  {
    hide Sight;
    TablePut(a[..], slot, Slot(true, input.id, Sight(cfg, a[slot].t, input, now)));
    hide TableOf;
    a[slot] := a[slot].(t := Sight(cfg, a[slot].t, input, now));
  }

  lemma AbsentTable(ss: seq<Slot>, tt: seq<Slot>)
    requires Distinct(ss) && |tt| == |ss|
    requires forall i | 0 <= i < |ss| :: tt[i] == ss[i].(t := ss[i].t.(present := false))
    ensures Distinct(tt) && TableOf(tt) == Absent(TableOf(ss))
  {
    TableAgrees(ss);
    var m: map<nat, Tracked> := TableOf(ss);
    hide TableOf;
    forall k | k in Absent(m) ensures Has(tt, k) { HasAt(ss, tt, k); }
    AgreesIs(tt, Absent(m));
  }

  /** What pruning leaves in a slot. */
  function Pruned(cfg: Config, s: Slot, now: Time): Slot {
    if s.inUse && !Survives(cfg, s.t, now) then FREE else s
  }

  lemma PruneTable(cfg: Config, ss: seq<Slot>, tt: seq<Slot>, now: Time)
    requires Distinct(ss) && |tt| == |ss| && forall i | 0 <= i < |ss| :: tt[i] == Pruned(cfg, ss[i], now)
    ensures Distinct(tt) && TableOf(tt) == Prune(cfg, TableOf(ss), now)
  {
    TableAgrees(ss);
    var m: map<nat, Tracked> := TableOf(ss);
    hide TableOf, Survives;
    forall k | k in Prune(cfg, m, now) ensures Has(tt, k) {
      var i :| 0 <= i < |ss| && ss[i].inUse && ss[i].id == k;
      assert tt[i] == ss[i];
    }
    AgreesIs(tt, Prune(cfg, m, now));
  }

  lemma CountPut(m: map<nat, Tracked>, k: nat, t: Tracked)
    requires k !in m
    ensures PersonCount(m[k := t]) == PersonCount(m) + if Counted(t) then 1 else 0
  {
    assert CountedIn(m[k := t]) == if Counted(t) then CountedIn(m) + {k} else CountedIn(m);
  }

  method CountPersons(a: array<Slot>) returns (count: nat)
    requires ValidTable(a)
    ensures count == PersonCount(TableOf(a[..]))
  {
    count := 0;
    var i := 0;
    assert TableOf(a[..0]) == map[];
    while i < a.Length
      invariant 0 <= i <= a.Length && Distinct(a[..i]) && count == PersonCount(TableOf(a[..i]))
    {
      assert a[..i + 1] == a[..i] + [a[i]];
      assert Distinct(a[..i + 1]) by { assert forall k | 0 <= k <= i :: a[..i + 1][k] == a[..][k]; }
      TableSnoc(a[..i], a[i]);
      if a[i].inUse {
        CountPut(TableOf(a[..i]), a[i].id, a[i].t);
        if a[i].t.present && a[i].t.confirmed && a[i].t.inside == Some(true) { count := count + 1; }
      }
      i := i + 1;
    }
    assert a[..i] == a[..];
  }

  /** The whole update: the table ends as the map update says, and the count is exactly
      the present, confirmed, inside tracks. */
  method UpdateTrackTable(cfg: Config, a: array<Slot>, o: Observation, now: Time) returns (count: nat)
    requires ValidTable(a)
    modifies a
    ensures ValidTable(a) && TableOf(a[..]) == UpdateTracks(cfg, old(TableOf(a[..])), o, now)
    ensures count == PersonCount(TableOf(a[..]))
  {
    ghost var m := TableOf(a[..]);
    MarkAbsent(a);
    var i := 0;
    while i < |o.tracks|
      invariant 0 <= i <= |o.tracks| && ValidTable(a)
      invariant TableOf(a[..]) == ApplyTracks(cfg, Absent(m), o.tracks[..i], now)
    {
      ObserveTrack(cfg, a, o.tracks[i], now);
      assert o.tracks[..i + 1][..i] == o.tracks[..i];
      i := i + 1;
    }
    assert o.tracks[..i] == o.tracks;
    PruneLoop(cfg, a, now);
    count := CountPersons(a);
  }

  method MarkAbsent(a: array<Slot>)
    requires ValidTable(a)
    modifies a
    ensures ValidTable(a) && TableOf(a[..]) == Absent(old(TableOf(a[..])))
  {
    ghost var ss := a[..];
    var i := 0;
    while i < a.Length
      invariant 0 <= i <= a.Length
      invariant forall k | 0 <= k < i :: a[k] == ss[k].(t := ss[k].t.(present := false))
      invariant forall k | i <= k < a.Length :: a[k] == ss[k]
    {
      a[i] := a[i].(t := a[i].t.(present := false));
      i := i + 1;
    }
    AbsentTable(ss, a[..]);
  }

  method PruneLoop(cfg: Config, a: array<Slot>, now: Time)
    requires ValidTable(a)
    modifies a
    ensures ValidTable(a) && TableOf(a[..]) == Prune(cfg, old(TableOf(a[..])), now)
  {
    ghost var ss := a[..];
    var i := 0;
    while i < a.Length
      invariant 0 <= i <= a.Length
      invariant forall k | 0 <= k < i :: a[k] == Pruned(cfg, ss[k], now)
      invariant forall k | i <= k < a.Length :: a[k] == ss[k]
    {
      var s := a[i];
      if s.inUse {
        if !s.t.confirmed && !s.t.present {
          a[i] := FREE;
        } else if !s.t.present && (cfg.graceMs == 0 || Elapsed(now, s.t.last, cfg.graceMs * 1000)) {
          a[i] := FREE;
        }
      }
      i := i + 1;
    }
    PruneTable(cfg, ss, a[..], now);
  }

  // ---------- bounds on the count ----------

  predicate SightedIn(cfg: Config, ts: seq<Track>, k: nat) {
    exists i | 0 <= i < |ts| :: ts[i].id == k && Usable(cfg, ts[i])
  }

  lemma {:induction false} PresentSighted(cfg: Config, m: map<nat, Tracked>, ts: seq<Track>, now: Time, k: nat)
    requires k in ApplyTracks(cfg, Absent(m), ts, now) && ApplyTracks(cfg, Absent(m), ts, now)[k].present
    ensures SightedIn(cfg, ts, k)
  {
    if ts != [] {
      var (front, t) := (ts[..|ts| - 1], ts[|ts| - 1]);
      var before := ApplyTracks(cfg, Absent(m), front, now);
      if t.id == k && Usable(cfg, t) {
        assert ts[|ts| - 1] == t;
      } else {
        assert k in before && before[k].present;
        PresentSighted(cfg, m, front, now, k);
        var i :| 0 <= i < |front| && front[i].id == k && Usable(cfg, front[i]);
        assert ts[i] == front[i];
      }
    }
  }

  lemma {:induction false} IdsBound(ts: seq<Track>)
    ensures |set i | 0 <= i < |ts| :: ts[i].id| <= |ts|
  {
    if ts != [] {
      var front := ts[..|ts| - 1];
      IdsBound(front);
      var (a, b) := (set i | 0 <= i < |front| :: front[i].id, set i | 0 <= i < |ts| :: ts[i].id);
      assert b <= a + {ts[|ts| - 1].id} by {
        forall k | k in b ensures k in a + {ts[|ts| - 1].id} {
          var i :| 0 <= i < |ts| && ts[i].id == k;
          if i < |front| { assert front[i].id == k; }
        }
      }
      SubsetSize(b, a + {ts[|ts| - 1].id});
    }
  }

  /** The count never exceeds the observation's tracks, and every counted track was seen
      in it as a person, new or active, with enough score. */
  lemma CountBounded(cfg: Config, m: map<nat, Tracked>, o: Observation, now: Time)
    ensures PersonCount(UpdateTracks(cfg, m, o, now)) <= |o.tracks|
    ensures var n := UpdateTracks(cfg, m, o, now); forall k | k in n && Counted(n[k]) :: SightedIn(cfg, o.tracks, k)
  {
    var n := UpdateTracks(cfg, m, o, now);
    forall k | k in n && Counted(n[k]) ensures SightedIn(cfg, o.tracks, k) { PresentSighted(cfg, m, o.tracks, now, k); }
    var (a, b) := (CountedIn(n), set i | 0 <= i < |o.tracks| :: o.tracks[i].id);
    hide UpdateTracks;
    forall k | k in a ensures k in b {
      var i :| 0 <= i < |o.tracks| && o.tracks[i].id == k && Usable(cfg, o.tracks[i]);
    }
    IdsBound(o.tracks);
    SubsetSize(a, b);
  }

  lemma ApplyOne(cfg: Config, m: map<nat, Tracked>, t: Track, now: Time)
    requires |m| <= MAX_TRACKS
    ensures |ApplyTrack(cfg, m, t, now)| <= MAX_TRACKS
  {
    hide Sight, Usable;
    var n := ApplyTrack(cfg, m, t, now);
    if t.id in m || n.Keys <= m.Keys {
      assert n.Keys <= m.Keys;
      SubsetSize(n.Keys, m.Keys);
    } else {
      assert n.Keys == m.Keys + {t.id};
    }
  }

  lemma {:induction false} ApplyCapacity(cfg: Config, m: map<nat, Tracked>, ts: seq<Track>, now: Time)
    requires |m| <= MAX_TRACKS
    ensures |ApplyTracks(cfg, m, ts, now)| <= MAX_TRACKS
  {
    if ts != [] {
      var (before, t) := (ApplyTracks(cfg, m, ts[..|ts| - 1], now), ts[|ts| - 1]);
      ApplyCapacity(cfg, m, ts[..|ts| - 1], now);
      ApplyOne(cfg, before, t, now);
    }
  }

  // ---------- the rule fact table ----------

  datatype FactSlot = FactSlot(inUse: bool, id: nat, directions: set<Direction>)

  const NO_FACT := FactSlot(false, 0, {})

  ghost function SeenOf(ss: seq<FactSlot>): Seen {
    set i, d | 0 <= i < |ss| && ss[i].inUse && d in ss[i].directions :: (ss[i].id, d)
  }

  ghost predicate DistinctFacts(ss: seq<FactSlot>) {
    forall i, j | 0 <= i < j < |ss| && ss[i].inUse && ss[j].inUse :: ss[i].id != ss[j].id
  }

  ghost predicate ValidFacts(a: array<FactSlot>)
    reads a
  {
    a.Length == MAX_TRACKS && DistinctFacts(a[..])
  }

  method FindFact(a: array<FactSlot>, id: nat) returns (slot: int)
    ensures -1 <= slot < a.Length
    ensures slot >= 0 ==> a[slot].inUse && a[slot].id == id
    ensures slot < 0 ==> forall i | 0 <= i < a.Length :: !(a[i].inUse && a[i].id == id)
  {
    slot := 0;
    while slot < a.Length
      invariant 0 <= slot <= a.Length
      invariant forall i | 0 <= i < slot :: !(a[i].inUse && a[i].id == id)
    {
      if a[slot].inUse && a[slot].id == id { return; }
      slot := slot + 1;
    }
    slot := -1;
  }

  method FactSeen(a: array<FactSlot>, f: Fact) returns (yes: bool)
    requires ValidFacts(a)
    ensures yes <==> Pair(f) in SeenOf(a[..])
  {
    var slot := FindFact(a, f.trackId);
    yes := slot >= 0 && f.direction in a[slot].directions;
    if yes { assert a[..][slot] == a[slot]; }
    if Pair(f) in SeenOf(a[..]) {
      ghost var i, d :| 0 <= i < a.Length && a[..][i].inUse && d in a[..][i].directions && (a[..][i].id, d) == Pair(f);
    }
  }

  /** The first `n` slots are in use and the others are not. */
  ghost predicate Filled(ss: seq<FactSlot>, n: nat) {
    n <= |ss| && forall i | 0 <= i < |ss| :: ss[i].inUse <==> i < n
  }

  lemma SeenPut(ss: seq<FactSlot>, i: nat, id: nat, d: Direction)
    requires i < |ss| && DistinctFacts(ss)
    requires if ss[i].inUse then ss[i].id == id else forall j | 0 <= j < |ss| && ss[j].inUse :: ss[j].id != id
    ensures var s := FactSlot(true, id, (if ss[i].inUse then ss[i].directions else {}) + {d});
            DistinctFacts(ss[i := s]) && SeenOf(ss[i := s]) == SeenOf(ss) + {(id, d)}
  {
    var s := FactSlot(true, id, (if ss[i].inUse then ss[i].directions else {}) + {d});
    var tt := ss[i := s];
    forall p | p in SeenOf(tt) ensures p in SeenOf(ss) + {(id, d)} {
      var j, e :| 0 <= j < |tt| && tt[j].inUse && e in tt[j].directions && p == (tt[j].id, e);
      if j != i || e != d { assert ss[j].inUse && e in ss[j].directions; }
    }
    forall p | p in SeenOf(ss) + {(id, d)} ensures p in SeenOf(tt) {
      if p in SeenOf(ss) {
        var j, e :| 0 <= j < |ss| && ss[j].inUse && e in ss[j].directions && p == (ss[j].id, e);
        assert tt[j].inUse && e in tt[j].directions && tt[j].id == p.0;
      } else {
        assert tt[i].inUse && d in tt[i].directions;
      }
    }
  }

  method AllocateFact(a: array<FactSlot>, id: nat, ghost n: nat) returns (slot: int)
    requires Filled(a[..], n)
    modifies a
    ensures slot == if n < a.Length then n else -1
    ensures a[..] == if n < a.Length then old(a[..])[n := FactSlot(true, id, {})] else old(a[..])
  {
    slot := 0;
    while slot < a.Length
      invariant 0 <= slot <= n && a[..] == old(a[..])
    {
      if !a[slot].inUse {
        a[slot] := FactSlot(true, id, {});
        return;
      }
      slot := slot + 1;
    }
    slot := -1;
  }

  /** Fails only on a full table. */
  method RememberFact(a: array<FactSlot>, f: Fact, ghost n: nat) returns (ok: bool)
    requires ValidFacts(a) && Filled(a[..], n)
    modifies a
    ensures ValidFacts(a)
    ensures n < a.Length ==> ok
    ensures ok ==> SeenOf(a[..]) == old(SeenOf(a[..])) + {Pair(f)} && (Filled(a[..], n) || Filled(a[..], n + 1))
  {
    var slot := FindFact(a, f.trackId);
    ghost var ss := a[..];
    if slot < 0 {
      slot := AllocateFact(a, f.trackId, n);
      if slot < 0 { return false; }
    }
    SeenPut(ss, slot, f.trackId, f.direction);
    a[slot] := a[slot].(directions := a[slot].directions + {f.direction});
    var had := if ss[slot].inUse then ss[slot].directions else {};
    assert a[..] == ss[slot := FactSlot(true, f.trackId, had + {f.direction})];
    ok := true;
  }

  method ClearFacts(a: array<FactSlot>)
    modifies a
    ensures forall i | 0 <= i < a.Length :: a[i] == NO_FACT
    ensures SeenOf(a[..]) == {} && DistinctFacts(a[..]) && Filled(a[..], 0)
  {
    var i := 0;
    while i < a.Length
      invariant 0 <= i <= a.Length && forall k | 0 <= k < i :: a[k] == NO_FACT
    {
      a[i] := NO_FACT;
      i := i + 1;
    }
  }

  ghost function Pairs(fs: seq<Fact>): Seen { set i | 0 <= i < |fs| :: Pair(fs[i]) }

  /** Replacing the remembered facts never exhausts the table for at most 64 facts. */
  method RememberFacts(a: array<FactSlot>, fs: seq<Fact>) returns (ok: bool)
    requires ValidFacts(a) && |fs| <= MAX_TRACKS
    modifies a
    ensures ValidFacts(a) && ok && SeenOf(a[..]) == Pairs(fs)
  {
    ClearFacts(a);
    var i := 0;
    ghost var n := 0;
    while i < |fs|
      invariant 0 <= n <= i <= |fs| && ValidFacts(a) && Filled(a[..], n)
      invariant SeenOf(a[..]) == Pairs(fs[..i])
    {
      var kept := RememberFact(a, fs[i], n);
      if !kept { return false; }
      if !Filled(a[..], n) { n := n + 1; }
      PairsSnoc(fs, i);
      i := i + 1;
    }
    assert fs[..i] == fs;
    ok := true;
  }

  lemma PairsSnoc(fs: seq<Fact>, i: nat)
    requires i < |fs|
    ensures Pairs(fs[..i + 1]) == Pairs(fs[..i]) + {Pair(fs[i])}
  {
    var (a, b) := (fs[..i], fs[..i + 1]);
    forall p | p in Pairs(b) ensures p in Pairs(a) + {Pair(fs[i])} {
      var j :| 0 <= j < |b| && p == Pair(b[j]);
      if j < i { assert a[j] == b[j]; }
    }
    forall p | p in Pairs(a) ensures p in Pairs(b) {
      var j :| 0 <= j < |a| && p == Pair(a[j]);
      assert b[j] == a[j];
    }
    assert b[i] == fs[i];
  }

  /** The facts kept in a summary all match, so remembering them remembers the fact set. */
  lemma KeptPairs(cfg: Config, seen: Seen, o: Observation)
    requires ValidObservation(o)
    ensures var s := Summarize(cfg, seen, o.facts);
            |s.facts| <= MAX_FACTS && Pairs(s.facts) == FactSet(cfg, s.facts)
  {
    SummarizeIs(cfg, seen, o.facts);
    var fs := Summarize(cfg, seen, o.facts).facts;
    hide Summarize, ValidObservation;
    forall p | p in Pairs(fs) ensures p in FactSet(cfg, fs) {
      var i :| 0 <= i < |fs| && p == Pair(fs[i]);
      assert Matches(cfg, fs[i]);
    }
    forall p | p in FactSet(cfg, fs) ensures p in Pairs(fs) {
      var i :| 0 <= i < |fs| && Matches(cfg, fs[i]) && p == (fs[i].trackId, fs[i].direction);
    }
  }

  // ---------- the rule summary ----------

  method HasFact(s: Summary, f: Fact) returns (yes: bool)
    ensures yes <==> SummaryHas(s, f)
  {
    var i := 0;
    while i < |s.facts|
      invariant 0 <= i <= |s.facts|
      invariant forall k | 0 <= k < i ::
                  !(s.facts[k].ruleType == f.ruleType && s.facts[k].direction == f.direction
                    && s.facts[k].trackId == f.trackId && s.facts[k].ruleId == f.ruleId)
    {
      var p := s.facts[i];
      if p.ruleType == f.ruleType && p.direction == f.direction && p.trackId == f.trackId && p.ruleId == f.ruleId {
        return true;
      }
      i := i + 1;
    }
    yes := false;
  }

  lemma {:induction false} OccupancySummary(cfg: Config, seen: Seen, fs: seq<Fact>)
    requires cfg.ruleType.Occupancy?
    ensures Summarize(cfg, seen, fs) == NoSummary
  {
    if fs != [] { OccupancySummary(cfg, seen, fs[..|fs| - 1]); }
  }

  method MatchingRules(cfg: Config, a: array<FactSlot>, o: Observation) returns (s: Summary)
    requires ValidFacts(a)
    ensures s == Summarize(cfg, SeenOf(a[..]), o.facts)
  {
    s := NoSummary;
    if cfg.ruleType.Occupancy? {
      OccupancySummary(cfg, SeenOf(a[..]), o.facts);
      return;
    }
    ghost var seen := SeenOf(a[..]);
    var i := 0;
    while i < |o.facts|
      invariant 0 <= i <= |o.facts| && s == Summarize(cfg, seen, o.facts[..i])
    {
      var f := o.facts[i];
      assert o.facts[..i + 1][..i] == o.facts[..i];
      if Matches(cfg, f) {
        var have := HasFact(s, f);
        if !have {
          var known := FactSeen(a, f);
          s := s.(facts := if |s.facts| < MAX_FACTS then s.facts + [f] else s.facts,
                  first := if s.first.None? then Some(f) else s.first, matches := SatAdd(s.matches, 1));
          if !known {
            s := s.(novel := SatAdd(s.novel, 1));
            if f.direction.In? {
              s := s.(deltaIn := SatAdd(s.deltaIn, 1));
            } else if f.direction.Out? {
              s := s.(deltaOut := SatAdd(s.deltaOut, 1));
            }
            if f.trackId != 0 && f.trackId !in s.trackIds && |s.trackIds| < MAX_FACTS {
              s := s.(trackIds := s.trackIds + [f.trackId]);
            }
          }
        }
      }
      i := i + 1;
    }
    assert o.facts[..i] == o.facts;
  }
}
