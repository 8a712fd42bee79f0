// Evidence for an event: which recent JPEG is chosen, and the accounting of the two
// bounded stores, frames in memory and published records.
module EvidenceCache {
  import opened Common

  const I64_MAX: nat := 0x7FFF_FFFF_FFFF_FFFF
  const FRAME_BYTES_MAX: nat := 8 * 1024 * 1024
  const NOTE_LIMIT: nat := 256

  datatype Timebase = Timebase(num: nat, den: nat)

  /** A note with an empty channel is a frame not yet matched to its observation. */
  datatype Note = Note(channel: string, epoch: nat, frameId: nat, pts: Option<nat>, base: Timebase)

  datatype Frame = Frame(jpeg: nat, size: nat, note: Note)

  datatype Event = Event(
    eventId: string, channel: string, epoch: nat, frameId: nat, pts: Option<nat>, base: Timebase, start: bool)

  // ---------- the identity of a piece of evidence ----------

  const EVIDENCE_ID_SIZE: nat := 96

  predicate SafeChar(c: char) {
    'a' <= c <= 'z' || 'A' <= c <= 'Z' || '0' <= c <= '9' || c in "-_."
  }

  /** A file name that stays in its directory. */
  predicate SafeComponent(s: string) {
    s != "" && s != "." && s != ".." && forall i | 0 <= i < |s| :: SafeChar(s[i])
  }

  /** The id the event came with, or one derived from the digest of its event id; none for an
      event without identity or an id that is no safe file name. */
  function EvidenceId(e: Event, given: string, digest: Option<string>): Option<string> {
    if e.eventId == "" || e.channel == "" || e.epoch == 0 then None
    else if given != "" then (if SafeComponent(given) then Some(given) else None)
    else if digest.None? || |"ev-" + digest.value| >= EVIDENCE_ID_SIZE then None
    else if SafeComponent("ev-" + digest.value) then Some("ev-" + digest.value)
    else None
  }

  predicate Hex(s: string) { forall i | 0 <= i < |s| :: '0' <= s[i] <= '9' || 'a' <= s[i] <= 'f' }

  /** Every event with an identity and a digest has an evidence id, and events with different
      digests have different ones. */
  lemma DerivedIds(e: Event, d: string, f: Event, g: string)
    requires e.eventId != "" && e.channel != "" && e.epoch != 0 && |d| == 64 && Hex(d)
    requires f.eventId != "" && f.channel != "" && f.epoch != 0 && |g| == 64 && Hex(g)
    ensures EvidenceId(e, "", Some(d)).Some?
    ensures EvidenceId(e, "", Some(d)) == EvidenceId(f, "", Some(g)) <==> d == g
  {
    DerivedId(e, d);
    DerivedId(f, g);
    assert ("ev-" + d)[3..] == d && ("ev-" + g)[3..] == g;
  }

  lemma DerivedId(e: Event, d: string)
    requires e.eventId != "" && e.channel != "" && e.epoch != 0 && |d| == 64 && Hex(d)
    ensures EvidenceId(e, "", Some(d)) == Some("ev-" + d)
  {
    var id := "ev-" + d;
    forall i | 0 <= i < |id| ensures SafeChar(id[i]) {
      if i >= 3 { assert id[i] == d[i - 3]; }
    }
  }

  // ---------- choosing a frame ----------

  predicate SameBase(a: Timebase, b: Timebase) { a.num != 0 && a.den != 0 && a == b }

  predicate Matches(f: Frame, e: Event) {
    f.note.channel != "" && f.note.epoch != 0 && f.note.channel == e.channel && f.note.epoch == e.epoch
  }

  /** Both sides have a PTS on the same timebase. */
  predicate Comparable(f: Frame, e: Event) {
    Matches(f, e) && e.pts.Some? && f.note.pts.Some? && SameBase(f.note.base, e.base)
  }

  predicate IsExact(f: Frame, e: Event) {
    && Matches(f, e)
    && if Comparable(f, e) then f.note.pts == e.pts else e.frameId > 0 && f.note.frameId == e.frameId
  }

  /** A PTS is missing, so distances mean nothing. */
  predicate Untimed(f: Frame, e: Event) { Matches(f, e) && (e.pts.None? || f.note.pts.None?) }

  function Distance(a: nat, b: nat): nat { if a >= b then a - b else b - a }

  function DeltaOf(f: Frame, e: Event): nat
    requires Comparable(f, e)
  {
    Distance(f.note.pts.value, e.pts.value)
  }

  /** The largest 64-bit distance never counts as near. */
  predicate Near(f: Frame, e: Event) { Comparable(f, e) && DeltaOf(f, e) < I64_MAX }

  datatype Choice = NoFrame | Exact(i: nat) | Approximate(i: nat)

  /** The choice a reader would make from the frames, oldest first. */
  ghost predicate Best(fs: seq<Frame>, e: Event, c: Choice) {
    match c
    case Exact(i) => i < |fs| && IsExact(fs[i], e) && forall j | i < j < |fs| :: !IsExact(fs[j], e)
    case Approximate(i) =>
      && i < |fs| && (forall j | 0 <= j < |fs| :: !IsExact(fs[j], e))
      && if Near(fs[i], e) then
           forall j | 0 <= j < |fs| && Near(fs[j], e) ::
             DeltaOf(fs[i], e) < DeltaOf(fs[j], e) || (DeltaOf(fs[i], e) == DeltaOf(fs[j], e) && j <= i)
         else
           && Untimed(fs[i], e) && (forall j | 0 <= j < |fs| :: !Near(fs[j], e))
           && forall j | i < j < |fs| :: !Untimed(fs[j], e)
    case NoFrame => forall j | 0 <= j < |fs| :: !IsExact(fs[j], e) && !Near(fs[j], e) && !Untimed(fs[j], e)
  }

  /** There is exactly one best choice. */
  lemma BestUnique(fs: seq<Frame>, e: Event, a: Choice, b: Choice)
    requires Best(fs, e, a) && Best(fs, e, b)
    ensures a == b
  {
  }

  /** The two PTS values are the ends of the 64-bit range. */
  predicate FarApart(a: nat, b: nat) { (a == 0 && b == I64_MAX) || (a == I64_MAX && b == 0) }

  /** A frame of the event's channel and epoch that is passed over: both have a PTS and, on
      one timebase, these are as far apart as can be, or else the frame has another number. */
  predicate PassedOver(f: Frame, e: Event) {
    && e.pts.Some? && f.note.pts.Some?
    && if SameBase(f.note.base, e.base) then FarApart(f.note.pts.value, e.pts.value)
       else e.frameId == 0 || f.note.frameId != e.frameId
  }

  /** With 64-bit PTS values, no frame is chosen exactly when every frame of the event's
      channel and epoch is passed over. */
  lemma NothingChosenIff(fs: seq<Frame>, e: Event, c: Choice)
    requires Best(fs, e, c) && (e.pts.Some? ==> e.pts.value <= I64_MAX)
    requires forall j | 0 <= j < |fs| && fs[j].note.pts.Some? :: fs[j].note.pts.value <= I64_MAX
    ensures c.NoFrame? <==> forall j | 0 <= j < |fs| && Matches(fs[j], e) :: PassedOver(fs[j], e)
  {
    forall j | 0 <= j < |fs| && Matches(fs[j], e)
      ensures PassedOver(fs[j], e) <==> !IsExact(fs[j], e) && !Near(fs[j], e) && !Untimed(fs[j], e)
    {
    }
  }

  /** Such a frame and event: their frame numbers agree, and yet there is no evidence. */
  lemma FarFrameIgnored(e: Event, f: Frame)
    requires e == Event("e", "c", 1, 7, Some(I64_MAX), Timebase(1, 1000), true)
    requires f == Frame(0, 4, Note("c", 1, 7, Some(0), Timebase(1, 1000)))
    ensures Comparable(f, e) && Best([f], e, NoFrame) && forall c | Best([f], e, c) :: c == NoFrame
  {
    assert [f][0] == f;
    forall c | Best([f], e, c) ensures c == NoFrame { BestUnique([f], e, c, NoFrame); }
  }

  /** How far off an approximate choice is, in frames and in PTS, where both are known. */
  ghost function FrameDelta(fs: seq<Frame>, e: Event, c: Choice): nat
    requires Best(fs, e, c)
  {
    if c.Approximate? && e.frameId > 0 && fs[c.i].note.frameId > 0 then Distance(fs[c.i].note.frameId, e.frameId) else 0
  }

  ghost function PtsDelta(fs: seq<Frame>, e: Event, c: Choice): int
    requires Best(fs, e, c)
  {
    if c.Approximate? && Comparable(fs[c.i], e) then fs[c.i].note.pts.value - e.pts.value else 0
  }

  method SelectFrame(fs: seq<Frame>, e: Event) returns (c: Choice, frameDelta: nat, ptsDelta: int)
    ensures Best(fs, e, c)
    ensures frameDelta == FrameDelta(fs, e, c) && ptsDelta == PtsDelta(fs, e, c)
  {
    c, frameDelta, ptsDelta := NoFrame, 0, 0;
    var nearest: Option<nat> := None;
    var nearestDelta := I64_MAX;
    var i := |fs|;
    while i > 0
      invariant 0 <= i <= |fs|
      invariant forall j | i <= j < |fs| :: !IsExact(fs[j], e)
      invariant nearest.Some? ==> i <= nearest.value < |fs|
      invariant nearestDelta <= I64_MAX
      invariant nearest.None? ==>
                  nearestDelta == I64_MAX && forall j | i <= j < |fs| :: !Near(fs[j], e) && !Untimed(fs[j], e)
      invariant nearest.Some? && nearestDelta == I64_MAX ==>
                  && Untimed(fs[nearest.value], e) && (forall j | i <= j < |fs| :: !Near(fs[j], e))
                  && forall j | nearest.value < j < |fs| :: !Untimed(fs[j], e)
      invariant nearest.Some? && nearestDelta < I64_MAX ==>
                  && Near(fs[nearest.value], e) && DeltaOf(fs[nearest.value], e) == nearestDelta
                  && forall j | i <= j < |fs| && Near(fs[j], e) ::
                       nearestDelta < DeltaOf(fs[j], e) || (nearestDelta == DeltaOf(fs[j], e) && j <= nearest.value)
    {
      i := i - 1;
      var f := fs[i];
      if IsExact(f, e) { return Exact(i), 0, 0; }
      if !Matches(f, e) { continue; }
      if e.pts.Some? && f.note.pts.Some? && SameBase(f.note.base, e.base) {
        var delta := Distance(f.note.pts.value, e.pts.value);
        if delta < nearestDelta { nearestDelta, nearest := delta, Some(i); }
      } else if (e.pts.None? || f.note.pts.None?) && nearest.None? {
        nearest := Some(i);
      }
    }
    if nearest.None? { return; }
    var f := fs[nearest.value];
    c := Approximate(nearest.value);
    if e.frameId > 0 && f.note.frameId > 0 { frameDelta := Distance(f.note.frameId, e.frameId); }
    if e.pts.Some? && f.note.pts.Some? && SameBase(f.note.base, e.base) { ptsDelta := f.note.pts.value - e.pts.value; }
  }

  // ---------- recent frames and their notes ----------

  function Sum(fs: seq<Frame>): nat { if fs == [] then 0 else fs[0].size + Sum(fs[1..]) }

  lemma {:induction false} SumSnoc(fs: seq<Frame>, f: Frame)
    ensures Sum(fs + [f]) == Sum(fs) + f.size
  {
    if fs == [] {
      assert fs + [f] == [f] && [f][1..] == [];
    } else {
      assert (fs + [f])[1..] == fs[1..] + [f];
      SumSnoc(fs[1..], f);
    }
  }

  /** Drop the oldest frames until the rest fits. */
  function Trim(fs: seq<Frame>, cap: nat): seq<Frame> { if Sum(fs) <= cap then fs else Trim(fs[1..], cap) }

  /** What remains is the longest suffix that fits. */
  lemma {:induction false} TrimLongest(fs: seq<Frame>, cap: nat)
    ensures var t := Trim(fs, cap);
            && |t| <= |fs| && t == fs[|fs| - |t|..] && Sum(t) <= cap
            && forall k | 0 <= k < |fs| - |t| :: Sum(fs[k..]) > cap
  {
    if Sum(fs) > cap {
      TrimLongest(fs[1..], cap);
      var t := Trim(fs, cap);
      assert fs[1..][|fs| - 1 - |t|..] == fs[|fs| - |t|..];
      forall k | 0 <= k < |fs| - |t| ensures Sum(fs[k..]) > cap {
        if k > 0 { assert fs[1..][k - 1..] == fs[k..]; } else { assert fs[0..] == fs; }
      }
    }
  }

  predicate SamePts(n: Note, pts: Option<nat>) { n.pts.Some? && n.pts == pts }

  /** The newest note with this PTS. */
  function LatestNote(ns: seq<Note>, pts: Option<nat>): Option<Note> {
    if ns == [] then None
    else if SamePts(ns[|ns| - 1], pts) then Some(ns[|ns| - 1])
    else LatestNote(ns[..|ns| - 1], pts)
  }

  function LastNotes(ns: seq<Note>): seq<Note> { if |ns| > NOTE_LIMIT then ns[|ns| - NOTE_LIMIT..] else ns }

  function Annotate(f: Frame, n: Note): Frame {
    if f.note.channel == "" && SamePts(n, f.note.pts) then f.(note := n) else f
  }

  function AnnotateAll(fs: seq<Frame>, n: Note): (r: seq<Frame>)
    ensures |r| == |fs| && forall i | 0 <= i < |fs| :: r[i] == Annotate(fs[i], n)
  {
    seq(|fs|, i requires 0 <= i < |fs| => Annotate(fs[i], n))
  }

  lemma {:induction false} AnnotateSum(fs: seq<Frame>, n: Note)
    ensures Sum(AnnotateAll(fs, n)) == Sum(fs)
  {
    if fs != [] {
      AnnotateSum(fs[1..], n);
      assert AnnotateAll(fs, n)[1..] == AnnotateAll(fs[1..], n);
    }
  }

  lemma {:induction false} AnnotateTrim(fs: seq<Frame>, n: Note, cap: nat)
    ensures AnnotateAll(Trim(fs, cap), n) == Trim(AnnotateAll(fs, n), cap)
  {
    AnnotateSum(fs, n);
    if Sum(fs) > cap {
      AnnotateTrim(fs[1..], n, cap);
      assert AnnotateAll(fs, n)[1..] == AnnotateAll(fs[1..], n);
    }
  }

  datatype Recent = Recent(notes: seq<Note>, frames: seq<Frame>)

  function NoteFrame(r: Recent, n: Note): Recent {
    Recent(LastNotes(r.notes + [n]), AnnotateAll(r.frames, n))
  }

  function Unannotated(pts: Option<nat>): Note { Note("", 0, 0, pts, Timebase(0, 0)) }

  function PushJpeg(r: Recent, jpeg: nat, size: nat, pts: Option<nat>, cap: nat): Recent {
    var note := LatestNote(r.notes, pts);
    var f := Frame(jpeg, size, if note.Some? then note.value else Unannotated(pts));
    Recent(r.notes, Trim(r.frames + [f], cap))
  }

  lemma {:induction false} LatestNoteOfNew(ns: seq<Note>, n: Note, pts: Option<nat>)
    ensures SamePts(n, pts) ==> LatestNote(LastNotes(ns + [n]), pts) == Some(n)
  {
    var l := LastNotes(ns + [n]);
    assert l[|l| - 1] == n;
  }

  /** The encoder may run ahead of the analytics or behind it: a frame and the only note
      with its PTS meet in the same state in either order. */
  lemma OrderFree(r: Recent, n: Note, jpeg: nat, size: nat, cap: nat)
    requires n.pts.Some? && LatestNote(r.notes, n.pts).None?
    ensures NoteFrame(PushJpeg(r, jpeg, size, n.pts, cap), n) == PushJpeg(NoteFrame(r, n), jpeg, size, n.pts, cap)
  {
    LatestNoteOfNew(r.notes, n, n.pts);
    var f := Frame(jpeg, size, Unannotated(n.pts));
    AnnotateTrim(r.frames + [f], n, cap);
    assert AnnotateAll(r.frames + [f], n) == AnnotateAll(r.frames, n) + [f.(note := n)];
  }

  // ---------- published records ----------

  datatype Record = Record(
    eventId: string, jpeg: nat, bytes: nat, exact: bool, frameDelta: nat, ptsDelta: int, expiresAt: nat)

  ghost function Total(m: map<string, Record>): nat {
    if m == map[] then 0 else var k :| k in m; m[k].bytes + Total(m - {k})
  }

  lemma {:induction false} TotalRemove(m: map<string, Record>, k: string)
    requires k in m
    ensures Total(m) == m[k].bytes + Total(m - {k})
    decreases |m|
  {
    var p :| p in m && Total(m) == m[p].bytes + Total(m - {p});
    if p != k {
      var mp, mk := m - {p}, m - {k};
      assert mp.Keys == m.Keys - {p} && mk.Keys == m.Keys - {k};
      TotalRemove(mp, k);
      TotalRemove(mk, p);
      assert mp - {k} == mk - {p};
    }
  }

  lemma TotalAdd(m: map<string, Record>, k: string, r: Record)
    requires k !in m
    ensures Total(m[k := r]) == Total(m) + r.bytes
  {
    TotalRemove(m[k := r], k);
    assert m[k := r] - {k} == m;
  }

  predicate Expired(r: Record, now: nat) { r.expiresAt > 0 && r.expiresAt <= now }

  function Live(m: map<string, Record>, now: nat): map<string, Record> {
    map k | k in m && !Expired(m[k], now) :: m[k]
  }

  function Less(a: nat, b: nat): nat { if a >= b then a - b else 0 }

  function ExpiredIds(m: map<string, Record>, now: nat): set<string> { set k | k in m && Expired(m[k], now) }

  function ExpiryOf(now: nat, retentionS: nat): nat {
    if now > I64_MAX || retentionS > (I64_MAX - now) / 1000000 then I64_MAX else now + retentionS * 1000000
  }

  lemma PrunedIs(m: map<string, Record>, now: nat)
    ensures m - (ExpiredIds(m, now) - {}) == Live(m, now)
    ensures |Live(m, now)| + |ExpiredIds(m, now)| == |m|
  {
    assert m.Keys == Live(m, now).Keys + ExpiredIds(m, now);
    assert Live(m, now).Keys !! ExpiredIds(m, now);
  }

  class Cache {
    var notes: seq<Note>
    var frames: seq<Frame>
    var frameBytes: nat
    var records: map<string, Record>
    var storedBytes: nat
    const maxBytes: nat
    const retentionS: nat

    function FrameCap(): nat { if maxBytes < FRAME_BYTES_MAX then maxBytes else FRAME_BYTES_MAX }

    /** Both byte counters are the sums they stand for, and the recent window is bounded. */
    ghost predicate Valid()
      reads this
    {
      && frameBytes == Sum(frames) <= FrameCap() && |notes| <= NOTE_LIMIT
      && storedBytes == Total(records)
    }

    ghost function Abs(): Recent
      reads this
    {
      Recent(notes, frames)
    }

    constructor (maxBytes: nat, retentionS: nat)
      requires maxBytes > 0 && retentionS > 0
      ensures Valid() && records == map[] && Abs() == Recent([], [])
      ensures this.maxBytes == maxBytes && this.retentionS == retentionS
    {
      this.maxBytes, this.retentionS := maxBytes, retentionS;
      notes, frames, frameBytes, records, storedBytes := [], [], 0, map[], 0;
    }

    method AddNote(n: Note) returns (rc: int)
      requires Valid()
      modifies this`notes, this`frames
      ensures Valid()
      ensures if n.channel == "" || n.epoch == 0 || n.frameId == 0 then rc == -1 && Abs() == old(Abs())
              else rc == 0 && Abs() == NoteFrame(old(Abs()), n)
    {
      if n.channel == "" || n.epoch == 0 || n.frameId == 0 { return -1; }
      TakeNote(n);
      AnnotateFrames(n);
      rc := 0;
    }

    method TakeNote(n: Note)
      requires |notes| <= NOTE_LIMIT
      modifies this`notes
      ensures notes == LastNotes(old(notes) + [n]) && |notes| <= NOTE_LIMIT
    {
      ghost var all := notes + [n];
      notes := notes + [n];
      var count := |notes|;
      while count > NOTE_LIMIT
        invariant count == |notes| && |notes| <= |all| && notes == all[|all| - |notes|..]
        invariant count >= NOTE_LIMIT || notes == all
      {
        notes, count := notes[1..], count - 1;
      }
    }

    method AnnotateFrames(n: Note)
      modifies this`frames
      ensures frames == AnnotateAll(old(frames), n) && Sum(frames) == old(Sum(frames))
    {
      ghost var fs := frames;
      AnnotateSum(frames, n);
      var i := 0;
      while i < |frames|
        invariant 0 <= i <= |frames| == |fs|
        invariant forall k | 0 <= k < i :: frames[k] == Annotate(fs[k], n)
        invariant forall k | i <= k < |fs| :: frames[k] == fs[k]
      {
        if frames[i].note.channel == "" && SamePts(n, frames[i].note.pts) {
          frames := frames[i := frames[i].(note := n)];
        }
        i := i + 1;
      }
      assert frames == AnnotateAll(fs, n);
    }

    method FindNote(pts: Option<nat>) returns (n: Option<Note>)
      ensures n == LatestNote(notes, pts)
    {
      var i := |notes|;
      assert notes[..i] == notes;
      while i > 0
        invariant 0 <= i <= |notes| && LatestNote(notes, pts) == LatestNote(notes[..i], pts)
      {
        i := i - 1;
        assert notes[..i + 1][..i] == notes[..i];
        if SamePts(notes[i], pts) { return Some(notes[i]); }
      }
      n := None;
    }

    /** `wellFormed` says that the bytes carry the JPEG markers and are at least four. */
    method AddJpeg(jpeg: nat, size: nat, wellFormed: bool, pts: Option<nat>) returns (rc: int)
      requires Valid()
      modifies this`frames, this`frameBytes
      ensures Valid()
      ensures if !wellFormed then rc == -1 && Abs() == old(Abs())
              else rc == 0 && Abs() == PushJpeg(old(Abs()), jpeg, size, pts, FrameCap())
    {
      if !wellFormed { return -1; }
      var note := FindNote(pts);
      var f := Frame(jpeg, size, if note.Some? then note.value else Unannotated(pts));
      SumSnoc(frames, f);
      frames, frameBytes := frames + [f], frameBytes + size;
      while frameBytes > FrameCap() && frames != []
        invariant frameBytes == Sum(frames) && Trim(frames, FrameCap()) == Trim(old(frames) + [f], FrameCap())
        decreases |frames|
      {
        var size0 := frames[0].size;
        frameBytes := Less(frameBytes, size0);
        frames := frames[1..];
      }
      rc := 0;
    }

    method RemoveRecord(id: string)
      requires Valid()
      modifies this`records, this`storedBytes
      ensures Valid() && records == old(records) - {id}
    {
      if id !in records {
        assert records - {id} == records;
        return;
      }
      TotalRemove(records, id);
      storedBytes := Less(storedBytes, records[id].bytes);
      records := records - {id};
    }

    /** Drops the expired records and nothing else. */
    method PruneExpired(now: nat) returns (removed: nat)
      requires Valid()
      modifies this`records, this`storedBytes
      ensures Valid() && records == Live(old(records), now)
      ensures removed == |old(records)| - |records|
    {
      ghost var (m, all) := (records, ExpiredIds(records, now));
      var expired := ExpiredIds(records, now);
      hide Total, Expired;
      removed := 0;
      assert m - (all - expired) == m;
      while expired != {}
        invariant Valid() && expired <= all && records == m - (all - expired)
        invariant removed + |expired| == |all|
        decreases |expired|
      {
        var k :| k in expired;
        RemoveRecord(k);
        assert m - (all - expired) - {k} == m - (all - (expired - {k}));
        expired, removed := expired - {k}, removed + 1;
      }
      PrunedIs(m, now);
    }

    /** A frame was chosen, and it fits beside the records that have not expired. */
    ghost predicate Publishable(choice: Choice, now: nat)
      requires !choice.NoFrame? ==> choice.i < |frames|
      reads this
    {
      !choice.NoFrame? && Total(Live(records, now)) + frames[choice.i].size <= maxBytes
    }

    /** Publish the best frame for a START once; nothing else adds a record. `given` is the
        evidence id the event came with, `digest` the SHA-256 of its event id in hexadecimal if
        that could be computed; `published` says whether both files reached the disk, `choice`
        what the best frame is. */
    method Capture(e: Event, given: string, digest: Option<string>, now: nat, published: bool)
      returns (rc: int, ghost choice: Choice)
      requires Valid()
      modifies this`records, this`storedBytes
      ensures Valid() && Abs() == old(Abs())
      ensures var id := EvidenceId(e, given, digest);
              if id.None? || id.value in old(records) || !e.start then choice.NoFrame? else Best(frames, e, choice)
      // 0 for a known id, or a START whose best frame fits and was published; -1 when it was
      // not, or when the event has no usable identity; else 1
      ensures var id := EvidenceId(e, given, digest);
              && (rc == 0 <==> id.Some?
                               && (id.value in old(records) || (e.start && old(Publishable(choice, now)) && published)))
              && (rc == -1 <==>
                  id.None? || (id.value !in old(records) && e.start && old(Publishable(choice, now)) && !published))
      ensures rc != 0 && rc != -1 ==> rc == 1
      // a new record shows the best frame; expired ones have made room for it
      ensures var id := EvidenceId(e, given, digest);
              rc == 0 && id.value !in old(records) ==>
                && storedBytes <= maxBytes
                && records == Live(old(records), now)[id.value := Record(
                     e.eventId, frames[choice.i].jpeg, frames[choice.i].size, choice.Exact?,
                     FrameDelta(frames, e, choice), PtsDelta(frames, e, choice), ExpiryOf(now, retentionS))]
      // without one, expired records may have gone, and nothing else
      ensures var id := EvidenceId(e, given, digest);
              && (rc != 0 || id.value in old(records) ==> records == old(records) || records == Live(old(records), now))
              && (id.None? || id.value in old(records) || !e.start ==> records == old(records))
      ensures storedBytes <= old(storedBytes) || storedBytes <= maxBytes
    {
      choice := NoFrame;
      if e.eventId == "" || e.channel == "" || e.epoch == 0 { return -1, choice; }
      var id := given;
      if id == "" {
        if digest.None? { return -1, choice; }
        id := "ev-" + digest.value;
        if |id| >= EVIDENCE_ID_SIZE { return -1, choice; }
      }
      if !SafeComponent(id) { return -1, choice; }
      if id in records { return 0, choice; }
      if !e.start { return 1, choice; }
      rc, choice := PublishLocked(e, id, now, published);
    }

    /** The part for a START without a record. */
    method PublishLocked(e: Event, id: string, now: nat, published: bool) returns (rc: int, ghost choice: Choice)
      requires Valid() && id !in records && e.start
      modifies this`records, this`storedBytes
      ensures Valid() && Abs() == old(Abs()) && Best(frames, e, choice)
      ensures rc == if !old(Publishable(choice, now)) then 1 else if published then 0 else -1
      ensures rc == 0 ==>
                && storedBytes <= maxBytes
                && records == Live(old(records), now)[id := Record(
                     e.eventId, frames[choice.i].jpeg, frames[choice.i].size, choice.Exact?,
                     FrameDelta(frames, e, choice), PtsDelta(frames, e, choice), ExpiryOf(now, retentionS))]
      ensures rc != 0 ==> records == old(records) || records == Live(old(records), now)
      ensures storedBytes <= old(storedBytes) || storedBytes <= maxBytes
    {
      var c, frameDelta, ptsDelta := SelectFrame(frames, e);
      choice := c;
      if c.NoFrame? { return 1, choice; }
      var f := frames[c.i];
      var r := Record(e.eventId, f.jpeg, f.size, c.Exact?, frameDelta, ptsDelta, ExpiryOf(now, retentionS));
      if r.bytes > maxBytes { return 1, choice; }
      var removed := PruneExpired(now);
      LiveTotal(old(records), now);
      if storedBytes + r.bytes > maxBytes { return 1, choice; }
      if !published { return -1, choice; }
      TotalAdd(records, id, r);
      records, storedBytes := records[id := r], storedBytes + r.bytes;
      rc := 0;
    }
  }

  lemma {:induction false} LiveTotal(m: map<string, Record>, now: nat)
    ensures Total(Live(m, now)) <= Total(m)
    decreases |m|
  {
    if k :| k in m && Expired(m[k], now) {
      TotalRemove(m, k);
      LiveTotal(m - {k}, now);
      assert Live(m - {k}, now) == Live(m, now);
    } else {
      assert Live(m, now) == m;
    }
  }
}
