// The people-flow event engine on values: configuration, observations, timelines,
// and the state that one observation after another moves forward.
module EngineModel {
  import opened Common

  const U32_MAX: nat := 0xFFFF_FFFF
  const U64_MAX: nat := 0xFFFF_FFFF_FFFF_FFFF
  const I64_MAX: nat := 0x7FFF_FFFF_FFFF_FFFF
  const MAX_TRACKS: nat := 64
  const MAX_FACTS: nat := 16
  const COORD_SCALE: nat := 10000
  const ID_MAX: nat := 64

  datatype RuleType = NoRule | Occupancy | LineCross | Intrusion
  datatype Direction = NoDirection | In | Out
  datatype TrackClass = UnknownClass | Person | Other
  datatype TrackState = UnknownState | New | Active | Lost | Removed
  datatype Clock = Unavailable | Synced | Estimated | InvalidClock
  datatype Box = Box(left: nat, top: nat, right: nat, bottom: nat)

  datatype Track = Track(id: nat, kind: TrackClass, state: TrackState, box: Box, score: nat)
  datatype Fact = Fact(ruleId: string, ruleType: RuleType, direction: Direction, score: nat, trackId: nat)

  /** `labelsOk` stands for the version and label checks that carry no other meaning here. */
  datatype Observation = Observation(
    channelId: string, epoch: nat, frameId: nat,
    pts: int, ptsValid: bool, tbNum: nat, tbDen: nat, captureUs: int, clock: Clock,
    width: nat, height: nat, tracks: seq<Track>, facts: seq<Fact>, labelsOk: bool)

  /** `restOk` stands for the configuration checks on fields the engine does not read. */
  datatype Config = Config(
    enabled: bool, fps: int, scoreThreshold: nat, confirmFrames: nat, confirmMs: nat, debounceMs: nat,
    graceMs: nat, cooldownMs: nat, updateMs: nat, roi: Option<Box>, ruleId: string, ruleType: RuleType,
    restOk: bool)

  // ---------- validation ----------

  predicate BoundedId(s: string) { 0 < |s| < ID_MAX }

  predicate ValidBox(b: Box) {
    b.left < b.right <= COORD_SCALE && b.top < b.bottom <= COORD_SCALE
  }

  predicate ValidConfig(c: Config) {
    && c.restOk && c.fps >= 0 && (c.enabled ==> c.fps > 0)
    && c.scoreThreshold <= COORD_SCALE
    && c.confirmFrames != 0 && c.confirmMs != 0 && c.updateMs != 0
    && c.confirmFrames <= U32_MAX
    && (c.roi.Some? ==> ValidBox(c.roi.value))
    && BoundedId(c.ruleId) && !c.ruleType.NoRule?
  }

  predicate ValidTrack(t: Track) {
    t.id != 0 && !t.kind.UnknownClass? && !t.state.UnknownState? && ValidBox(t.box) && t.score <= COORD_SCALE
  }

  /** Two facts of one rule may not be confused: at most one per track, and a fact
      without a track excludes every other. */
  predicate FactsClash(a: Fact, b: Fact) {
    a.ruleId == b.ruleId && (a.trackId == 0 || b.trackId == 0 || a.trackId == b.trackId)
  }

  predicate ValidObservation(o: Observation) {
    && o.labelsOk && BoundedId(o.channelId) && o.epoch != 0 && o.frameId != 0
    && o.tbNum != 0 && o.tbDen != 0
    && (!o.ptsValid ==> o.pts == 0) && (o.ptsValid ==> o.pts >= 0)
    && o.width != 0 && o.height != 0
    && (match o.clock
        case Unavailable => o.captureUs == 0
        case InvalidClock => o.captureUs == 0
        case _ => o.captureUs > 0)
    && |o.tracks| <= MAX_TRACKS
    && (forall i | 0 <= i < |o.tracks| :: ValidTrack(o.tracks[i]))
    && (forall i, j | 0 <= j < i < |o.tracks| :: o.tracks[j].id != o.tracks[i].id)
    && |o.facts| <= MAX_FACTS
    && (forall i | 0 <= i < |o.facts| ::
          BoundedId(o.facts[i].ruleId) && !o.facts[i].ruleType.NoRule? && o.facts[i].score <= COORD_SCALE)
    && (forall i, j | 0 <= j < i < |o.facts| :: !FactsClash(o.facts[j], o.facts[i]))
  }

  // ---------- timelines ----------

  /** Microseconds on the local duration timeline, or None when it is not valid. */
  type Time = Option<nat>

  function ScaleToUs(value: nat, num: nat, den: nat): Time {
    if den == 0 then None
    else
      var us := value * num * 1000000 / den;
      if us > I64_MAX then None else Some(us)
  }

  function PtsToUs(o: Observation): Time {
    if !o.ptsValid || o.pts < 0 || o.tbNum == 0 || o.tbDen == 0 then None
    else ScaleToUs(o.pts, o.tbNum, o.tbDen)
  }

  /** PTS first, then a trusted wall clock, then the frame count. */
  function TimeOf(cfg: Config, o: Observation): Time {
    if PtsToUs(o).Some? then PtsToUs(o)
    else if (o.clock.Synced? || o.clock.Estimated?) && o.captureUs > 0 then Some(o.captureUs)
    else if cfg.fps > 0 && o.frameId > 0 then ScaleToUs(o.frameId - 1, 1, cfg.fps)
    else None
  }

  predicate Elapsed(now: Time, since: Time, us: nat) {
    now.Some? && since.Some? && now.value >= since.value && now.value - since.value >= us
  }

  function AddMs(start: nat, ms: nat): nat {
    if start + ms * 1000 > I64_MAX then I64_MAX else start + ms * 1000
  }

  function SatAdd(a: nat, b: nat): nat { if a + b > U32_MAX then U32_MAX else a + b }

  // ---------- tracks ----------

  /** `candidate` is a pending change of side and when it was first seen. */
  datatype Tracked = Tracked(
    present: bool, confirmed: bool, seen: nat, first: Time, last: Time,
    inside: Option<bool>, candidate: Option<(bool, nat)>)

  const Fresh := Tracked(false, false, 0, None, None, None, None)

  predicate InsideRoi(cfg: Config, b: Box) {
    cfg.roi.Some? ==>
      var r := cfg.roi.value;
      var (x, y) := ((b.left + b.right) / 2, (b.top + b.bottom) / 2);
      r.left <= x <= r.right && r.top <= y <= r.bottom
  }

  function UpdateInside(cfg: Config, t: Tracked, raw: bool, now: Time): Tracked {
    if t.inside.None? || raw == t.inside.value then t.(inside := Some(raw), candidate := None)
    else if cfg.debounceMs == 0 || now.None? then t.(inside := Some(raw), candidate := None)
    else if t.candidate.None? || t.candidate.value.0 != raw then t.(candidate := Some((raw, now.value)))
    else if Elapsed(now, Some(t.candidate.value.1), cfg.debounceMs * 1000) then
      t.(inside := Some(raw), candidate := None)
    else t
  }

  predicate Confirmed(cfg: Config, t: Tracked, now: Time) {
    (cfg.confirmFrames > 0 && t.seen >= cfg.confirmFrames) || Elapsed(now, t.first, cfg.confirmMs * 1000)
  }

  /** One detection of a track the table has room for. */
  function Sight(cfg: Config, t: Tracked, input: Track, now: Time): Tracked {
    var a := UpdateInside(cfg, t.(present := true), InsideRoi(cfg, input.box), now);
    var b :=
      if a.confirmed then a
      else
        var seen := if a.seen < U32_MAX then a.seen + 1 else a.seen;
        var c := a.(seen := seen, first := if seen == 1 then now else a.first);
        c.(confirmed := Confirmed(cfg, c, now));
    b.(last := now)
  }

  predicate Usable(cfg: Config, t: Track) {
    t.kind.Person? && (t.state.New? || t.state.Active?) && t.score >= cfg.scoreThreshold
  }

  /** Apply one observed track; a 65th track is ignored. */
  function ApplyTrack(cfg: Config, m: map<nat, Tracked>, t: Track, now: Time): map<nat, Tracked> {
    if !t.kind.Person? then m
    else if t.state.Removed? then m - {t.id}
    else if !Usable(cfg, t) then m
    else if t.id in m then m[t.id := Sight(cfg, m[t.id], t, now)]
    else if |m| < MAX_TRACKS then m[t.id := Sight(cfg, Fresh, t, now)]
    else m
  }

  function ApplyTracks(cfg: Config, m: map<nat, Tracked>, ts: seq<Track>, now: Time): map<nat, Tracked> {
    if ts == [] then m
    else ApplyTrack(cfg, ApplyTracks(cfg, m, ts[..|ts| - 1], now), ts[|ts| - 1], now)
  }

  predicate Survives(cfg: Config, t: Tracked, now: Time) {
    t.present || (t.confirmed && cfg.graceMs != 0 && !Elapsed(now, t.last, cfg.graceMs * 1000))
  }

  function Absent(m: map<nat, Tracked>): map<nat, Tracked> {
    map k | k in m :: m[k].(present := false)
  }

  function Prune(cfg: Config, m: map<nat, Tracked>, now: Time): map<nat, Tracked> {
    map k | k in m && Survives(cfg, m[k], now) :: m[k]
  }

  function UpdateTracks(cfg: Config, m: map<nat, Tracked>, o: Observation, now: Time): map<nat, Tracked> {
    Prune(cfg, ApplyTracks(cfg, Absent(m), o.tracks, now), now)
  }

  predicate Counted(t: Tracked) { t.present && t.confirmed && t.inside == Some(true) }

  function CountedIn(m: map<nat, Tracked>): set<nat> { set k | k in m && Counted(m[k]) }

  function PersonCount(m: map<nat, Tracked>): nat { |CountedIn(m)| }

  // ---------- rule facts ----------

  type Seen = set<(nat, Direction)>

  predicate Matches(cfg: Config, f: Fact) {
    !cfg.ruleType.Occupancy? && f.ruleType == cfg.ruleType && f.ruleId == cfg.ruleId && f.score >= cfg.scoreThreshold
  }

  /** The observation's matching facts, as track and direction. */
  function FactSet(cfg: Config, fs: seq<Fact>): Seen {
    set i | 0 <= i < |fs| && Matches(cfg, fs[i]) :: (fs[i].trackId, fs[i].direction)
  }

  datatype Summary = Summary(
    first: Option<Fact>, matches: nat, novel: nat, deltaIn: nat, deltaOut: nat, trackIds: seq<nat>, facts: seq<Fact>)

  const NoSummary := Summary(None, 0, 0, 0, 0, [], [])

  predicate SummaryHas(s: Summary, f: Fact) {
    exists i | 0 <= i < |s.facts| ::
      s.facts[i].ruleType == f.ruleType && s.facts[i].direction == f.direction
      && s.facts[i].trackId == f.trackId && s.facts[i].ruleId == f.ruleId
  }

  function AddFact(cfg: Config, seen: Seen, s: Summary, f: Fact): Summary {
    if !Matches(cfg, f) || SummaryHas(s, f) then s
    else
      var s1 := s.(facts := if |s.facts| < MAX_FACTS then s.facts + [f] else s.facts,
                   first := if s.first.None? then Some(f) else s.first,
                   matches := SatAdd(s.matches, 1));
      if (f.trackId, f.direction) in seen then s1
      else
        s1.(novel := SatAdd(s1.novel, 1),
            deltaIn := if f.direction.In? then SatAdd(s1.deltaIn, 1) else s1.deltaIn,
            deltaOut := if f.direction.Out? then SatAdd(s1.deltaOut, 1) else s1.deltaOut,
            trackIds := if f.trackId == 0 || f.trackId in s1.trackIds || |s1.trackIds| >= MAX_FACTS
                        then s1.trackIds else s1.trackIds + [f.trackId])
  }

  function Summarize(cfg: Config, seen: Seen, fs: seq<Fact>): Summary {
    if fs == [] then NoSummary else AddFact(cfg, seen, Summarize(cfg, seen, fs[..|fs| - 1]), fs[|fs| - 1])
  }

  // ---------- ordering ----------

  datatype Order = Unordered | Order(epoch: nat, frameId: nat, pts: int, ptsValid: bool)

  datatype OrderResult = Invalid | First | Accepted | Duplicate | OutOfOrder | EpochAdvance

  function Commit(o: Observation): Order { Order(o.epoch, o.frameId, o.pts, o.ptsValid) }

  function Classify(order: Order, o: Observation): (Order, OrderResult) {
    if !ValidObservation(o) then (order, Invalid)
    else if order.Unordered? then (Commit(o), First)
    else if o.epoch < order.epoch then (order, OutOfOrder)
    else if o.epoch > order.epoch then (Commit(o), EpochAdvance)
    else if o.frameId == order.frameId then (order, Duplicate)
    else if o.frameId < order.frameId then (order, OutOfOrder)
    else if o.ptsValid && order.ptsValid && o.pts < order.pts then (order, OutOfOrder)
    else (Commit(o), Accepted)
  }
}
