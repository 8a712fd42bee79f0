// The daemon's durable outbox on values: records, journal entries, and replay.
module OutboxModel {
  import opened Common
  import opened EventContract

  const JOURNAL_VERSION: nat := 1
  const MAX_ALARM_SN: nat := 999999

  /** The sink states the daemon knows, plus any other text. */
  datatype SinkState = Pending | Staging | Sent | Ignored | Dead | Disabled | OtherState(text: string)

  datatype Record = Record(
    key: string, cursor: nat, event: Event,
    alarmState: SinkState, evidenceState: SinkState,
    alarmSN: nat, alarmAttempts: int, alarmLastError: string, alarmNextRetry: int,
    evidenceAttempts: int, evidenceNextRetry: int, evidenceError: string)

  datatype Op =
    | Snapshot(lastAck: nat, nextAlarmSN: nat, dropped: nat, records: seq<Record>)
    | EventOp(record: Record, nextSN: nat)
    | AckOp(cursor: nat)
    | AlarmOp(key: string, state: SinkState, attempts: int, error: string, nextRetry: int)
    | EvidenceOp(key: string, state: SinkState, attempts: int, error: string, nextRetry: int)
    | Malformed // an unknown operation, or an event entry without its event

  datatype Entry = Entry(version: nat, deviceId: string, op: Op)

  /** Limits, identity and the two encoders, which are left abstract: `b64` encodes
      one key component, `lineSize` is the length of an encoded journal line. */
  datatype Config = Config(
    deviceId: string, maxRecords: nat, maxBytes: nat,
    b64: string -> string, lineSize: Entry -> nat)

  /** The part of the store that replay rebuilds. */
  datatype Mem = Mem(records: map<string, Record>, lastAck: nat, nextAlarmSN: nat, dropped: nat)

  const EmptyMem := Mem(map[], 0, 1, 0)

  // ---------- identity ----------

  function PhaseText(p: Phase): string {
    match p
    case Start => "START"
    case Update => "UPDATE"
    case End => "END"
    case OtherPhase(t) => t
  }

  function Decimal(n: nat): (s: string)
    ensures s != [] && '|' !in s
  {
    if n < 10 then ["0123456789"[n]] else Decimal(n / 10) + ["0123456789"[n % 10]]
  }

  function Key(cfg: Config, e: Event): string {
    cfg.b64(cfg.deviceId) + "|" + cfg.b64(e.channelId) + "|" + cfg.b64(e.eventId) + "|" +
    cfg.b64(PhaseText(e.phase)) + "|" + Decimal(e.eventSeq)
  }

  // ---------- validation ----------

  predicate KnownEvidenceState(s: SinkState) { !s.OtherState? }

  predicate IsSpace(c: char) { c in " \t\n\r\U{000B}\U{000C}" }

  /** strings.TrimSpace(s) == "" */
  predicate Blank(s: string) { forall i | 0 <= i < |s| :: IsSpace(s[i]) }

  predicate ValidEvent(deviceId: string, e: Event) {
    && !Blank(deviceId) && !Blank(e.eventId) && !Blank(e.channelId)
    && e.eventSeq > 0 && KnownPhase(e.phase)
  }

  predicate ValidRecord(r: Record) {
    && r.key != "" && r.event.eventId != "" && r.event.channelId != ""
    && r.event.eventSeq > 0 && KnownPhase(r.event.phase)
    && (match r.alarmState
        case Pending => r.alarmSN != 0
        case Sent => true
        case Ignored => true
        case Dead => true
        case _ => false)
    && KnownEvidenceState(r.evidenceState)
    && r.alarmAttempts >= 0 && r.alarmNextRetry >= 0
    && r.evidenceAttempts >= 0 && r.evidenceNextRetry >= 0
  }

  predicate KeyMatches(cfg: Config, r: Record) {
    cfg.deviceId != "" ==> r.key == Key(cfg, r.event)
  }

  // ---------- replay ----------

  /** Every record sits under its own key. */
  ghost predicate SelfKeyed(records: map<string, Record>) {
    forall k | k in records :: records[k].key == k
  }

  /** One pass over a snapshot's records; a bad or repeated record rejects it. */
  function LoadRecords(cfg: Config, rs: seq<Record>, acc: map<string, Record>): (r: Option<map<string, Record>>)
    ensures r.Some? && SelfKeyed(acc) ==> SelfKeyed(r.value)
  {
    if rs == [] then Some(acc)
    else
      var r := rs[0];
      if !ValidRecord(r) || !KeyMatches(cfg, r) || r.key in acc then None
      else LoadRecords(cfg, rs[1..], acc[r.key := r])
  }

  function Put(m: Mem, k: string, r: Record): Option<Mem> {
    if ValidRecord(r) then Some(m.(records := m.records[k := r])) else None
  }

  function Apply(cfg: Config, m: Mem, e: Entry): (r: Option<Mem>)
    ensures r.Some? && SelfKeyed(m.records) ==> SelfKeyed(r.value.records)
  {
    if e.version != JOURNAL_VERSION then None
    else if e.deviceId != "" && cfg.deviceId != "" && e.deviceId != cfg.deviceId then None
    else
      match e.op
      case Snapshot(lastAck, next, dropped, rs) =>
        if next == 0 || next > MAX_ALARM_SN then None
        else (match LoadRecords(cfg, rs, map[])
              case None => None
              case Some(records) => Some(Mem(records, lastAck, next, dropped)))
      case EventOp(r, next) =>
        if r.key == "" || next == 0 || next > MAX_ALARM_SN || !ValidRecord(r) || !KeyMatches(cfg, r) then None
        else Some(m.(records := m.records[r.key := r], nextAlarmSN := next))
      case AckOp(cursor) =>
        Some(if cursor > m.lastAck then m.(lastAck := cursor) else m)
      case AlarmOp(key, state, attempts, error, retry) =>
        if key !in m.records then None
        else
          Put(m, key, m.records[key].(alarmState := state, alarmAttempts := attempts,
                                      alarmLastError := error, alarmNextRetry := retry))
      case EvidenceOp(key, state, attempts, error, retry) =>
        if key !in m.records then None
        else
          Put(m, key, m.records[key].(evidenceState := state, evidenceAttempts := attempts,
                                      evidenceError := error, evidenceNextRetry := retry))
      case Malformed => None
  }

  /** What `load` rebuilds from a sequence of complete journal lines. */
  function Replay(cfg: Config, log: seq<Entry>): (r: Option<Mem>)
    ensures r.Some? ==> SelfKeyed(r.value.records)
  {
    if log == [] then Some(EmptyMem)
    else
      match Replay(cfg, log[..|log| - 1])
      case None => None
      case Some(m) => Apply(cfg, m, log[|log| - 1])
  }

  function LogSize(cfg: Config, log: seq<Entry>): nat {
    if log == [] then 0 else LogSize(cfg, log[..|log| - 1]) + cfg.lineSize(log[|log| - 1])
  }

  lemma ReplaySnoc(cfg: Config, log: seq<Entry>, e: Entry)
    ensures Replay(cfg, log + [e]) == match Replay(cfg, log) case None => None case Some(m) => Apply(cfg, m, e)
    ensures LogSize(cfg, log + [e]) == LogSize(cfg, log) + cfg.lineSize(e)
  {
    assert (log + [e])[..|log + [e]| - 1] == log;
  }

  // ---------- the snapshot order ----------

  /** Ordering of records by cursor, then key. */
  predicate Before(a: Record, b: Record) {
    a.cursor < b.cursor || (a.cursor == b.cursor && StrLess(a.key, b.key))
  }

  lemma BeforeTotal(a: Record, b: Record)
    requires a.key != b.key
    ensures Before(a, b) || Before(b, a)
    ensures !(Before(a, b) && Before(b, a))
  {
    StrLessTotal(a.key, b.key);
    BeforeIrreflexive(a);
    if Before(a, b) && Before(b, a) { BeforeTransitive(a, b, a); }
  }

  lemma BeforeTransitive(a: Record, b: Record, c: Record)
    requires Before(a, b) && Before(b, c)
    ensures Before(a, c)
  {
    if a.cursor == b.cursor == c.cursor { StrLessTransitive(a.key, b.key, c.key); }
  }

  lemma BeforeIrreflexive(a: Record)
    ensures !Before(a, a)
  {
    StrLessIrreflexive(a.key);
  }

  /** `rs` lists exactly the records of the map, in the snapshot order. */
  ghost predicate IsSnapshotOf(rs: seq<Record>, records: map<string, Record>) {
    && (forall i, j | 0 <= i < j < |rs| :: Before(rs[i], rs[j]))
    && (forall i | 0 <= i < |rs| :: rs[i].key in records && records[rs[i].key] == rs[i])
    && (forall k | k in records :: records[k] in rs)
  }

  /** The key `k` holds the first record in the snapshot order. */
  ghost predicate IsFirst(records: map<string, Record>, k: string) {
    k in records && forall j | j in records && j != k :: Before(records[k], records[j])
  }

  lemma {:induction false} FirstExists(records: map<string, Record>)
    requires records != map[] && SelfKeyed(records)
    ensures exists k :: IsFirst(records, k)
    decreases records.Keys
  {
    var a :| a in records;
    var rest := records - {a};
    WithoutKeys(records, a);
    assert forall j | j in records && j != a :: j in rest;
    if rest == map[] {
      assert IsFirst(records, a);
    } else {
      FirstExists(rest);
      var b :| IsFirst(rest, b);
      BeforeTotal(records[a], records[b]);
      var k := if Before(records[a], records[b]) then a else b;
      forall j | j in records && j != k ensures Before(records[k], records[j]) {
        if j != a && j != b {
          assert j in rest;
          if k == a { BeforeTransitive(records[a], records[b], records[j]); }
        }
      }
      assert IsFirst(records, k);
    }
  }

  lemma FirstUnique(records: map<string, Record>, a: string, b: string)
    requires IsFirst(records, a) && IsFirst(records, b)
    ensures a == b
  {
    if a != b {
      BeforeTransitive(records[a], records[b], records[a]);
      BeforeIrreflexive(records[a]);
    }
  }

  /** The first key of a nonempty record map. */
  ghost function First(records: map<string, Record>): (k: string)
    requires records != map[] && SelfKeyed(records)
    ensures IsFirst(records, k)
  {
    FirstExists(records);
    var k :| IsFirst(records, k);
    k
  }

  /** The record list a compaction writes. */
  ghost function SnapshotSeq(records: map<string, Record>): seq<Record>
    requires SelfKeyed(records)
    decreases records.Keys
  {
    if records == map[] then []
    else var k := First(records); WithoutKeys(records, k); [records[k]] + SnapshotSeq(records - {k})
  }

  lemma {:induction false} SnapshotSeqIs(records: map<string, Record>)
    requires SelfKeyed(records)
    ensures IsSnapshotOf(SnapshotSeq(records), records)
    decreases records.Keys
  {
    if records != map[] {
      var k := First(records);
      var rest := records - {k};
      WithoutKeys(records, k);
      SnapshotSeqIs(rest);
      var rs := SnapshotSeq(records);
      assert rs == [records[k]] + SnapshotSeq(rest);
      assert rs[1..] == SnapshotSeq(rest);
      forall i, j | 0 <= i < j < |rs| ensures Before(rs[i], rs[j]) {
        if i == 0 {
          assert rs[j] == rs[1..][j - 1];
          assert rs[j].key in rest;
        } else {
          assert rs[i] == rs[1..][i - 1] && rs[j] == rs[1..][j - 1];
        }
      }
      forall i | 0 <= i < |rs| ensures rs[i].key in records && records[rs[i].key] == rs[i] {
        if i > 0 { assert rs[i] == rs[1..][i - 1]; }
      }
      forall j | j in records ensures records[j] in rs {
        if j != k { assert j in rest; assert rest[j] in rs[1..]; }
      }
    }
  }

  lemma SnapshotHead(rs: seq<Record>, records: map<string, Record>)
    requires SelfKeyed(records) && IsSnapshotOf(rs, records) && records != map[]
    ensures rs != [] && IsFirst(records, rs[0].key)
  {
    var any :| any in records;
    assert records[any] in rs;
    var k := rs[0].key;
    forall j | j in records && j != k ensures Before(records[k], records[j]) {
      assert records[j] in rs;
      var n :| 0 <= n < |rs| && rs[n] == records[j];
      assert n != 0;
    }
  }

  lemma SnapshotTail(rs: seq<Record>, records: map<string, Record>)
    requires SelfKeyed(records) && IsSnapshotOf(rs, records) && rs != []
    ensures IsSnapshotOf(rs[1..], records - {rs[0].key})
  {
    var rest := records - {rs[0].key};
    var tail := rs[1..];
    forall i | 0 <= i < |tail| ensures tail[i].key in rest && rest[tail[i].key] == tail[i] {
      assert tail[i] == rs[i + 1] && Before(rs[0], rs[i + 1]);
      if tail[i].key == rs[0].key {
        assert rs[i + 1] == rs[0];
        BeforeIrreflexive(rs[0]);
      }
    }
    forall j | j in rest ensures rest[j] in tail {
      assert records[j] in rs && records[j] != rs[0];
    }
  }

  /** Sorting has one answer, so any correct sort gives the same snapshot. */
  lemma {:induction false} SnapshotUnique(rs: seq<Record>, records: map<string, Record>)
    requires SelfKeyed(records) && IsSnapshotOf(rs, records)
    ensures rs == SnapshotSeq(records)
    decreases records.Keys
  {
    if records == map[] {
      SnapshotOfEmpty(rs, records);
    } else {
      var k := First(records);
      assert rs != [] && rs[0] == records[k] by {
        SnapshotHead(rs, records);
        FirstUnique(records, rs[0].key, k);
      }
      assert SnapshotSeq(records - {k}) == rs[1..] by {
        SnapshotTail(rs, records);
        WithoutKeys(records, k);
        SnapshotUnique(rs[1..], records - {k});
      }
      assert rs == [rs[0]] + rs[1..];
    }
  }

  /** The sorted list of the records is the one a compaction writes, and no other. */
  lemma SnapshotExactly(rs: seq<Record>, records: map<string, Record>)
    requires SelfKeyed(records)
    ensures IsSnapshotOf(rs, records) <==> rs == SnapshotSeq(records)
  {
    SnapshotSeqIs(records);
    if IsSnapshotOf(rs, records) { SnapshotUnique(rs, records); }
  }

  lemma SnapshotOfEmpty(rs: seq<Record>, records: map<string, Record>)
    requires IsSnapshotOf(rs, records)
    ensures rs != [] ==> records != map[]
  {
    if rs != [] { assert rs[0].key in records; }
  }
}
