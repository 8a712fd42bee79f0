// The outbox store: fields updated in place, loops over the record map, and a file
// of journal lines. Every method is proved equal to its function in OutboxSpec.dfy.
module OutboxStore {
  import opened Common
  import opened EventContract
  import opened OutboxModel
  import opened OutboxSpec
  import opened OutboxProofs
  import opened OutboxCalls

  /** The records of the map in snapshot order. */
  method SortRecords(records: map<string, Record>) returns (rs: seq<Record>)
    requires SelfKeyed(records)
    ensures IsSnapshotOf(rs, records) && rs == SnapshotSeq(records)
  {
    rs := [];
    var todo, done := records.Keys, {};
    while todo != {}
      invariant todo + done == records.Keys && todo !! done
      invariant IsSnapshotOf(rs, map k | k in records && k in done :: records[k])
    {
      var k :| k in todo;
      ghost var before := map k | k in records && k in done :: records[k];
      rs := InsertRecord(rs, records[k], before);
      todo, done := todo - {k}, done + {k};
      assert (map k | k in records && k in done :: records[k]) == before[k := records[k]];
    }
    assert (map k | k in records && k in done :: records[k]) == records;
    SnapshotExactly(rs, records);
  }

  method InsertRecord(rs: seq<Record>, r: Record, ghost before: map<string, Record>) returns (out: seq<Record>)
    requires IsSnapshotOf(rs, before) && r.key !in before
    ensures IsSnapshotOf(out, before[r.key := r])
  {
    var i := 0;
    while i < |rs| && Before(rs[i], r)
      invariant 0 <= i <= |rs|
      invariant forall j | 0 <= j < i :: Before(rs[j], r)
    {
      i := i + 1;
    }
    if i < |rs| { BeforeTotal(rs[i], r); }
    forall j | i < j < |rs| ensures Before(r, rs[j]) { BeforeTransitive(r, rs[i], rs[j]); }
    out := rs[..i] + [r] + rs[i..];
    PutAtIs(rs, r, i);
    InsertedSorted(rs, r, i, out, before);
  }

  /** `out` is `rs` with `r` put in at `i`. */
  ghost predicate PutAt(rs: seq<Record>, r: Record, i: nat, out: seq<Record>) {
    && i <= |rs| && |out| == |rs| + 1 && out[i] == r
    && (forall n | 0 <= n < i :: out[n] == rs[n]) && (forall n | i < n < |out| :: out[n] == rs[n - 1])
  }

  lemma PutAtIs(rs: seq<Record>, r: Record, i: nat)
    requires i <= |rs|
    ensures PutAt(rs, r, i, rs[..i] + [r] + rs[i..])
  {
  }

  lemma InsertedSorted(rs: seq<Record>, r: Record, i: nat, out: seq<Record>, before: map<string, Record>)
    requires PutAt(rs, r, i, out) && IsSnapshotOf(rs, before) && r.key !in before
    requires forall j | 0 <= j < i :: Before(rs[j], r)
    requires forall j | i <= j < |rs| :: Before(r, rs[j])
    ensures IsSnapshotOf(out, before[r.key := r])
  {
    hide Before;
    InsertedOrder(rs, r, i, out);
    InsertedMembers(rs, r, i, out, before);
    hide PutAt;
  }

  lemma InsertedOrder(rs: seq<Record>, r: Record, i: nat, out: seq<Record>)
    requires PutAt(rs, r, i, out) && forall j, k | 0 <= j < k < |rs| :: Before(rs[j], rs[k])
    requires forall j | 0 <= j < i :: Before(rs[j], r)
    requires forall j | i <= j < |rs| :: Before(r, rs[j])
    ensures forall j, k | 0 <= j < k < |out| :: Before(out[j], out[k])
  {
    hide Before;
  }

  lemma InsertedMembers(rs: seq<Record>, r: Record, i: nat, out: seq<Record>, before: map<string, Record>)
    requires PutAt(rs, r, i, out) && r.key !in before
    requires forall n | 0 <= n < |rs| :: rs[n].key in before && before[rs[n].key] == rs[n]
    requires forall k | k in before :: before[k] in rs
    ensures forall n | 0 <= n < |out| :: out[n].key in before[r.key := r] && before[r.key := r][out[n].key] == out[n]
    ensures r in out && forall k | k in before :: before[k] in out
  {
    forall n | 0 <= n < |out| ensures out[n].key in before[r.key := r] && before[r.key := r][out[n].key] == out[n] {
      if n > i { assert out[n] == rs[n - 1]; }
    }
    forall k | k in before ensures before[k] in out {
      var n :| 0 <= n < |rs| && rs[n] == before[k];
      assert out[if n < i then n else n + 1] == rs[n];
    }
  }

  /** The first evictable record in snapshot order, if any. */
  method FindOldestTerminal(records: map<string, Record>) returns (found: Option<string>)
    requires SelfKeyed(records)
    ensures found == OldestTerminal(records)
  {
    found := None;
    var todo, done := records.Keys, {};
    while todo != {}
      invariant todo + done == records.Keys && todo !! done
      invariant found.None? ==> forall k | k in done :: !Evictable(records[k])
      invariant found.Some? ==> found.value in done && Evictable(records[found.value])
      invariant found.Some? ==> forall k | k in done && k != found.value && Evictable(records[k]) ::
                                  Before(records[found.value], records[k])
    {
      var k :| k in todo;
      todo, done := todo - {k}, done + {k};
      if Evictable(records[k]) {
        if found.None? {
          found := Some(k);
        } else {
          BeforeTotal(records[k], records[found.value]);
          if Before(records[k], records[found.value]) {
            forall j | j in done && j != k && Evictable(records[j]) ensures Before(records[k], records[j]) {
              if j != found.value { BeforeTransitive(records[k], records[found.value], records[j]); }
            }
            found := Some(k);
          }
        }
      }
    }
    var t := Terminals(records);
    if found.Some? {
      assert IsFirst(t, found.value);
      FirstUnique(t, found.value, First(t));
    }
  }

  lemma {:induction false} ReplayFails(cfg: Config, log: seq<Entry>, n: nat)
    requires n <= |log| && Replay(cfg, log[..n]).None?
    ensures Replay(cfg, log).None?
  {
    if n == |log| {
      assert log[..n] == log;
    } else {
      assert log[..|log| - 1][..n] == log[..n];
      ReplayFails(cfg, log[..|log| - 1], n);
    }
  }

  lemma LoadFails(cfg: Config, file: File, n: nat, faults: seq<bool>)
    requires n <= |file.log| && (Sealed(file) || n <= file.seam.value) && Replay(cfg, file.log[..n]).None?
    ensures LoadStore(cfg, file, faults).None?
  {
    if Found(file).Some? {
      var log := Found(file).value.log;
      assert log[..n] == file.log[..n];
      ReplayFails(cfg, log, n);
    }
  }

  lemma {:induction false} ChoiceExists(records: map<string, Record>, e: Event)
    ensures exists c :: IsCoalesceChoice(records, e, c)
    decreases records.Keys
  {
    if k :| k in records && IsCoalesceCandidate(records, e, k) {
      var rest := records - {k};
      ChoiceExists(rest, e);
      var c :| IsCoalesceChoice(rest, e, c);
      assert forall j | j in records && j != k ::
               IsCoalesceCandidate(records, e, j) <==> IsCoalesceCandidate(rest, e, j);
      var better := if c.Some? && records[k].cursor < records[c.value].cursor then c else Some(k);
      assert IsCoalesceChoice(records, e, better);
    } else {
      assert IsCoalesceChoice(records, e, None);
    }
  }

  class Store {
    const cfg: Config
    var file: File
    ghost var written: seq<File> // the files put in place so far
    var faults: seq<bool>        // what the file system answers to the compactions to come
    var isOpen: bool
    var records: map<string, Record>
    var lastAck: nat
    var nextAlarmSN: nat
    var dropped: nat

    ghost function Now(): World
      reads this
    {
      World(Mem(records, lastAck, nextAlarmSN, dropped), file, isOpen, written, faults)
    }

    ghost predicate Valid()
      reads this
    {
      SelfKeyed(records)
    }

    constructor (cfg: Config, m: Mem, file: File, faults: seq<bool>)
      ensures this.cfg == cfg && Now() == World(m, file, true, [], faults)
    {
      this.cfg, this.file, isOpen, written, this.faults := cfg, file, true, [], faults;
      records, lastAck, nextAlarmSN, dropped := m.records, m.lastAck, m.nextAlarmSN, m.dropped;
    }

    /** Load the lines of a file, one at a time, and compact it if it is over the limit. A
        line that holds two entries does not decode: the last one is cut off, any other
        ends the load. */
    static method Open(cfg: Config, file: File, faults: seq<bool>) returns (store: Store?)
      ensures store == null <==> Reopen(cfg, file, faults).None?
      ensures store != null ==> fresh(store) && store.cfg == cfg && store.Valid()
      ensures store != null ==> Reopen(cfg, file, faults) == Some(store.Now())
    {
      var lines, m, i := file.log, EmptyMem, 0;
      while i < |lines| && (Sealed(file) || i < file.seam.value)
        invariant 0 <= i <= |lines| && (Sealed(file) || i <= file.seam.value)
        invariant Replay(cfg, lines[..i]) == Some(m)
      {
        var r := Apply(cfg, m, lines[i]);
        ReplaySnoc(cfg, lines[..i], lines[i]);
        assert lines[..i] + [lines[i]] == lines[..i + 1];
        if r.None? {
          LoadFails(cfg, file, i + 1, faults);
          return null;
        }
        m := r.value;
        i := i + 1;
      }
      if i + 2 < |lines| { return null; }
      assert lines[..|lines|] == lines;
      var found := if i < |lines| then File(lines[..i], None) else file;
      store := new Store(cfg, m, found, faults);
      if FileSize(cfg, found) > cfg.maxBytes {
        var st := store.CompactLocked();
        if st != Ok { store := null; }
      }
    }

    method CompactLocked() returns (st: Status)
      requires Valid()
      modifies this`file, this`written, this`faults
      ensures (Now(), st) == Compact(cfg, old(Now()))
    {
      if !isOpen { return ErrClosed; }
      var rs := SortRecords(records);
      var entry := Entry(JOURNAL_VERSION, cfg.deviceId, Snapshot(lastAck, nextAlarmSN, dropped, rs));
      if cfg.lineSize(entry) > cfg.maxBytes { return ErrCapacity; }
      var fails := NextFails(faults);
      faults := Later(faults);
      if fails { return ErrStorage; }
      file := File([entry], None);
      written := written + [file];
      st := Ok;
    }

    method AppendLocked(e: Entry) returns (st: Status)
      requires Valid()
      modifies this`file, this`written, this`faults
      ensures (Now(), st) == Append(cfg, old(Now()), e)
    {
      if !isOpen { return ErrClosed; }
      if FileSize(cfg, file) + cfg.lineSize(e) > cfg.maxBytes {
        st := CompactLocked();
        if st != Ok { return; }
        if FileSize(cfg, file) + cfg.lineSize(e) > cfg.maxBytes { return ErrCapacity; }
      }
      file := Extended(file, e);
      written := written + [file];
      st := Ok;
    }

    /** Evict in memory until a record fits; on failure memory may be trimmed. */
    method EvictLocked() returns (ok: bool)
      requires Valid()
      modifies this`records
      ensures Valid()
      ensures EvictDown(old(records), cfg.maxRecords) == if ok then Some(records) else None
    {
      while |records| >= cfg.maxRecords
        invariant Valid()
        invariant EvictDown(records, cfg.maxRecords) == EvictDown(old(records), cfg.maxRecords)
        decreases records.Keys
      {
        var k := FindOldestTerminal(records);
        if k.None? { return false; }
        WithoutKeys(records, k.value);
        records := records - {k.value};
      }
      ok := true;
    }

    method MakeRoomForBoundaryLocked() returns (st: Status)
      requires Valid()
      modifies this`records, this`file, this`written, this`faults
      ensures Valid() && (Now(), st) == MakeRoomForBoundary(cfg, old(Now()))
    {
      var backup := records;
      var ok := EvictLocked();
      if !ok {
        records := backup;
        return ErrCapacity;
      }
      st := CompactLocked();
      if st != Ok { records := backup; }
    }

    method FindCoalesceCandidate(e: Event) returns (choice: Option<string>)
      ensures IsCoalesceChoice(records, e, choice)
    {
      choice := None;
      var todo, done := records.Keys, {};
      while todo != {}
        invariant todo + done == records.Keys && todo !! done
        invariant choice.None? ==> forall k | k in done :: !IsCoalesceCandidate(records, e, k)
        invariant choice.Some? ==> choice.value in done && IsCoalesceCandidate(records, e, choice.value)
        invariant choice.Some? ==> forall k | k in done && IsCoalesceCandidate(records, e, k) ::
                                     records[k].cursor <= records[choice.value].cursor
      {
        var k :| k in todo;
        todo, done := todo - {k}, done + {k};
        var r := records[k];
        if r.event.channelId == e.channelId && r.event.eventId == e.eventId && r.event.phase.Update?
           && !r.alarmState.Pending? && !r.evidenceState.Pending? {
          if choice.None? || r.cursor > records[choice.value].cursor { choice := Some(k); }
        }
      }
    }

    /** `choice` is the candidate the loop picked, for the contract only. */
    method CoalesceUpdateLocked(e: Event) returns (st: Status, ghost choice: Option<string>)
      requires Valid()
      modifies this`records, this`file, this`written, this`faults, this`dropped
      ensures Valid() && IsCoalesceChoice(old(records), e, choice)
      ensures (Now(), st) == Coalesce(cfg, old(Now()), choice)
    {
      var candidate := FindCoalesceCandidate(e);
      choice := candidate;
      if candidate.None? {
        dropped := dropped + 1;
        return ErrUpdateDropped, choice;
      }
      var backup := records;
      records := records - {candidate.value};
      st := CompactLocked();
      if st != Ok { records := backup; }
    }

    method AppendBoundaryAfterBytePressureLocked(e: Entry) returns (st: Status)
      requires Valid()
      modifies this`records, this`file, this`written, this`faults
      ensures Valid() && (Now(), st) == AppendBoundary(cfg, old(Now()), e)
    {
      ghost var goal := AppendBoundary(cfg, Now(), e);
      while true
        invariant Valid() && AppendBoundary(cfg, Now(), e) == goal
        decreases records.Keys
      {
        var k := FindOldestTerminal(records);
        if k.None? { return ErrCapacity; }
        WithoutKeys(records, k.value);
        records := records - {k.value};
        st := CompactLocked();
        if st != Ok { return; }
        st := AppendLocked(e);
        if st != ErrCapacity { return; }
      }
    }

    method AllocateAlarmSNLocked() returns (sn: nat)
      modifies this`nextAlarmSN
      ensures (sn, nextAlarmSN) == AllocateAlarmSN(old(nextAlarmSN))
    {
      if nextAlarmSN == 0 || nextAlarmSN > MAX_ALARM_SN { nextAlarmSN := 1; }
      sn := nextAlarmSN;
      nextAlarmSN := nextAlarmSN + 1;
      if nextAlarmSN > MAX_ALARM_SN { nextAlarmSN := 1; }
    }

    /** The part of an enqueue after room has been made: allocate, append, show. */
    method InsertLocked(e: Event, cursor: nat, alarmEnabled: bool, evidenceEnabled: bool)
      returns (res: EnqueueResult)
      requires Valid()
      modifies this
      ensures Valid() && (Now(), res) == Insert(cfg, old(Now()), e, cursor, alarmEnabled, evidenceEnabled)
    {
      var sn := None;
      if alarmEnabled {
        var n := AllocateAlarmSNLocked();
        sn := Some(n);
      }
      var record := NewRecord(cfg, e, cursor, sn, evidenceEnabled);
      var entry := Entry(JOURNAL_VERSION, cfg.deviceId, EventOp(record, nextAlarmSN));
      assert (Now(), entry) == Prepare(cfg, old(Now()), e, cursor, alarmEnabled, evidenceEnabled);
      var st := AppendLocked(entry);
      if st == ErrCapacity && !e.phase.Update? {
        st := AppendBoundaryAfterBytePressureLocked(entry);
      }
      if st != Ok {
        if e.phase.Update? && st == ErrCapacity {
          dropped := dropped + 1;
          return Refused(ErrUpdateDropped);
        }
        return Refused(st);
      }
      records := records[record.key := record];
      res := Added(record);
    }

    /** `choice` is the coalescing candidate, for the contract only. */
    method EnqueueWithEvidence(e: Event, cursor: nat, alarmEnabled: bool, evidenceEnabled: bool)
      returns (res: EnqueueResult, ghost choice: Option<string>)
      requires Valid()
      modifies this
      ensures Valid() && IsCoalesceChoice(old(records), e, choice)
      ensures (Now(), res) == Enqueue(cfg, old(Now()), e, cursor, alarmEnabled, evidenceEnabled, choice)
    {
      ChoiceExists(records, e);
      choice :| IsCoalesceChoice(records, e, choice);
      if !isOpen { return Refused(ErrClosed), choice; }
      if !ValidEvent(cfg.deviceId, e) { return Refused(ErrInvalidEvent), choice; }
      var key := Key(cfg, e);
      if key in records { return Existing(records[key]), choice; }
      if |records| >= cfg.maxRecords {
        var st;
        if e.phase.Update? { st, choice := CoalesceUpdateLocked(e); } else { st := MakeRoomForBoundaryLocked(); }
        if st != Ok { return Refused(st), choice; }
      }
      res := InsertLocked(e, cursor, alarmEnabled, evidenceEnabled);
    }

    method Acknowledge(cursor: nat) returns (st: Status)
      requires Valid()
      modifies this
      ensures Valid() && (Now(), st) == Ack(cfg, old(Now()), cursor)
    {
      if !isOpen { return ErrClosed; }
      if cursor <= lastAck { return Ok; }
      st := AppendLocked(Entry(JOURNAL_VERSION, "", AckOp(cursor)));
      if st == Ok { lastAck := cursor; }
    }

    method MarkAlarmSent(key: string) returns (st: Status)
      requires Valid()
      modifies this
      ensures Valid() && (Now(), st) == MarkCall(cfg, old(Now()), CallAlarmSent(key))
    {
      if key !in records { return ErrUnknownKey; }
      var record := records[key].(alarmState := Sent, alarmLastError := "", alarmNextRetry := 0);
      st := AppendLocked(Entry(JOURNAL_VERSION, "", AlarmOp(key, record.alarmState, record.alarmAttempts, "", 0)));
      if st == Ok { records := records[key := record]; }
    }

    method MarkAlarmAttempt(key: string, cause: Option<string>, terminal: bool, retryAt: Option<int>)
      returns (st: Status)
      requires Valid()
      modifies this
      ensures Valid() && (Now(), st) == MarkCall(cfg, old(Now()), CallAlarmAttempt(key, cause, terminal, retryAt))
    {
      if key !in records { return ErrUnknownKey; }
      var record := records[key];
      record := record.(alarmAttempts := record.alarmAttempts + 1, alarmLastError := TrimError(cause),
                        alarmNextRetry := 0);
      if terminal {
        record := record.(alarmState := Dead);
      } else {
        record := record.(alarmState := SinkState.Pending);
        if retryAt.Some? { record := record.(alarmNextRetry := retryAt.value); }
      }
      st := AppendLocked(Entry(JOURNAL_VERSION, "", AlarmMark(record)));
      if st == Ok { records := records[key := record]; }
    }

    method MarkEvidenceSent(key: string) returns (st: Status)
      requires Valid()
      modifies this
      ensures Valid() && (Now(), st) == MarkCall(cfg, old(Now()), CallEvidenceSent(key))
    {
      if key !in records { return ErrUnknownKey; }
      var record := records[key].(evidenceState := Sent, evidenceError := "", evidenceNextRetry := 0);
      var op := EvidenceOp(key, record.evidenceState, record.evidenceAttempts, "", 0);
      st := AppendLocked(Entry(JOURNAL_VERSION, "", op));
      if st == Ok { records := records[key := record]; }
    }

    method MarkEvidenceAttempt(key: string, cause: Option<string>, terminal: bool, retryAt: Option<int>)
      returns (st: Status)
      requires Valid()
      modifies this
      ensures Valid() && (Now(), st) == MarkCall(cfg, old(Now()), CallEvidenceAttempt(key, cause, terminal, retryAt))
    {
      if key !in records { return ErrUnknownKey; }
      var record := records[key];
      record := record.(evidenceAttempts := record.evidenceAttempts + 1, evidenceError := TrimError(cause),
                        evidenceNextRetry := 0);
      if terminal {
        record := record.(evidenceState := Dead);
      } else {
        record := record.(evidenceState := SinkState.Pending);
        if retryAt.Some? { record := record.(evidenceNextRetry := retryAt.value); }
      }
      st := AppendLocked(Entry(JOURNAL_VERSION, "", EvidenceMark(record)));
      if st == Ok { records := records[key := record]; }
    }

    method MarkEvidenceStagingFailure(key: string, cause: Option<string>, terminal: bool) returns (st: Status)
      requires Valid()
      modifies this
      ensures Valid() && (Now(), st) == MarkCall(cfg, old(Now()), CallStagingFailure(key, cause, terminal))
    {
      if key !in records { return ErrUnknownKey; }
      var record := records[key];
      record := record.(evidenceAttempts := record.evidenceAttempts + 1, evidenceError := TrimError(cause),
                        evidenceNextRetry := 0, evidenceState := if terminal then Dead else Staging);
      st := AppendLocked(Entry(JOURNAL_VERSION, "", EvidenceMark(record)));
      if st == Ok { records := records[key := record]; }
    }

    method MarkEvidenceState(key: string, state: SinkState, cause: Option<string>) returns (st: Status)
      requires Valid()
      modifies this
      ensures Valid() && (Now(), st) == MarkCall(cfg, old(Now()), CallEvidenceState(key, state, cause))
    {
      if state == OtherState("") { return ErrStateRequired; }
      if key !in records { return ErrUnknownKey; }
      var record := records[key].(evidenceState := state, evidenceError := TrimError(cause));
      st := AppendLocked(Entry(JOURNAL_VERSION, "", EvidenceMark(record)));
      if st == Ok { records := records[key := record]; }
    }

    /** Every record whose alarm waits, oldest first. */
    method PendingAlarms() returns (rs: seq<Record>)
      requires Valid()
      ensures IsSnapshotOf(rs, map k | k in records && records[k].alarmState.Pending? :: records[k])
    {
      rs := SortRecords(map k | k in records && records[k].alarmState.Pending? :: records[k]);
    }
  }
}
