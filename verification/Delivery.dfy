// Sending pending alarms: the bounded, jittered backoff, and how often one alarm is sent
// before it is sent or dead, across failures, failed marks and restarts.
module Delivery {
  import opened Common
  import opened EventContract
  import opened OutboxModel
  import opened OutboxSpec
  import opened OutboxProofs
  import opened OutboxCalls
  import opened OutboxCrash
  import opened OutboxRuns
  import OutboxStore

  const I64_MAX: nat := 0x7FFF_FFFF_FFFF_FFFF
  const SECOND: nat := 1_000_000_000

  // ---------- backoff ----------

  function Pow2(n: nat): nat { if n == 0 then 1 else 2 * Pow2(n - 1) }

  function Min(a: nat, b: nat): nat { if a < b then a else b }

  function BaseOf(base: int): nat { if base <= 0 then SECOND else base }

  function MaxOf(base: int, maximum: int): nat {
    var m := if maximum <= 0 then 300 * SECOND else maximum;
    if m < BaseOf(base) then BaseOf(base) else m
  }

  /** The delay before jitter: doubling from the base, held at the maximum. */
  function CappedDelay(base: int, maximum: int, attempt: int): nat {
    Min(BaseOf(base) * Pow2(if attempt < 1 then 0 else attempt - 1), MaxOf(base, maximum))
  }

  ghost function Doubled(base: nat, n: nat): nat { if n == 0 then base else 2 * Doubled(base, n - 1) }

  lemma {:induction false} DoubledIs(base: nat, n: nat)
    ensures Doubled(base, n) == base * Pow2(n)
  {
    if n > 0 {
      DoubledIs(base, n - 1);
      assert base * (2 * Pow2(n - 1)) == 2 * (base * Pow2(n - 1));
    }
  }

  lemma {:induction false} DoubledGrows(base: nat, m: nat, n: nat)
    requires m <= n
    ensures Doubled(base, m) <= Doubled(base, n)
  {
    if m < n { DoubledGrows(base, m, n - 1); }
  }

  /** Doubles without ever leaving the 64-bit range: each intermediate value is at most
      the maximum. */
  method Delay(base: int, maximum: int, attempt: int) returns (delay: nat)
    requires base <= I64_MAX && maximum <= I64_MAX
    ensures delay == CappedDelay(base, maximum, attempt) <= I64_MAX
  {
    var b := if base <= 0 then SECOND else base;
    var m := if maximum <= 0 then 300 * SECOND else maximum;
    if m < b { m := b; }
    var n := if attempt < 1 then 1 else attempt;
    DoubledIs(b, n - 1);
    hide Pow2;
    delay := b;
    var i := 1;
    while i < n && delay < m
      invariant 1 <= i <= n && 0 < delay <= m
      invariant delay == Min(Doubled(b, i - 1), m)
    {
      if delay > m / 2 {
        delay := m;
        DoubledGrows(b, i, n - 1);
        return;
      }
      assert delay * 2 <= m <= I64_MAX;
      delay := delay * 2;
      i := i + 1;
    }
    DoubledGrows(b, i - 1, n - 1);
  }

  /** `jitter` is the random value drawn, or None when the random source fails. */
  method BoundedBackoff(base: int, maximum: int, attempt: int, jitter: Option<nat>) returns (delay: nat)
    requires base <= I64_MAX && maximum <= I64_MAX
    requires jitter.Some? ==> jitter.value <= CappedDelay(base, maximum, attempt) / 2
    ensures CappedDelay(base, maximum, attempt) / 2 <= delay <= CappedDelay(base, maximum, attempt)
  {
    delay := Delay(base, maximum, attempt);
    var half := delay / 2;
    if half <= 0 || jitter.None? { return; }
    delay := half + jitter.value;
  }

  /** Later attempts wait at least as long, and never longer than the maximum. */
  lemma DelayGrows(base: int, maximum: int, attempt: int)
    ensures CappedDelay(base, maximum, attempt) <= CappedDelay(base, maximum, attempt + 1) <= MaxOf(base, maximum)
  {
    if attempt >= 1 {
      DoubledIs(BaseOf(base), attempt - 1);
      DoubledIs(BaseOf(base), attempt);
      DoubledGrows(BaseOf(base), attempt - 1, attempt);
    }
  }

  // ---------- one delivery ----------

  /** What happens around one send: the transport's answer, the retry time drawn, and
      whether the process dies before it marks the result. */
  datatype Outcome = Outcome(accepted: bool, cause: string, retryAt: int, dies: bool)

  /** Neither serial nor channel: the alarm cannot be addressed. */
  predicate Unaddressed(r: Record) { r.alarmSN == 0 || Blank(r.event.channelId) }

  function LastAttempt(r: Record, maxAttempts: nat): bool { r.alarmAttempts + 1 >= maxAttempts }

  /** The mark that follows a send, or replaces it for an alarm that cannot be addressed. */
  function MarkFor(r: Record, maxAttempts: nat, o: Outcome): Call {
    if Unaddressed(r) then CallAlarmAttempt(r.key, Some("alarm record is missing SN or channel_id"), true, None)
    else if o.accepted then CallAlarmSent(r.key)
    else if LastAttempt(r, maxAttempts) then CallAlarmAttempt(r.key, Some(o.cause), true, None)
    else CallAlarmAttempt(r.key, Some(o.cause), false, Some(o.retryAt))
  }

  /** The world afterwards, whether a message went out, and whether it was marked. */
  ghost function Deliver(cfg: Config, w: World, k: string, maxAttempts: nat, o: Outcome): (r: (World, bool, bool))
    requires SelfKeyed(w.mem.records) && k in w.mem.records
    ensures SelfKeyed(r.0.mem.records)
  {
    var rec := w.mem.records[k];
    if o.dies then (w, !Unaddressed(rec), false)
    else
      var (w1, st) := MarkCall(cfg, w, MarkFor(rec, maxAttempts, o));
      (w1, !Unaddressed(rec), st == Ok)
  }

  /** `a` is `b` but for what the evidence loop keeps in it. */
  predicate SameButEvidence(a: Record, b: Record) {
    a == b.(evidenceState := a.evidenceState, evidenceAttempts := a.evidenceAttempts,
            evidenceNextRetry := a.evidenceNextRetry, evidenceError := a.evidenceError)
  }

  /** The loop body that performs it on the store, for a copy of the record taken before the
      evidence loop may have marked it; `sent` says that a message went out. */
  method DeliverOne(store: OutboxStore.Store, record: Record, maxAttempts: nat, o: Outcome) returns (sent: bool)
    requires store.Valid() && record.key in store.records && !o.dies
    requires SameButEvidence(record, store.records[record.key])
    modifies store
    ensures store.Valid() && store.Now() == Deliver(store.cfg, old(store.Now()), record.key, maxAttempts, o).0
    ensures sent == Deliver(store.cfg, old(store.Now()), record.key, maxAttempts, o).1
  {
    if record.alarmSN == 0 || Blank(record.event.channelId) {
      var st := store.MarkAlarmAttempt(record.key, Some("alarm record is missing SN or channel_id"), true, None);
      return false;
    }
    sent := true;
    if o.accepted {
      var st := store.MarkAlarmSent(record.key);
      return;
    }
    var attempt := record.alarmAttempts + 1;
    var terminal := attempt >= maxAttempts;
    var st := store.MarkAlarmAttempt(record.key, Some(o.cause), terminal, if terminal then None else Some(o.retryAt));
  }

  // ---------- how often an alarm is sent ----------

  /** The outbox, and for one alarm the messages sent and the sends left unmarked. */
  datatype State = State(w: World, sends: nat, unmarked: nat)

  datatype Step = Other(call: Call) | Attempt(o: Outcome)

  /** Another call, or a crash in one: it does not mark this alarm, and it does not store
      its event anew once the record is gone. A redelivered event whose record is still
      there is such a call. */
  predicate Elsewhere(cfg: Config, records: map<string, Record>, c: Call, k: string) {
    var d := if c.CallCrash? then c.during else c;
    && (d.CallAlarmSent? || d.CallAlarmAttempt? ==> d.key != k)
    && (d.CallEnqueue? && k !in records ==> Key(cfg, d.event) != k)
  }

  ghost predicate StepOk(cfg: Config, s: State, k: string, step: Step) {
    match step
    case Other(c) =>
      var records := s.w.mem.records;
      SelfKeyed(records) && CareTaken(cfg, s.w, c) && Elsewhere(cfg, records, c, k)
    case Attempt(o) => o.retryAt >= 0
  }

  ghost function Next(cfg: Config, s: State, k: string, maxAttempts: nat, step: Step): (r: State)
    requires SelfKeyed(s.w.mem.records)
    ensures SelfKeyed(r.w.mem.records)
  {
    match step
    case Other(c) => s.(w := OutboxSpec.Step(cfg, s.w, c).0)
    case Attempt(o) =>
      if k !in s.w.mem.records || !s.w.mem.records[k].alarmState.Pending? then s
      else
        var (w1, sent, marked) := Deliver(cfg, s.w, k, maxAttempts, o);
        State(w1, if sent then s.sends + 1 else s.sends, if sent && !marked then s.unmarked + 1 else s.unmarked)
  }

  ghost function Run(cfg: Config, s: State, k: string, maxAttempts: nat, steps: seq<Step>): (r: State)
    requires SelfKeyed(s.w.mem.records)
    ensures SelfKeyed(r.w.mem.records)
  {
    if steps == [] then s
    else Next(cfg, Run(cfg, s, k, maxAttempts, steps[..|steps| - 1]), k, maxAttempts, steps[|steps| - 1])
  }

  ghost predicate RunOk(cfg: Config, s: State, k: string, maxAttempts: nat, steps: seq<Step>)
    requires SelfKeyed(s.w.mem.records)
  {
    steps == [] ||
    (var front := steps[..|steps| - 1];
     RunOk(cfg, s, k, maxAttempts, front) && StepOk(cfg, Run(cfg, s, k, maxAttempts, front), k, steps[|steps| - 1]))
  }

  /** Sends that an alarm still has, at least one. */
  function Left(attempts: int, maxAttempts: nat): int {
    if maxAttempts - attempts > 1 then maxAttempts - attempts else 1
  }

  /** Within the budget; a pending alarm keeps what it has left. */
  ghost predicate Within(cfg: Config, s: State, k: string, maxAttempts: nat, budget: int) {
    && Logged(cfg, s.w)
    && s.sends <= budget + s.unmarked
    && (k in s.w.mem.records && s.w.mem.records[k].alarmState.Pending? ==>
          s.sends + Left(s.w.mem.records[k].alarmAttempts, maxAttempts) <= budget + s.unmarked)
  }

  predicate SameAlarm(a: Record, b: Record) {
    a.alarmState == b.alarmState && a.alarmAttempts == b.alarmAttempts && a.alarmSN == b.alarmSN
  }

  ghost predicate AlarmKept(w: World, w1: World, k: string) {
    k in w1.mem.records && w1.mem.records[k].alarmState.Pending? ==>
      k in w.mem.records && SameAlarm(w1.mem.records[k], w.mem.records[k])
  }

  lemma GrowsAlarm(cfg: Config, w: World, w1: World, e: Event, k: string)
    requires Grows(cfg, w, w1, e) && Key(cfg, e) != k
    ensures AlarmKept(w, w1, k)
  {
    hide Key, KeepsGuarded;
  }

  lemma EnqueueOther(cfg: Config, w: World, c: Call, k: string)
    requires Logged(cfg, w) && c.CallEnqueue? && ChoiceOk(w.mem.records, c) && Elsewhere(cfg, w.mem.records, c, k)
    ensures SelfKeyed(w.mem.records)
    ensures AlarmKept(w, Complete(cfg, w, c).0, k)
  {
    if Key(cfg, c.event) == k {
      assert Complete(cfg, w, c).0 == w;
    } else {
      EnqueueKeeps(cfg, w, c.event, c.cursor, c.alarmEnabled, c.evidenceEnabled, c.choice);
      GrowsAlarm(cfg, w, Complete(cfg, w, c).0, c.event, k);
    }
    hide Logged, Key, Stored, KeepsGuarded, IsCoalesceChoice, Exact, Grows, AlarmKept, MakeRoom, Insert,
      ValidEvent;
  }

  lemma ReopenOther(cfg: Config, w: World, via: World, k: string)
    requires SelfKeyed(w.mem.records) && Recoverable(cfg, via)
    ensures AlarmKept(via, Restart(cfg, w, via.disk).0, k)
  {
    RestartKeeps(cfg, w, via);
    hide Restart, Logged, Exact;
  }

  lemma MarkOther(cfg: Config, w: World, c: Call, k: string)
    requires Logged(cfg, w) && IsMark(c) && Elsewhere(cfg, w.mem.records, c, k)
    ensures SelfKeyed(w.mem.records)
    ensures AlarmKept(w, MarkCall(cfg, w, c).0, k)
  {
    AppendKeepsMemory(cfg, w, c);
    hide MarkCall, Logged, TrimError;
  }

  lemma CompleteOther(cfg: Config, w: World, c: Call, k: string)
    requires Logged(cfg, w) && ChoiceOk(w.mem.records, c) && (Restarts(c) ==> Sealed(w.disk))
    requires c.CallCrash? || Elsewhere(cfg, w.mem.records, c, k)
    ensures SelfKeyed(w.mem.records)
    ensures AlarmKept(w, Complete(cfg, w, c).0, k)
  {
    Keyed(cfg, w);
    hide Logged, MarkCall, Ack, Restart, Enqueue, CallerSafe;
    match c {
      case CallEnqueue(_, _, _, _, _) => EnqueueOther(cfg, w, c, k);
      case CallAck(cursor) => AckKeeps(cfg, w, cursor);
      case CallReopen => ReopenOther(cfg, w, w, k);
      case CallCrash(_, _, _) => ReopenOther(cfg, w, w, k);
      case _ => MarkOther(cfg, w, c, k);
    }
  }

  lemma LessAlarm(cfg: Config, w: World, via: World, k: string)
    requires Less(cfg, w.mem, via.mem)
    ensures AlarmKept(w, via, k)
  {
  }

  lemma AgreesAlarm(w: World, via: World, w1: World, k: string)
    requires AlarmKept(w, via, k) && Agrees(w1.mem, via.mem)
    ensures AlarmKept(w, w1, k)
  {
  }

  /** Calls elsewhere, completed or not, leave a pending alarm as it was, and make none
      pending again. */
  lemma OtherKeeps(cfg: Config, w: World, c: Call, k: string)
    requires Logged(cfg, w) && SelfKeyed(w.mem.records) && CareTaken(cfg, w, c)
    requires Elsewhere(cfg, w.mem.records, c, k)
    ensures var w1 := OutboxSpec.Step(cfg, w, c).0;
            && Logged(cfg, w1)
            && (k in w1.mem.records && w1.mem.records[k].alarmState.Pending? ==>
                  k in w.mem.records && SameAlarm(w1.mem.records[k], w.mem.records[k]))
  {
    hide Logged, CallerSafe, Complete, Less, Restart, CrashFile, IsCoalesceChoice;
    BeginKeeps(cfg, w);
    StepLoggedIff(cfg, w, c);
    SafeClean(cfg, w, c);
    CompleteRestarts(cfg, w, c);
    if c.CallCrash? {
      var via := CrashStep(cfg, w, c);
      CompleteOther(cfg, Begin(w), c.during, k);
      if Less(cfg, w.mem, via.mem) { LessAlarm(cfg, w, via, k); }
      AgreesAlarm(w, via, OutboxSpec.Step(cfg, w, c).0, k);
    } else {
      CompleteOther(cfg, Begin(w), c, k);
    }
  }

  lemma AttemptKeeps(cfg: Config, s: State, k: string, maxAttempts: nat, o: Outcome, budget: int)
    requires Within(cfg, s, k, maxAttempts, budget) && o.retryAt >= 0
    requires k in s.w.mem.records && s.w.mem.records[k].alarmState.Pending?
    ensures Within(cfg, Next(cfg, s, k, maxAttempts, Attempt(o)), k, maxAttempts, budget)
  {
    var r := s.w.mem.records[k];
    if !o.dies {
      var c := MarkFor(r, maxAttempts, o);
      assert r.key == k;
      assert CallerSafe(s.w.mem.records, c);
      MarkKeeps(cfg, s.w, c);
      AppendKeepsMemory(cfg, s.w, c);
      MarkedAttempt(r, maxAttempts, o);
      hide Logged, MarkCall, CallerSafe, Unaddressed, MarkFor, MarkedRecord;
    }
  }

  /** What the mark leaves pending has used up one more attempt and has one left. */
  lemma MarkedAttempt(r: Record, maxAttempts: nat, o: Outcome)
    ensures var m := MarkedRecord(r, MarkFor(r, maxAttempts, o));
            m.alarmState.Pending? ==>
              !Unaddressed(r) && m.alarmAttempts == r.alarmAttempts + 1 && m.alarmAttempts < maxAttempts
  {
    hide TrimError, Blank;
  }

  lemma {:induction false} RunWithin(cfg: Config, s: State, k: string, maxAttempts: nat, steps: seq<Step>, budget: int)
    requires Within(cfg, s, k, maxAttempts, budget) && RunOk(cfg, s, k, maxAttempts, steps)
    ensures Within(cfg, Run(cfg, s, k, maxAttempts, steps), k, maxAttempts, budget)
  {
    if steps != [] {
      var (front, step) := (steps[..|steps| - 1], steps[|steps| - 1]);
      var t := Run(cfg, s, k, maxAttempts, front);
      RunWithin(cfg, s, k, maxAttempts, front, budget);
      match step
      case Other(c) => OtherKeeps(cfg, t.w, c, k); hide Logged, OutboxSpec.Step, Run;
      case Attempt(o) =>
        if k in t.w.mem.records && t.w.mem.records[k].alarmState.Pending? {
          AttemptKeeps(cfg, t, k, maxAttempts, o, budget);
        }
        hide Logged, Deliver, Run;
    }
  }

  /** A pending alarm with no attempts yet goes out at most MaxAttempts times, plus once for
      each send whose mark did not reach the disk; restarts, crashes in the middle of a call,
      redelivery of the event, pressure and every other call may come between. */
  lemma SendsBounded(cfg: Config, w: World, k: string, maxAttempts: nat, steps: seq<Step>)
    requires Logged(cfg, w) && k in w.mem.records && w.mem.records[k].alarmAttempts == 0 && maxAttempts >= 1
    requires RunOk(cfg, State(w, 0, 0), k, maxAttempts, steps)
    ensures var t := Run(cfg, State(w, 0, 0), k, maxAttempts, steps); t.sends <= maxAttempts + t.unmarked
  {
    RunWithin(cfg, State(w, 0, 0), k, maxAttempts, steps, maxAttempts);
  }
}
