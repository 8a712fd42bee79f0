// The idempotency key identifies exactly one event phase of one device.
module OutboxKey {
  import opened EventContract
  import opened OutboxModel

  /** Base64 without padding is injective and never writes the separator. */
  ghost predicate EncoderOk(b64: string -> string) {
    && (forall s: string :: '|' !in b64(s))
    && (forall s: string, t: string | b64(s) == b64(t) :: s == t)
  }

  lemma SplitOnce(a: string, b: string, x: string, y: string)
    requires '|' !in a && '|' !in b && a + "|" + x == b + "|" + y
    ensures a == b && x == y
  {
    var l, r := a + "|" + x, b + "|" + y;
    assert l[|a|] == '|' && r[|b|] == '|';
    assert forall i | 0 <= i < |b| :: r[i] in b;
    assert forall i | 0 <= i < |a| :: l[i] in a;
    assert |a| == |b|;
    assert a == l[..|a|] && b == r[..|b|] && x == l[|a| + 1..] && y == r[|b| + 1..];
  }

  lemma DigitInjective(a: nat, b: nat)
    requires a < 10 && b < 10 && "0123456789"[a] == "0123456789"[b]
    ensures a == b
  {
  }

  lemma {:induction false} DecimalInjective(a: nat, b: nat)
    requires Decimal(a) == Decimal(b)
    ensures a == b
  {
    var s, t := Decimal(a), Decimal(b);
    assert s[|s| - 1] == "0123456789"[a % 10] && t[|t| - 1] == "0123456789"[b % 10];
    DigitInjective(a % 10, b % 10);
    if a >= 10 && b >= 10 {
      assert s[..|s| - 1] == Decimal(a / 10) && t[..|t| - 1] == Decimal(b / 10);
      DecimalInjective(a / 10, b / 10);
    }
  }

  /** Two events share a key exactly when they are the same phase, by number, of the
      same event on the same channel; the cursor plays no part. */
  lemma KeyIdentifies(cfg: Config, e: Event, f: Event)
    requires EncoderOk(cfg.b64) && KnownPhase(e.phase) && KnownPhase(f.phase)
    ensures Key(cfg, e) == Key(cfg, f) <==>
            e.channelId == f.channelId && e.eventId == f.eventId && e.phase == f.phase && e.eventSeq == f.eventSeq
  {
    if Key(cfg, e) == Key(cfg, f) {
      var d := cfg.b64(cfg.deviceId);
      var (c1, c2) := (cfg.b64(e.channelId), cfg.b64(f.channelId));
      var (i1, i2) := (cfg.b64(e.eventId), cfg.b64(f.eventId));
      var (p1, p2) := (cfg.b64(PhaseText(e.phase)), cfg.b64(PhaseText(f.phase)));
      var (n1, n2) := (Decimal(e.eventSeq), Decimal(f.eventSeq));
      KeyShape(cfg, e);
      KeyShape(cfg, f);
      SplitOnce(d, d, c1 + "|" + (i1 + "|" + (p1 + "|" + n1)), c2 + "|" + (i2 + "|" + (p2 + "|" + n2)));
      SplitOnce(c1, c2, i1 + "|" + (p1 + "|" + n1), i2 + "|" + (p2 + "|" + n2));
      SplitOnce(i1, i2, p1 + "|" + n1, p2 + "|" + n2);
      SplitOnce(p1, p2, n1, n2);
      DecimalInjective(e.eventSeq, f.eventSeq);
    }
  }

  lemma KeyShape(cfg: Config, e: Event)
    ensures Key(cfg, e) == cfg.b64(cfg.deviceId) + "|" + (cfg.b64(e.channelId) + "|" +
                           (cfg.b64(e.eventId) + "|" + (cfg.b64(PhaseText(e.phase)) + "|" + Decimal(e.eventSeq))))
  {
  }
}
