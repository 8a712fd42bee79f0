// The rule summary counts exactly the distinct new facts of a valid observation.
module EngineFacts {
  import opened Common
  import opened EngineModel
  import opened EngineSpec
  import opened EngineTrace

  predicate NoClash(fs: seq<Fact>) {
    forall i, j | 0 <= j < i < |fs| :: !FactsClash(fs[j], fs[i])
  }

  function Pair(f: Fact): (nat, Direction) { (f.trackId, f.direction) }

  /** The kept facts are matching ones of `fs`, and stand for all of those. */
  predicate Kept(cfg: Config, fs: seq<Fact>, kept: seq<Fact>) {
    && |kept| <= |fs| && (forall i | 0 <= i < |kept| :: kept[i] in fs && Matches(cfg, kept[i]))
    && FactSet(cfg, kept) == FactSet(cfg, fs)
  }

  /** What the loop has established after the facts `fs`. */
  predicate SummaryIs(cfg: Config, seen: Seen, fs: seq<Fact>, s: Summary) {
    && Kept(cfg, fs, s.facts)
    && s.matches == |s.facts| && (s.matches == 0 <==> FactSet(cfg, fs) == {})
    && s.deltaIn == |Novel(seen, FactSet(cfg, fs), In)| && s.deltaOut == |Novel(seen, FactSet(cfg, fs), Out)|
    && s.novel <= |fs| && s.deltaIn <= s.novel && s.deltaOut <= s.novel
    && (s.first.Some? ==> s.first.value.ruleId == cfg.ruleId)
  }

  lemma FactSetSnoc(cfg: Config, fs: seq<Fact>, f: Fact)
    ensures FactSet(cfg, fs + [f]) == FactSet(cfg, fs) + if Matches(cfg, f) then {Pair(f)} else {}
  {
    var all := fs + [f];
    forall p | p in FactSet(cfg, fs) ensures p in FactSet(cfg, all) {
      var i :| 0 <= i < |fs| && Matches(cfg, fs[i]) && p == (fs[i].trackId, fs[i].direction);
      assert all[i] == fs[i];
    }
    forall p | p in FactSet(cfg, all) ensures p in FactSet(cfg, fs) || (Matches(cfg, f) && p == Pair(f)) {
      var i :| 0 <= i < |all| && Matches(cfg, all[i]) && p == (all[i].trackId, all[i].direction);
      if i < |fs| { assert fs[i] == all[i]; }
    }
    assert all[|fs|] == f;
    if Matches(cfg, f) { assert Pair(f) in FactSet(cfg, all); }
  }

  lemma NovelAdd(seen: Seen, now: Seen, p: (nat, Direction), d: Direction)
    requires p !in now
    ensures |Novel(seen, now + {p}, d)| == |Novel(seen, now, d)| + if p !in seen && p.1 == d then 1 else 0
  {
    if p !in seen && p.1 == d {
      assert Novel(seen, now + {p}, d) == Novel(seen, now, d) + {p};
    } else {
      assert Novel(seen, now + {p}, d) == Novel(seen, now, d);
    }
  }

  /** A fact that clashes with no earlier one is new to the summary. */
  lemma FactIsNew(cfg: Config, fs: seq<Fact>, f: Fact)
    requires NoClash(fs + [f]) && Matches(cfg, f)
    ensures forall i | 0 <= i < |fs| && Matches(cfg, fs[i]) :: fs[i].trackId != f.trackId
    ensures Pair(f) !in FactSet(cfg, fs)
  {
    var all := fs + [f];
    forall i | 0 <= i < |fs| && Matches(cfg, fs[i]) ensures fs[i].trackId != f.trackId {
      assert all[i] == fs[i] && all[|fs|] == f && !FactsClash(all[i], all[|fs|]);
    }
  }

  lemma AddFactSets(cfg: Config, fs: seq<Fact>, kept: seq<Fact>, f: Fact)
    requires NoClash(fs + [f]) && Matches(cfg, f) && Kept(cfg, fs, kept)
    ensures forall i | 0 <= i < |kept| :: kept[i].trackId != f.trackId
    ensures Pair(f) !in FactSet(cfg, fs) && FactSet(cfg, fs + [f]) == FactSet(cfg, fs) + {Pair(f)}
    ensures Kept(cfg, fs + [f], kept + [f])
  {
    FactIsNew(cfg, fs, f);
    FactSetSnoc(cfg, fs, f);
    FactSetSnoc(cfg, kept, f);
    forall i | 0 <= i < |kept| ensures kept[i].trackId != f.trackId {
      var n :| 0 <= n < |fs| && fs[n] == kept[i];
    }
  }

  lemma AddFactIs(cfg: Config, seen: Seen, fs: seq<Fact>, s: Summary, f: Fact)
    requires NoClash(fs + [f]) && |fs| < MAX_FACTS && SummaryIs(cfg, seen, fs, s)
    ensures SummaryIs(cfg, seen, fs + [f], AddFact(cfg, seen, s, f))
  {
    if Matches(cfg, f) {
      MatchingFactIs(cfg, seen, fs, s, f);
    } else {
      FactSetSnoc(cfg, fs, f);
      assert Kept(cfg, fs + [f], s.facts);
      hide FactSet, Novel, NoClash, Kept;
    }
  }

  lemma MatchingFactIs(cfg: Config, seen: Seen, fs: seq<Fact>, s: Summary, f: Fact)
    requires NoClash(fs + [f]) && |fs| < MAX_FACTS && SummaryIs(cfg, seen, fs, s) && Matches(cfg, f)
    ensures SummaryIs(cfg, seen, fs + [f], AddFact(cfg, seen, s, f))
  {
    AddFactSets(cfg, fs, s.facts, f);
    assert !SummaryHas(s, f) && |s.facts| <= |fs|;
    var p := Pair(f);
    NovelAdd(seen, FactSet(cfg, fs), p, In);
    NovelAdd(seen, FactSet(cfg, fs), p, Out);
    assert f.ruleId == cfg.ruleId && p in FactSet(cfg, fs + [f]);
    hide FactSet, Novel, NoClash, Matches, SummaryHas, Kept;
    assert AddFact(cfg, seen, s, f).facts == s.facts + [f];
  }

  lemma {:induction false} SummarizeIs(cfg: Config, seen: Seen, fs: seq<Fact>)
    requires NoClash(fs) && |fs| <= MAX_FACTS
    ensures SummaryIs(cfg, seen, fs, Summarize(cfg, seen, fs))
  {
    if fs != [] {
      var front, f := fs[..|fs| - 1], fs[|fs| - 1];
      assert fs == front + [f];
      SummarizeIs(cfg, seen, front);
      AddFactIs(cfg, seen, front, Summarize(cfg, seen, front), f);
    } else {
      assert Novel(seen, {}, In) == {} && Novel(seen, {}, Out) == {};
    }
  }

  /** For every valid observation: match count, new-fact counts and the remembered set
      are those of the observation's set of (track, direction) facts. */
  lemma SummaryExact(cfg: Config, seen: Seen, o: Observation)
    requires ValidObservation(o)
    ensures var s := Summarize(cfg, seen, o.facts);
            var facts := FactSet(cfg, o.facts);
            && FactSet(cfg, s.facts) == facts
            && (s.matches > 0 <==> facts != {})
            && s.deltaIn == |Novel(seen, facts, In)| <= MAX_FACTS
            && s.deltaOut == |Novel(seen, facts, Out)| <= MAX_FACTS
            && (s.novel == 0 ==> s.deltaIn == 0 && s.deltaOut == 0)
            && (s.first.Some? ==> s.first.value.ruleId == cfg.ruleId)
  {
    SummarizeIs(cfg, seen, o.facts);
  }
}
