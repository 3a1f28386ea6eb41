/** What a batch of direct verdicts can do to the phase. */
module BulkLoading {
  import opened McNemar
  import opened Evidence
  import opened Gates
  import opened Lifecycle

  ghost predicate OnlyDirectVerdicts(log: seq<Record>) {
    forall i :: 0 <= i < |log| ==> NoShadows(log[i])
  }

  /** The records a batch lands as. */
  function Landed(cfg: Config, rows: seq<BulkRow>): (log: seq<Record>)
    ensures |log| == Recorded(cfg, rows)
    ensures OnlyDirectVerdicts(log)
  {
    if rows == [] then []
    else
      var earlier, last := Landed(cfg, rows[..|rows| - 1]), RowRecord(cfg, rows[|rows| - 1]);
      if last.Some? then earlier + [last.value] else earlier
  }

  lemma {:induction false} RowsLand(cfg: Config, s: State, rows: seq<BulkRow>)
    ensures var t := AfterRows(cfg, s, rows);
            && t.log == s.log + Landed(cfg, rows) && t.gate == s.gate && t.autoAdvance == s.autoAdvance
            && (!s.autoAdvance ==> Order(t.phase) <= Order(s.phase))
  {
    if rows != [] {
      var before := AfterRows(cfg, s, rows[..|rows| - 1]);
      var last := RowRecord(cfg, rows[|rows| - 1]);
      RowsLand(cfg, s, rows[..|rows| - 1]);
      if last.Some? { VerdictLands(cfg, before, last.value); }
    }
  }

  lemma VerdictLands(cfg: Config, s: State, r: Record)
    ensures var t := AfterVerdict(cfg, s, r);
            t.log == s.log + [r] && t.gate == s.gate && t.autoAdvance == s.autoAdvance
            && (!s.autoAdvance ==> Order(t.phase) <= Order(s.phase))
  {
  }

  /** Whatever the batch does to the phase: the landed rows are logged in order, auto_advance is as before, and a probe restarts the interval. */
  lemma BulkLands(cfg: Config, s: State, rows: seq<BulkRow>)
    ensures var t := AfterBulk(cfg, s, rows);
            && t.log == s.log + Landed(cfg, rows) && t.autoAdvance == s.autoAdvance && t.gate == s.gate
            && (s.autoAdvance && Recorded(cfg, rows) > 0 ==> t.sinceCheck == 0)
            && (Recorded(cfg, rows) == 0 ==> t == s)
  {
    var quiet := s.(autoAdvance := false);
    RowsLand(cfg, quiet, rows);
    if Recorded(cfg, rows) == 0 { NothingLands(cfg, quiet, rows); }
  }

  lemma {:induction false} NothingLands(cfg: Config, s: State, rows: seq<BulkRow>)
    requires Recorded(cfg, rows) == 0
    ensures AfterRows(cfg, s, rows) == s
  {
    if rows != [] { NothingLands(cfg, s, rows[..|rows| - 1]); }
  }

  /** Direct verdicts never change what a strict gate says, on any log. */
  lemma StrictIgnoresDirectVerdicts(gate: Gate, log: seq<Record>, direct: seq<Record>, current: Phase, target: Phase)
    requires Strict(gate) && OnlyDirectVerdicts(direct)
    ensures SaysBetter(gate, log + direct, current, target) <==> SaysBetter(gate, log, current, target)
  {
    if SourceField(current) == SourceField(target) {
      StrictRefusesSameField(gate, log, current, target);
      StrictRefusesSameField(gate, log + direct, current, target);
    } else {
      NothingToPair(direct, SourceField(current), SourceField(target));
      PairsConcat(log, direct, SourceField(current), SourceField(target));
      assert Pairs(log + direct, SourceField(current), SourceField(target)) == Pairs(log, SourceField(current), SourceField(target));
    }
  }

  lemma CanAdvanceIgnoresDirectVerdicts(cfg: Config, s: State, direct: seq<Record>)
    requires Strict(s.gate) && OnlyDirectVerdicts(direct)
    ensures CanAdvance(cfg, s.(log := s.log + direct)) <==> CanAdvance(cfg, s)
  {
    if s.phase != MlPrimary {
      StrictIgnoresDirectVerdicts(s.gate, s.log, direct, s.phase, NextPhase(s.phase).value);
    }
  }

  /** The drift gate speaks up during the batch. */
  predicate DriftDuring(cfg: Config, s: State, n: nat) {
    cfg.autoDemote && DriftFires(cfg, s) && FallsDue(cfg, s, n)
  }

  /** Where the rows have taken a switch whose gates look at its log alone: lower after a drift alarm, else nowhere. */
  ghost predicate Along(cfg: Config, s: State, t: State, n: nat) {
    && Order(t.phase) <= Order(s.phase)
    && (DriftDuring(cfg, s, n) ==> Order(t.phase) < Order(s.phase))
    && (!DriftDuring(cfg, s, n) ==> t.phase == s.phase)
    && (cfg.autoDemote && !FallsDue(cfg, s, n) ==> t.sinceCheck == s.sinceCheck + n && t.sinceChange == s.sinceChange + n)
  }

  lemma AlongOneMore(cfg: Config, s: State, t: State, n: nat, r: Record)
    requires !s.autoAdvance && !t.autoAdvance
    requires Along(cfg, s, t, n)
    requires t.phase == s.phase ==> (DriftFires(cfg, t.(log := t.log + [r])) <==> DriftFires(cfg, s))
    ensures Along(cfg, s, AfterVerdict(cfg, t, r), n + 1)
  {
    var u := AfterVerdict(cfg, t, r);
    VerdictLands(cfg, t, r);
    if DriftDuring(cfg, s, n) {
    } else if cfg.autoDemote && DriftFires(cfg, s) {
      assert CheckDue(cfg, t) <==> FallsDue(cfg, s, n + 1);
    } else {
      assert u.phase == t.phase;
      if cfg.autoDemote && !FallsDue(cfg, s, n + 1) { assert !CheckDue(cfg, t); }
    }
  }

  lemma DriftIgnoresDirectVerdicts(cfg: Config, s: State, t: State, direct: seq<Record>)
    requires Strict(cfg.driftGate) && OnlyDirectVerdicts(direct)
    requires t.phase == s.phase && t.log == s.log + direct
    ensures DriftFires(cfg, t) <==> DriftFires(cfg, s)
  {
    if s.phase != Rule { StrictIgnoresDirectVerdicts(cfg.driftGate, s.log, direct, s.phase, Rule); }
  }

  lemma AlongWithoutDemotion(cfg: Config, s: State, t: State, n: nat, r: Record)
    requires !s.autoAdvance && !t.autoAdvance && !cfg.autoDemote
    requires Along(cfg, s, t, n)
    ensures Along(cfg, s, AfterVerdict(cfg, t, r), n + 1)
  {
  }

  lemma DirectVerdictGoesAlong(cfg: Config, s: State, t: State, n: nat, direct: seq<Record>, r: Record)
    requires !s.autoAdvance && !t.autoAdvance && (cfg.autoDemote ==> Strict(cfg.driftGate))
    requires Along(cfg, s, t, n) && t.log == s.log + direct && OnlyDirectVerdicts(direct) && NoShadows(r)
    ensures Along(cfg, s, AfterVerdict(cfg, t, r), n + 1)
  {
    if cfg.autoDemote {
      assert t.log + [r] == s.log + (direct + [r]);
      if t.phase == s.phase { DriftIgnoresDirectVerdicts(cfg, s, t.(log := t.log + [r]), direct + [r]); }
      AlongOneMore(cfg, s, t, n, r);
    } else {
      AlongWithoutDemotion(cfg, s, t, n, r);
    }
  }

  lemma {:induction false} RowsGoAlong(cfg: Config, s: State, rows: seq<BulkRow>)
    requires !s.autoAdvance && (cfg.autoDemote ==> Strict(cfg.driftGate))
    ensures Along(cfg, s, AfterRows(cfg, s, rows), Recorded(cfg, rows))
  {
    if rows != [] {
      var init, last := rows[..|rows| - 1], RowRecord(cfg, rows[|rows| - 1]);
      RowsGoAlong(cfg, s, init);
      RowsLand(cfg, s, init);
      if last.Some? {
        DirectVerdictGoesAlong(cfg, s, AfterRows(cfg, s, init), Recorded(cfg, init), Landed(cfg, init), last.value);
      }
    }
  }

  /**
   When a batch raises the phase, on any log, for strict gates: exactly when the gate would have
   said yes before the batch, the automatic probe is on and gets a row, and no drift alarm that
   also stood before goes off inside the batch.  The rows themselves never count.
   */
  lemma BulkRaisesIff(cfg: Config, s: State, rows: seq<BulkRow>)
    requires Strict(s.gate) && (cfg.autoDemote ==> Strict(cfg.driftGate))
    ensures Order(AfterBulk(cfg, s, rows).phase) > Order(s.phase)
            <==> s.autoAdvance && Recorded(cfg, rows) > 0 && CanAdvance(cfg, s) && !DriftDuring(cfg, s, Recorded(cfg, rows))
  {
    var quiet := s.(autoAdvance := false);
    var batch := AfterRows(cfg, quiet, rows);
    RowsGoAlong(cfg, quiet, rows);
    RowsLand(cfg, quiet, rows);
    if batch.phase == s.phase {
      CanAdvanceIgnoresDirectVerdicts(cfg, s, Landed(cfg, rows));
      SameProbe(cfg, s, batch, Landed(cfg, rows));
    }
  }

  lemma SameProbe(cfg: Config, s: State, batch: State, direct: seq<Record>)
    requires batch.phase == s.phase && batch.gate == s.gate && batch.log == s.log + direct
    ensures CanAdvance(cfg, batch.(autoAdvance := s.autoAdvance, sinceCheck := 0)) <==> CanAdvance(cfg, s.(log := s.log + direct))
  {
  }

  /** Without automatic demotion, for every gate: exactly when it says yes to the log with the rows on it. */
  lemma AnyGateBulkRaisesIff(cfg: Config, s: State, rows: seq<BulkRow>)
    requires !cfg.autoDemote
    ensures Order(AfterBulk(cfg, s, rows).phase) > Order(s.phase)
            <==> s.autoAdvance && Recorded(cfg, rows) > 0 && CanAdvance(cfg, s.(log := s.log + Landed(cfg, rows)))
  {
    var quiet := s.(autoAdvance := false);
    RowsGoAlong(cfg, quiet, rows);
    RowsLand(cfg, quiet, rows);
    SameProbe(cfg, s, AfterRows(cfg, quiet, rows), Landed(cfg, rows));
  }

  /** On a log of nothing but direct verdicts a strict gate does not graduate the switch, however many rows are preloaded. */
  lemma BulkLoadNeverGraduates(cfg: Config, s: State, rows: seq<BulkRow>)
    requires Strict(s.gate) && OnlyDirectVerdicts(s.log)
    ensures Order(AfterBulk(cfg, s, rows).phase) <= Order(s.phase)
  {
    var quiet := s.(autoAdvance := false);
    var batch := AfterRows(cfg, quiet, rows);
    RowsLand(cfg, quiet, rows);
    if batch.phase != MlPrimary {
      StrictRefusesWithoutShadows(s.gate, batch.log, batch.phase, NextPhase(batch.phase).value);
    }
  }

  /** On one record the rule got right, the gate that accepts ties says yes to MODEL_SHADOW. */
  lemma TieOnOneRow(r: Record)
    requires SourceCorrectFor(r, RuleOutput) == Some(true)
    ensures SaysBetter(CostToleranceGate(0.0, 1), [r], Rule, ModelShadow)
  {
    assert [r][..0] == [];
    assert Pairs([r], RuleOutput, RuleOutput) == [Pair(true, true)];
    CostToleranceAcceptsTies(CostToleranceGate(0.0, 1), [r], Rule, ModelShadow);
  }

  /** A gate that accepts ties can be preloaded out of RULE: one row that the rule got right is enough for it. */
  lemma TieGateGraduates(cfg: Config, s: State, row: BulkRow)
    requires s.gate == CostToleranceGate(0.0, 1) && s.phase == Rule && s.log == [] && s.autoAdvance
    requires !cfg.autoDemote && Order(cfg.limit) >= 1
    requires row.outcome == "correct" && row.source == "rule" && row.decision.Some? && row.accepted
    ensures AfterBulk(cfg, s, [row]).phase == ModelShadow
  {
    assert [row][..0] == [];
    var r := RowRecord(cfg, row);
    assert r.Some? && Landed(cfg, [row]) == [r.value] && Recorded(cfg, [row]) == 1;
    DirectVerdictsFeedTheRuleOnly(cfg.judge, row.timestamp, row.input, row.decision, Correct, row.source, row.confidence, RuleOutput);
    TieOnOneRow(r.value);
    assert s.log + [r.value] == [r.value];
    AnyGateBulkRaisesIff(cfg, s, [row]);
    RaisedByOne(cfg, s, [row]);
  }

  lemma RaisedByOne(cfg: Config, s: State, rows: seq<BulkRow>)
    requires !cfg.autoDemote
    ensures Order(AfterBulk(cfg, s, rows).phase) <= Order(s.phase) + 1
    ensures AfterBulk(cfg, s, rows).phase == s.phase || NextPhase(s.phase) == Some(AfterBulk(cfg, s, rows).phase)
  {
    RowsGoAlong(cfg, s.(autoAdvance := false), rows);
  }
}
