/** How far apart automatic phase changes are, over runs of all operations. */
module Hysteresis {
  import opened Evidence
  import opened Gates
  import opened Lifecycle
  import Signals

  /** One verdict moves the phase by at most one, and a move restarts both counters. */
  lemma OneVerdictOneStep(cfg: Config, s: State, r: Record)
    ensures var t := AfterVerdict(cfg, s, r);
            && -1 <= Order(t.phase) - Order(s.phase) <= 1
            && (t.phase != s.phase ==> t.sinceChange == 0 && t.sinceCheck == 0)
            && t.log == s.log + [r]
  {
  }

  /** When an automatic change happens, and that drift takes precedence over an advance. */
  lemma AutomaticChangeIff(cfg: Config, s: State, r: Record)
    ensures var t, logged := AfterVerdict(cfg, s, r), s.(log := s.log + [r]);
            var drift := cfg.autoDemote && DriftFires(cfg, logged);
            && (Order(t.phase) < Order(s.phase) <==> CheckDue(cfg, s) && drift)
            && (Order(t.phase) > Order(s.phase) <==> CheckDue(cfg, s) && !drift && s.autoAdvance && CanAdvance(cfg, logged))
  {
  }

  /** What a verdict does to the counters: nothing with the automation off; else it counts, and a due check restarts the interval. */
  lemma VerdictCounts(cfg: Config, s: State, r: Record)
    ensures var t := AfterVerdict(cfg, s, r);
            if !s.autoAdvance && !cfg.autoDemote then t == s.(log := s.log + [r])
            else if s.sinceCheck + 1 >= cfg.interval && s.sinceChange + 1 >= cfg.cooldown then
              t.sinceCheck == 0 && t.sinceChange == if t.phase == s.phase then s.sinceChange + 1 else 0
            else t.phase == s.phase && t.sinceCheck == s.sinceCheck + 1 && t.sinceChange == s.sinceChange + 1
  {
  }

  // ---------------------------------------------------------------------------
  // Counting verdicts
  // ---------------------------------------------------------------------------

  /** The verdicts an operation records. */
  function Counted(cfg: Config, op: Op): nat {
    match op
    case RecordVerdict(_) => 1
    case BulkRecord(rows) => Recorded(cfg, rows)
    case _ => 0
  }

  function Total(cfg: Config, ops: seq<Op>): nat {
    if ops == [] then 0 else Total(cfg, ops[..|ops| - 1]) + Counted(cfg, ops[|ops| - 1])
  }

  /** Neither counter outgrows the verdicts counted, and a change has restarted the cooldown among them. */
  ghost predicate Advances(s: State, t: State, verdicts: nat) {
    && t.sinceChange <= s.sinceChange + verdicts
    && t.sinceCheck <= s.sinceCheck + verdicts
    && (t.phase != s.phase ==> t.sinceChange <= verdicts)
  }

  lemma VerdictAdvances(cfg: Config, s: State, r: Record)
    ensures Advances(s, AfterVerdict(cfg, s, r), 1)
  {
  }

  lemma {:induction false} RowsAdvance(cfg: Config, s: State, rows: seq<BulkRow>)
    ensures Advances(s, AfterRows(cfg, s, rows), Recorded(cfg, rows))
  {
    if rows != [] {
      var init, last := rows[..|rows| - 1], RowRecord(cfg, rows[|rows| - 1]);
      RowsAdvance(cfg, s, init);
      if last.Some? {
        VerdictAdvances(cfg, AfterRows(cfg, s, init), last.value);
        OneVerdictOneStep(cfg, AfterRows(cfg, s, init), last.value);
      }
    }
  }

  lemma BulkAdvances(cfg: Config, s: State, rows: seq<BulkRow>)
    ensures Advances(s, AfterBulk(cfg, s, rows), Recorded(cfg, rows))
  {
    RowsAdvance(cfg, s.(autoAdvance := false), rows);
  }

  lemma SwapRestarts(cfg: Config, s: State, changed: seq<Signals.Component>, now: real)
    ensures var t := AfterSwap(cfg, s, changed, now);
            t.sinceCheck == s.sinceCheck && t.sinceChange == if t.phase == s.phase then s.sinceChange else 0
  {
  }

  lemma ReconcileRestarts(cfg: Config, s: State, now: real)
    ensures var t := AfterReconcile(cfg, s, now);
            t.sinceCheck == s.sinceCheck && t.sinceChange == if t.phase == s.phase then s.sinceChange else 0
  {
    if s.saved.Some? {
      ReconciledRestarts(cfg, s, CurrentSignature(s), s.saved.value, now);
    }
  }

  lemma ReconciledRestarts(cfg: Config, s: State, current: Signals.Signature, previous: Signals.Signature, now: real)
    ensures var t := Reconciled(cfg, s, current, previous, now);
            t.sinceCheck == s.sinceCheck && t.sinceChange == if t.phase == s.phase then s.sinceChange else 0
  {
    if !Signals.SameCore(previous, current) && !IsDefaultDrift(s, current, previous) {
      SwapRestarts(cfg, s, Signals.Changed(current, previous), now);
    }
  }

  lemma MigrateRestarts(cfg: Config, s: State, to: string, acceptReset: bool, now: real)
    ensures var t := AfterMigrate(cfg, s, to, acceptReset, now);
            && t.sinceCheck == s.sinceCheck && t.sinceChange <= s.sinceChange
            && (t.phase != s.phase ==> t.sinceChange == 0)
  {
  }

  lemma StepAdvances(cfg: Config, s: State, op: Op)
    ensures Advances(s, Step(cfg, s, op), Counted(cfg, op))
  {
    match op
    case RecordVerdict(r) => VerdictAdvances(cfg, s, r);
    case BulkRecord(rows) => BulkAdvances(cfg, s, rows);
    case Advance =>
    case Demote(reason) =>
    case Reconcile(now) => ReconcileRestarts(cfg, s, now);
    case Migrate(to, acceptReset, now) => MigrateRestarts(cfg, s, to, acceptReset, now);
    case Rewire(_, _, _) =>
    case AutoLog(_) =>
  }

  /** Whatever operation other than a batch changes the phase, advance, demote, reconcile or migrate, it restarts the cooldown. */
  lemma ChangeRestartsCooldown(cfg: Config, s: State, op: Op)
    requires !op.BulkRecord? && Step(cfg, s, op).phase != s.phase
    ensures Step(cfg, s, op).sinceChange == 0
    ensures op.RecordVerdict? ==> Step(cfg, s, op).sinceCheck == 0
  {
    if op.RecordVerdict? {
      OneVerdictOneStep(cfg, s, op.record);
    } else {
      StepAdvances(cfg, s, op);
    }
  }

  lemma {:induction false} RunAdvances(cfg: Config, s: State, ops: seq<Op>)
    ensures var t := Run(cfg, s, ops);
            t.sinceChange <= s.sinceChange + Total(cfg, ops) && t.sinceCheck <= s.sinceCheck + Total(cfg, ops)
  {
    if ops != [] {
      RunAdvances(cfg, s, ops[..|ops| - 1]);
      StepAdvances(cfg, Run(cfg, s, ops[..|ops| - 1]), ops[|ops| - 1]);
    }
  }

  lemma {:induction false} RunComposes(cfg: Config, s: State, xs: seq<Op>, ys: seq<Op>)
    ensures Run(cfg, s, xs + ys) == Run(cfg, Run(cfg, s, xs), ys)
  {
    if ys == [] {
      assert xs + ys == xs;
    } else {
      var init := ys[..|ys| - 1];
      RunComposes(cfg, s, xs, init);
      assert (xs + ys)[..|xs + ys| - 1] == xs + init;
    }
  }

  // ---------------------------------------------------------------------------
  // When the gates are asked
  // ---------------------------------------------------------------------------

  /** Operations that leave the phase to the automation. */
  predicate Passive(op: Op) {
    op.RecordVerdict? || op.AutoLog? || op.Rewire?
  }

  /** Until the check falls due the verdicts are counted, all of them, and the phase stays. */
  lemma {:induction false} CountsUntilDue(cfg: Config, s: State, ops: seq<Op>)
    requires s.autoAdvance || cfg.autoDemote
    requires (forall i :: 0 <= i < |ops| ==> Passive(ops[i])) && !FallsDue(cfg, s, Total(cfg, ops))
    ensures var t := Run(cfg, s, ops);
            && t.phase == s.phase && t.autoAdvance == s.autoAdvance
            && t.sinceCheck == s.sinceCheck + Total(cfg, ops) && t.sinceChange == s.sinceChange + Total(cfg, ops)
  {
    if ops != [] {
      var init, last := ops[..|ops| - 1], ops[|ops| - 1];
      CountsUntilDue(cfg, s, init);
      if last.RecordVerdict? {
        VerdictCounts(cfg, Run(cfg, s, init), last.record);
        VerdictTouches(cfg, Run(cfg, s, init), last.record);
      }
    }
  }

  /**
   Over any run of verdicts, exactly when the automation first acts: the gates are asked at the first
   verdict that finds both counters at their thresholds.  Before it nothing moves; at it the phase
   falls exactly if the drift gate fires, and otherwise rises exactly if advance() would.
   */
  lemma FirstCheck(cfg: Config, s: State, ops: seq<Op>, r: Record)
    requires s.autoAdvance || cfg.autoDemote
    requires (forall i :: 0 <= i < |ops| ==> Passive(ops[i])) && !FallsDue(cfg, s, Total(cfg, ops))
    ensures var t := Run(cfg, s, ops);
            var logged, u := t.(log := t.log + [r]), AfterVerdict(cfg, t, r);
            var due, drift := FallsDue(cfg, s, Total(cfg, ops) + 1), cfg.autoDemote && DriftFires(cfg, logged);
            && t.phase == s.phase
            && (Order(u.phase) < Order(s.phase) <==> due && drift)
            && (Order(u.phase) > Order(s.phase) <==> due && !drift && s.autoAdvance && CanAdvance(cfg, logged))
            && (u.sinceCheck == 0 <==> due)
  {
    CountsUntilDue(cfg, s, ops);
    var t := Run(cfg, s, ops);
    AutomaticChangeIff(cfg, t, r);
    VerdictCounts(cfg, t, r);
  }

  // ---------------------------------------------------------------------------
  // Spacing
  // ---------------------------------------------------------------------------

  /** The verdicts an operation that changed the phase may have counted after the change: those of a batch. */
  function Leeway(cfg: Config, op: Op): nat {
    if op.BulkRecord? then Recorded(cfg, op.rows) else 0
  }

  lemma ChangeLeavesLeeway(cfg: Config, s: State, op: Op)
    requires Step(cfg, s, op).phase != s.phase
    ensures Step(cfg, s, op).sinceChange <= Leeway(cfg, op)
  {
    if op.BulkRecord? { StepAdvances(cfg, s, op); } else { ChangeRestartsCooldown(cfg, s, op); }
  }

  lemma ChangeNeedsBothCounters(cfg: Config, s: State, r: Record)
    requires AfterVerdict(cfg, s, r).phase != s.phase
    ensures CheckDue(cfg, s)
  {
  }

  /** While the verdicts since the last change fall short of the cooldown, another one leaves the phase alone. */
  lemma QuietWhileCooling(cfg: Config, s: State, ops: seq<Op>, r: Record)
    requires s.sinceChange + Total(cfg, ops) + 1 < cfg.cooldown
    ensures var t := Run(cfg, s, ops); AfterVerdict(cfg, t, r).phase == t.phase
  {
    RunAdvances(cfg, s, ops);
    if AfterVerdict(cfg, Run(cfg, s, ops), r).phase != Run(cfg, s, ops).phase {
      ChangeNeedsBothCounters(cfg, Run(cfg, s, ops), r);
    }
  }

  /**
   After any operation has changed the phase, and with any operations in between, a verdict leaves
   the phase alone until the cooldown's number of verdicts is reached.
   */
  lemma CooldownHolds(cfg: Config, s: State, op: Op, ops: seq<Op>, r: Record)
    requires Step(cfg, s, op).phase != s.phase
    requires Leeway(cfg, op) + Total(cfg, ops) + 1 < cfg.cooldown
    ensures var t := Run(cfg, Step(cfg, s, op), ops); AfterVerdict(cfg, t, r).phase == t.phase
  {
    ChangeLeavesLeeway(cfg, s, op);
    QuietWhileCooling(cfg, Step(cfg, s, op), ops, r);
  }

  predicate ChangesAt(cfg: Config, s: State, ops: seq<Op>, i: nat)
    requires i < |ops|
  {
    Run(cfg, s, ops[..i + 1]).phase != Run(cfg, s, ops[..i]).phase
  }

  lemma RunStep(cfg: Config, s: State, ops: seq<Op>, i: nat)
    requires i < |ops|
    ensures Run(cfg, s, ops[..i + 1]) == Step(cfg, Run(cfg, s, ops[..i]), ops[i])
  {
    assert ops[..i + 1][..i] == ops[..i];
  }

  lemma RunFrom(cfg: Config, s: State, ops: seq<Op>, i: nat, j: nat)
    requires i < j <= |ops|
    ensures Run(cfg, s, ops[..j]) == Run(cfg, Step(cfg, Run(cfg, s, ops[..i]), ops[i]), ops[i + 1..j])
  {
    RunStep(cfg, s, ops, i);
    RunComposes(cfg, s, ops[..i + 1], ops[i + 1..j]);
    assert ops[..i + 1] + ops[i + 1..j] == ops[..j];
  }

  /**
   In any run, a verdict that changes the phase comes at least a cooldown of verdicts after the last
   change, whatever made it, and at least an interval after the last change a verdict made.
   */
  lemma AutomaticChangesAreSpaced(cfg: Config, s: State, ops: seq<Op>, i: nat, j: nat)
    requires i < j < |ops| && ops[j].RecordVerdict?
    requires ChangesAt(cfg, s, ops, i) && ChangesAt(cfg, s, ops, j)
    ensures Leeway(cfg, ops[i]) + Total(cfg, ops[i + 1..j]) + 1 >= cfg.cooldown
    ensures ops[i].RecordVerdict? ==> Total(cfg, ops[i + 1..j]) + 1 >= cfg.interval
  {
    var before := Run(cfg, s, ops[..i]);
    RunStep(cfg, s, ops, i);
    RunStep(cfg, s, ops, j);
    RunFrom(cfg, s, ops, i, j);
    ChangeLeavesLeeway(cfg, before, ops[i]);
    if ops[i].RecordVerdict? { ChangeRestartsCooldown(cfg, before, ops[i]); }
    RunAdvances(cfg, Step(cfg, before, ops[i]), ops[i + 1..j]);
    ChangeNeedsBothCounters(cfg, Run(cfg, s, ops[..j]), ops[j].record);
  }

  /** Inside a batch the rows obey the cooldown too: only the probe at its end does not ask for it. */
  lemma {:induction false} RowsObeyCooldown(cfg: Config, s: State, rows: seq<BulkRow>)
    requires s.sinceChange + Recorded(cfg, rows) < cfg.cooldown
    ensures AfterRows(cfg, s, rows).phase == s.phase
  {
    if rows != [] {
      var init, last := rows[..|rows| - 1], RowRecord(cfg, rows[|rows| - 1]);
      RowsObeyCooldown(cfg, s, init);
      RowsAdvance(cfg, s, init);
      if last.Some? && AfterVerdict(cfg, AfterRows(cfg, s, init), last.value).phase != s.phase {
        ChangeNeedsBothCounters(cfg, AfterRows(cfg, s, init), last.value);
      }
    }
  }

  /** The probe ignores both counters: one recorded row is enough right after a change, if the gate says yes. */
  lemma ProbeIgnoresCooldown(cfg: Config, s: State, row: BulkRow)
    requires s.autoAdvance && !cfg.autoDemote && RowRecord(cfg, row).Some?
    requires CanAdvance(cfg, s.(log := s.log + [RowRecord(cfg, row).value]))
    ensures Order(AfterBulk(cfg, s, [row]).phase) == Order(s.phase) + 1
  {
    assert [row][..0] == [];
    assert Recorded(cfg, [row]) == 1;
    var quiet := s.(autoAdvance := false);
    assert AfterRows(cfg, quiet, [row]) == AfterVerdict(cfg, quiet, RowRecord(cfg, row).value);
  }
}
