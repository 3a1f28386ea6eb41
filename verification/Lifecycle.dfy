/**
 The graduation lifecycle as a state machine: what each public operation of a switch does to
 its phase, its cooldown counters, its gate, its pinned default set and its audit ledger.
 The class in LearnedSwitch is proved to follow these functions.
 */
module Lifecycle {
  import opened Evidence
  import opened Gates
  import opened Signals

  /** The part of the configuration no operation changes. */
  datatype Config = Config(
    limit: Phase,
    safetyCritical: bool,
    driftGate: Gate,
    autoDemote: bool,
    interval: int,
    cooldown: int,
    judge: Option<Judge>,
    swapDemotes: bool,
    windowRecords: nat,
    windowSeconds: real,
    sets: DefaultSets)

  datatype Event =
    | Adopted | Advisory | Pinned | Swapped | Held | Demoted(from: Phase) | Quarantined
    | MigrateRejected | MigrateReset | Migrated

  datatype State = State(
    phase: Phase,
    gate: Gate,
    gateIsDefault: bool,
    version: Option<string>,
    autoAdvance: bool,
    sinceCheck: nat,
    sinceChange: nat,
    log: seq<Record>,
    wiring: Wiring,
    head: Head,
    storedHead: bool,
    saved: Option<Signature>,
    ledger: seq<Event>)

  // ---------------------------------------------------------------------------
  // Single steps
  // ---------------------------------------------------------------------------

  /** advance() moves exactly when this holds. */
  predicate CanAdvance(cfg: Config, s: State) {
    && s.phase != MlPrimary
    && Order(s.phase) + 1 <= Order(cfg.limit)
    && !(cfg.safetyCritical && NextPhase(s.phase) == Some(MlPrimary))
    && SaysBetter(s.gate, s.log, s.phase, NextPhase(s.phase).value)
  }

  function AfterAdvance(cfg: Config, s: State): State {
    if CanAdvance(cfg, s) then s.(phase := NextPhase(s.phase).value, sinceChange := 0) else s
  }

  function AfterDemote(s: State): State {
    if s.phase == Rule then s else s.(phase := PrevPhase(s.phase).value, sinceChange := 0)
  }

  /** _maybe_auto_demote fires. */
  predicate DriftFires(cfg: Config, s: State) {
    s.phase != Rule && SaysBetter(cfg.driftGate, s.log, s.phase, Rule)
  }

  /** Both counters, after counting one more verdict, have reached their thresholds. */
  predicate CheckDue(cfg: Config, s: State) {
    s.sinceCheck + 1 >= cfg.interval && s.sinceChange + 1 >= cfg.cooldown
  }

  /** The n-th verdict from here is one at which both counters, if nothing restarts them, have reached their thresholds. */
  predicate FallsDue(cfg: Config, s: State, n: nat) {
    n > 0 && s.sinceCheck + n >= cfg.interval && s.sinceChange + n >= cfg.cooldown
  }

  /** What follows the append in record_verdict. */
  function AfterCheck(cfg: Config, s: State): State {
    if !s.autoAdvance && !cfg.autoDemote then s
    else if !CheckDue(cfg, s) then s.(sinceCheck := s.sinceCheck + 1, sinceChange := s.sinceChange + 1)
    else
      var checked := s.(sinceCheck := 0, sinceChange := s.sinceChange + 1);
      if cfg.autoDemote && DriftFires(cfg, checked) then AfterDemote(checked)
      else if s.autoAdvance then AfterAdvance(cfg, checked)
      else checked
  }

  /** record_verdict from the append on. */
  function AfterVerdict(cfg: Config, s: State, r: Record): State {
    AfterCheck(cfg, s.(log := s.log + [r]))
  }

  /** One row of a batch, with whether the storage accepts it. */
  datatype BulkRow = BulkRow(timestamp: real, input: Input, decision: Option<Label>, outcome: string, source: string,
                             confidence: real, accepted: bool)

  function ParseVerdict(outcome: string): Option<Verdict> {
    if outcome == "correct" then Some(Correct)
    else if outcome == "incorrect" then Some(Incorrect)
    else if outcome == "unknown" then Some(Unknown)
    else None
  }

  /** The record a row lands as; None when the outcome is no Verdict or the storage refuses the row. */
  function RowRecord(cfg: Config, row: BulkRow): Option<Record> {
    var v := ParseVerdict(row.outcome);
    if v.None? || !row.accepted then None
    else Some(BuildRecord(cfg.judge, row.timestamp, row.input, row.decision, v.value, row.source, row.confidence, None))
  }

  function AfterRow(cfg: Config, s: State, row: BulkRow): State {
    var r := RowRecord(cfg, row);
    if r.None? then s else AfterVerdict(cfg, s, r.value)
  }

  function AfterRows(cfg: Config, s: State, rows: seq<BulkRow>): State {
    if rows == [] then s else AfterRow(cfg, AfterRows(cfg, s, rows[..|rows| - 1]), rows[|rows| - 1])
  }

  function Recorded(cfg: Config, rows: seq<BulkRow>): nat {
    if rows == [] then 0
    else Recorded(cfg, rows[..|rows| - 1]) + if RowRecord(cfg, rows[|rows| - 1]).Some? then 1 else 0
  }

  /** bulk_record_verdicts: no automatic advance inside the batch, one probe at its end. */
  function AfterBulk(cfg: Config, s: State, rows: seq<BulkRow>): State {
    var batch := AfterRows(cfg, s.(autoAdvance := false), rows).(autoAdvance := s.autoAdvance);
    if s.autoAdvance && Recorded(cfg, rows) > 0 then AfterAdvance(cfg, batch.(sinceCheck := 0)) else batch
  }

  // ---------------------------------------------------------------------------
  // Reconciliation and migration
  // ---------------------------------------------------------------------------

  function RecordsSince(log: seq<Record>, cutoff: real): seq<Record> {
    if log == [] then []
    else
      var earlier := RecordsSince(log[..|log| - 1], cutoff);
      if log[|log| - 1].timestamp >= cutoff then earlier + [log[|log| - 1]] else earlier
  }

  /** The age limit alone. */
  function Recent(cfg: Config, log: seq<Record>, now: real): seq<Record> {
    if cfg.windowSeconds > 0.0 then RecordsSince(log, now - cfg.windowSeconds) else log
  }

  /** _recency_window */
  function Window(cfg: Config, log: seq<Record>, now: real): seq<Record> {
    var recent := Recent(cfg, log, now);
    if 0 < cfg.windowRecords < |recent| then recent[|recent| - cfg.windowRecords..] else recent
  }

  /** The re-justification of a phase above RULE stops the descent there. */
  predicate Holds(gate: Gate, window: seq<Record>, p: Phase) {
    p == Rule ||
    var a := Evaluate(gate, window, PrevPhase(p).value, p);
    a.Raised? || a.decision.targetBetter || a.decision.pairedSampleSize < DeclaredMinPaired(gate)
  }

  /** The phase the re-justification loop ends in. */
  function Settle(gate: Gate, window: seq<Record>, p: Phase): Phase
    decreases Order(p)
  {
    if Holds(gate, window, p) then p else Settle(gate, window, PrevPhase(p).value)
  }

  /** The ledger after the loop. */
  function SettleLedger(gate: Gate, window: seq<Record>, p: Phase, ledger: seq<Event>): (r: seq<Event>)
    ensures |r| >= |ledger|
    decreases Order(p)
  {
    if Holds(gate, window, p) then ledger + HoldEvents(gate, window, p)
    else SettleLedger(gate, window, PrevPhase(p).value, ledger + [Demoted(p)])
  }

  /** A phase that holds for lack of evidence is noted. */
  function HoldEvents(gate: Gate, window: seq<Record>, p: Phase): seq<Event> {
    if p == Rule then []
    else
      var a := Evaluate(gate, window, PrevPhase(p).value, p);
      if a.Raised? || a.decision.targetBetter then [] else [Held]
  }

  function CurrentSignature(s: State): Signature {
    SignatureOf(s.wiring, s.gate, s.gateIsDefault, s.version, s.head)
  }

  /** _save_signature and _load_signature: what is kept went through the audit form. */
  function Save(s: State): State {
    s.(saved := Some(FromAudit(ToAudit(CurrentSignature(s)))))
  }

  function Log(s: State, events: seq<Event>): State {
    s.(ledger := s.ledger + events)
  }

  /** The version a stored default identity names. */
  function PinnedVersion(gate: seq<PyValue>): Option<string> {
    if |gate| >= 2 && gate[1].Str? then Some(gate[1].s) else None
  }

  /** Only the default set differs: pin, do not re-grade. */
  predicate IsDefaultDrift(s: State, current: Signature, previous: Signature) {
    && Changed(current, previous) == [GateChanged]
    && s.gateIsDefault && IsDefaultIdentity(previous.gate)
  }

  predicate Quarantines(s: State, changed: seq<Component>) {
    && (JudgeChanged in changed || StrategyChanged in changed || LabelsChanged in changed)
    && (s.head.Head? || s.wiring.strategy.Some? || s.storedHead)
  }

  function AfterReconcile(cfg: Config, s: State, now: real): State {
    if s.saved.None? then Log(Save(s), [Adopted])
    else Reconciled(cfg, s, CurrentSignature(s), s.saved.value, now)
  }

  function Reconciled(cfg: Config, s: State, current: Signature, previous: Signature, now: real): State {
    if SameCore(previous, current) then Refreshed(s, current, previous)
    else if IsDefaultDrift(s, current, previous) then Repinned(cfg, s, PinnedVersion(previous.gate))
    else AfterSwap(cfg, s, Changed(current, previous), now)
  }

  /** No swap: note a drifted rule body, and keep the audit-only stamps fresh. */
  function Refreshed(s: State, current: Signature, previous: Signature): State {
    var drifted := previous.ruleDigest.Some? && current.ruleDigest.Some? && previous.ruleDigest != current.ruleDigest;
    var noted := if drifted then Log(s, [Advisory]) else s;
    if drifted || previous.headVersion != current.headVersion then Save(noted) else noted
  }

  function Repinned(cfg: Config, s: State, pinned: Option<string>): State {
    Save(Log(s.(gate := ResolveGate(cfg.sets, pinned), version := pinned), [Pinned]))
  }

  function AfterSwap(cfg: Config, s: State, changed: seq<Component>, now: real): State {
    Save(AfterQuarantine(AfterRegrade(cfg, s, now), changed))
  }

  function AfterRegrade(cfg: Config, s: State, now: real): State {
    var noted := Log(s, [Swapped]);
    if cfg.swapDemotes then Rejustified(noted, Window(cfg, s.log, now)) else noted
  }

  function Rejustified(s: State, window: seq<Record>): State {
    var to := Settle(s.gate, window, s.phase);
    s.(phase := to,
       sinceChange := if to == s.phase then s.sinceChange else 0,
       ledger := SettleLedger(s.gate, window, s.phase, s.ledger))
  }

  function AfterQuarantine(s: State, changed: seq<Component>): State {
    if !Quarantines(s, changed) then s
    else Log(s.(storedHead := false, head := if s.wiring.strategy.Some? then NoHead else s.head), [Quarantined])
  }

  /** migrate_defaults re-justifies the phase: enough evidence, and a yes. */
  predicate MigrationEarned(cfg: Config, s: State, to: string, now: real) {
    s.phase == Rule ||
    var gate := ResolveGate(cfg.sets, Some(to));
    var a := Evaluate(gate, Window(cfg, s.log, now), PrevPhase(s.phase).value, s.phase);
    a.Answered? && a.decision.pairedSampleSize >= DeclaredMinPaired(gate) && a.decision.targetBetter
  }

  /** The new gate raises: the exception reaches the caller and nothing has changed. */
  predicate MigrationRaises(cfg: Config, s: State, to: string, now: real) {
    && s.gateIsDefault && s.version != Some(to) && s.phase != Rule
    && Evaluate(ResolveGate(cfg.sets, Some(to)), Window(cfg, s.log, now), PrevPhase(s.phase).value, s.phase).Raised?
  }

  function AfterMigrate(cfg: Config, s: State, to: string, acceptReset: bool, now: real): State {
    if !s.gateIsDefault || s.version == Some(to) || MigrationRaises(cfg, s, to, now) then s
    else
      var earned := MigrationEarned(cfg, s, to, now);
      if !earned && !acceptReset then Log(s, [MigrateRejected]) else AfterAdopt(cfg, s, to, earned)
  }

  /** The new defaults are adopted; unless the phase is earned under them the switch starts over at RULE. */
  function AfterAdopt(cfg: Config, s: State, to: string, earned: bool): State {
    var adopted := s.(gate := ResolveGate(cfg.sets, Some(to)), version := Some(to));
    if earned then Log(Save(adopted), [Migrated]) else Log(Save(adopted.(phase := Rule, sinceChange := 0)), [MigrateReset])
  }

  // ---------------------------------------------------------------------------
  // Runs
  // ---------------------------------------------------------------------------

  datatype Op =
    | RecordVerdict(record: Record)
    | BulkRecord(rows: seq<BulkRow>)
    | Advance
    | Demote(reason: string)
    | Reconcile(now: real)
    | Migrate(to: string, acceptReset: bool, at: real)
    | Rewire(wiring: Wiring, head: Head, storedHead: bool)
    | AutoLog(observation: Record)

  function Step(cfg: Config, s: State, op: Op): State {
    match op
    case RecordVerdict(r) => AfterVerdict(cfg, s, r)
    case BulkRecord(rows) => AfterBulk(cfg, s, rows)
    case Advance => AfterAdvance(cfg, s)
    case Demote(reason) => if Blank(reason) then s else AfterDemote(s)
    case Reconcile(now) => AfterReconcile(cfg, s, now)
    case Migrate(to, acceptReset, now) => AfterMigrate(cfg, s, to, acceptReset, now)
    case Rewire(wiring, head, storedHead) => s.(wiring := wiring, head := head, storedHead := storedHead)
    case AutoLog(r) => s.(log := s.log + [r])
  }

  function Run(cfg: Config, s: State, ops: seq<Op>): State {
    if ops == [] then s else Step(cfg, Run(cfg, s, ops[..|ops| - 1]), ops[|ops| - 1])
  }

  // ---------------------------------------------------------------------------
  // The lifecycle invariant
  // ---------------------------------------------------------------------------

  /** What SwitchConfig.__post_init__ leaves of a limit. */
  predicate LimitIsCapped(cfg: Config) {
    cfg.safetyCritical ==> Order(cfg.limit) <= Order(MlWithFallback)
  }

  ghost predicate Invariant(cfg: Config, s: State) {
    && LimitIsCapped(cfg)
    && Order(s.phase) <= Order(cfg.limit)
    && (s.gateIsDefault ==> s.gate == ResolveGate(cfg.sets, s.version))
  }

  /** A safety-critical switch keeps its rule floor. */
  lemma SafetyCriticalNeverServesMlPrimary(cfg: Config, s: State)
    requires Invariant(cfg, s) && cfg.safetyCritical
    ensures s.phase != MlPrimary
  {
  }

  lemma {:induction false} RowsKeepInvariant(cfg: Config, s: State, rows: seq<BulkRow>)
    requires Invariant(cfg, s) && !s.autoAdvance
    ensures var t := AfterRows(cfg, s, rows);
            Invariant(cfg, t) && !t.autoAdvance && Order(t.phase) <= Order(s.phase)
            && t.gate == s.gate && t.gateIsDefault == s.gateIsDefault && t.version == s.version
  {
    if rows != [] { RowsKeepInvariant(cfg, s, rows[..|rows| - 1]); }
  }

  lemma {:induction false} SettleDescends(gate: Gate, window: seq<Record>, p: Phase)
    ensures Order(Settle(gate, window, p)) <= Order(p)
    ensures Holds(gate, window, Settle(gate, window, p))
    ensures forall q :: Order(Settle(gate, window, p)) < Order(q) <= Order(p) ==> !Holds(gate, window, q)
    decreases Order(p)
  {
    if !Holds(gate, window, p) {
      SettleDescends(gate, window, PrevPhase(p).value);
      assert forall q :: Order(q) == Order(p) ==> q == p;
    }
  }

  /** The demotions of a descent: one for each phase left behind, from the top down. */
  function Demotions(p: Phase, q: Phase): (r: seq<Event>)
    requires Order(q) <= Order(p)
  {
    seq(Order(p) - Order(q), i requires 0 <= i < Order(p) - Order(q) => Demoted(PHASES[Order(p) - i]))
  }

  lemma OneMoreDemotion(p: Phase, q: Phase, ledger: seq<Event>, more: seq<Event>)
    requires p != Rule && Order(q) < Order(p)
    ensures ledger + Demotions(p, q) + more == (ledger + [Demoted(p)]) + Demotions(PrevPhase(p).value, q) + more
  {
    assert Demotions(p, q) == [Demoted(p)] + Demotions(PrevPhase(p).value, q);
  }

  /** The loop writes one entry for each demotion, and one more if the phase it ends in holds for want of evidence. */
  lemma {:induction false} SettleIsLogged(gate: Gate, window: seq<Record>, p: Phase, ledger: seq<Event>)
    ensures var q := Settle(gate, window, p);
            Order(q) <= Order(p) && SettleLedger(gate, window, p, ledger) == ledger + Demotions(p, q) + HoldEvents(gate, window, q)
    ensures var q := Settle(gate, window, p);
            HoldEvents(gate, window, q)
            == if q != Rule && Evaluate(gate, window, PrevPhase(q).value, q).Answered? && !SaysBetter(gate, window, PrevPhase(q).value, q)
               then [Held] else []
    decreases Order(p)
  {
    if !Holds(gate, window, p) {
      var q := Settle(gate, window, p);
      SettleIsLogged(gate, window, PrevPhase(p).value, ledger + [Demoted(p)]);
      OneMoreDemotion(p, q, ledger, HoldEvents(gate, window, q));
    }
  }

  /** The operations that may raise the phase. */
  predicate MayRaise(op: Op) {
    op.Advance? || op.RecordVerdict? || op.BulkRecord?
  }

  /**
   t is a lawful outcome of one operation on s: an operator's own gate is never replaced, and a raise
   is by one phase and was approved by the gate on t's log.
   */
  ghost predicate Lawful(cfg: Config, s: State, t: State, mayRaise: bool) {
    && Invariant(cfg, t)
    && t.gateIsDefault == s.gateIsDefault && (!s.gateIsDefault ==> t.gate == s.gate)
    && (Order(t.phase) > Order(s.phase) ==>
          && mayRaise && NextPhase(s.phase) == Some(t.phase)
          && t.sinceChange == 0 && SaysBetter(t.gate, t.log, s.phase, t.phase))
  }

  /**
   Under the invariant advance() moves exactly when the limit lies above and the gate says yes to the
   next phase on the whole log; it moves one up, restarts the cooldown and touches nothing else.
   */
  lemma AdvanceRaisesIff(cfg: Config, s: State)
    requires Invariant(cfg, s)
    ensures var t := AfterAdvance(cfg, s);
            if Order(s.phase) < Order(cfg.limit) && SaysBetter(s.gate, s.log, s.phase, PHASES[Order(s.phase) + 1]) then
              Order(t.phase) == Order(s.phase) + 1 && t.sinceChange == 0 && t.(phase := s.phase, sinceChange := s.sinceChange) == s
            else t == s
  {
  }

  /** A demotion moves one down, restarts the cooldown and touches nothing else; at RULE there is nothing to do. */
  lemma DemoteIsOneDown(s: State)
    ensures var t := AfterDemote(s);
            if Order(s.phase) == 0 then t == s
            else Order(t.phase) == Order(s.phase) - 1 && t.sinceChange == 0 && t.(phase := s.phase, sinceChange := s.sinceChange) == s
  {
  }

  /** Besides the phase a verdict touches the log and the two counters only. */
  lemma VerdictTouches(cfg: Config, s: State, r: Record)
    ensures var t := AfterVerdict(cfg, s, r);
            && t.log == s.log + [r]
            && t.(phase := s.phase, sinceCheck := s.sinceCheck, sinceChange := s.sinceChange, log := s.log) == s
  {
  }

  /** What a row records: nothing unless its outcome is one of the three words and the storage takes it. */
  lemma RowLandsIff(cfg: Config, row: BulkRow)
    ensures RowRecord(cfg, row).Some?
            <==> (row.outcome == "correct" || row.outcome == "incorrect" || row.outcome == "unknown") && row.accepted
    ensures RowRecord(cfg, row).Some? ==>
              var r := RowRecord(cfg, row).value;
              && r.timestamp == row.timestamp && r.input == row.input && r.decision == row.decision
              && r.source == row.source && r.confidence == row.confidence && NoShadows(r)
              && (r.outcome == Correct <==> row.outcome == "correct") && (r.outcome == Incorrect <==> row.outcome == "incorrect")
  {
  }

  lemma VerdictIsLawful(cfg: Config, s: State, r: Record)
    requires Invariant(cfg, s)
    ensures Lawful(cfg, s, AfterVerdict(cfg, s, r), true)
  {
  }

  lemma BulkIsLawful(cfg: Config, s: State, rows: seq<BulkRow>)
    requires Invariant(cfg, s)
    ensures Lawful(cfg, s, AfterBulk(cfg, s, rows), true)
  {
    RowsKeepInvariant(cfg, s.(autoAdvance := false), rows);
    assert forall p, q :: Order(p) == Order(q) ==> p == q;
  }

  lemma SwapIsLawful(cfg: Config, s: State, changed: seq<Component>, now: real)
    requires Invariant(cfg, s)
    ensures Lawful(cfg, s, AfterSwap(cfg, s, changed, now), false)
  {
    SettleDescends(s.gate, Window(cfg, s.log, now), s.phase);
  }

  lemma RefreshedIsLawful(cfg: Config, s: State, current: Signature, previous: Signature)
    requires Invariant(cfg, s)
    ensures Lawful(cfg, s, Refreshed(s, current, previous), false)
  {
  }

  lemma RepinnedIsLawful(cfg: Config, s: State, pinned: Option<string>)
    requires Invariant(cfg, s) && s.gateIsDefault
    ensures Lawful(cfg, s, Repinned(cfg, s, pinned), false)
  {
  }

  lemma ReconciledIsLawful(cfg: Config, s: State, current: Signature, previous: Signature, now: real)
    requires Invariant(cfg, s)
    ensures Lawful(cfg, s, Reconciled(cfg, s, current, previous, now), false)
  {
    if SameCore(previous, current) {
      RefreshedIsLawful(cfg, s, current, previous);
    } else if IsDefaultDrift(s, current, previous) {
      RepinnedIsLawful(cfg, s, PinnedVersion(previous.gate));
    } else {
      SwapIsLawful(cfg, s, Changed(current, previous), now);
    }
  }

  lemma ReconcileIsLawful(cfg: Config, s: State, now: real)
    requires Invariant(cfg, s)
    ensures Lawful(cfg, s, AfterReconcile(cfg, s, now), false)
  {
    if s.saved.Some? {
      ReconciledIsLawful(cfg, s, CurrentSignature(s), s.saved.value, now);
    }
  }

  lemma MigrateIsLawful(cfg: Config, s: State, to: string, acceptReset: bool, now: real)
    requires Invariant(cfg, s)
    ensures Lawful(cfg, s, AfterMigrate(cfg, s, to, acceptReset, now), false)
  {
  }

  /**
   One operation keeps the invariant; only verdicts, batches and advance can raise the phase,
   by one, and only when the gate says yes to that very transition on the log as it then is.
   */
  lemma StepIsLawful(cfg: Config, s: State, op: Op)
    requires Invariant(cfg, s)
    ensures Lawful(cfg, s, Step(cfg, s, op), MayRaise(op))
  {
    match op
    case RecordVerdict(r) => VerdictIsLawful(cfg, s, r);
    case BulkRecord(rows) => BulkIsLawful(cfg, s, rows);
    case Advance =>
    case Demote(reason) =>
    case Reconcile(now) => ReconcileIsLawful(cfg, s, now);
    case Migrate(to, acceptReset, now) => MigrateIsLawful(cfg, s, to, acceptReset, now);
    case Rewire(_, _, _) =>
    case AutoLog(_) =>
  }

  /** Over every run of public calls. */
  lemma {:induction false} RunKeepsInvariant(cfg: Config, s: State, ops: seq<Op>)
    requires Invariant(cfg, s)
    ensures Invariant(cfg, Run(cfg, s, ops))
  {
    if ops != [] {
      RunKeepsInvariant(cfg, s, ops[..|ops| - 1]);
      StepIsLawful(cfg, Run(cfg, s, ops[..|ops| - 1]), ops[|ops| - 1]);
    }
  }
}
