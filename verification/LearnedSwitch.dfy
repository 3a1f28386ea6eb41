/** The switch itself: fields updated in place, each operation proved to follow its specification. */
module LearnedSwitch {
  import opened Evidence
  import opened Gates
  import opened Signals
  import opened Lifecycle
  import Cascade

  // ---------------------------------------------------------------------------
  // Configuration
  // ---------------------------------------------------------------------------

  /** The fields SwitchConfig.__post_init__ looks at. */
  datatype Request = Request(starting: Phase, legacyPhase: Option<Phase>, limit: Phase, safetyCritical: bool,
                             sampleRate: real, latencySlo: Option<real>)

  datatype Validated = Validated(starting: Phase, limit: Phase)

  /** SwitchConfig.__post_init__; None for a ValueError. */
  method PostInit(request: Request) returns (r: Option<Validated>)
    ensures r == Accepted(request)
    ensures r.None? <==>
              || (request.safetyCritical && EffectiveStart(request) == MlPrimary)
              || Order(EffectiveStart(request)) > Order(request.limit)
              || request.sampleRate < 0.0 || 1.0 < request.sampleRate
              || (request.latencySlo.Some? && request.latencySlo.value <= 0.0)
    ensures r.Some? ==>
              && r.value.starting == (if request.starting == Rule && request.legacyPhase.Some? then request.legacyPhase.value
                                      else request.starting)
              && Order(r.value.starting) <= Order(r.value.limit)
              && r.value.limit == (if request.safetyCritical && request.limit == MlPrimary then MlWithFallback else request.limit)
  {
    var starting, limit := request.starting, request.limit;
    if request.legacyPhase.Some? && starting == Rule {
      starting := request.legacyPhase.value;
    }
    if request.safetyCritical && starting == MlPrimary { return None; }
    if !(0.0 <= request.sampleRate <= 1.0) { return None; }
    if request.latencySlo.Some? && request.latencySlo.value <= 0.0 { return None; }
    if request.safetyCritical && Order(limit) > Order(MlWithFallback) {
      limit := MlWithFallback;
    }
    if Order(starting) > Order(limit) { return None; }
    return Some(Validated(starting, limit));
  }

  /** An explicit starting phase other than RULE beats the deprecated alias. */
  function EffectiveStart(request: Request): Phase {
    if request.starting != Rule || request.legacyPhase.None? then request.starting else request.legacyPhase.value
  }

  /** What a configuration must satisfy: the start under the limit and, if safety-critical, under ML_WITH_FALLBACK. */
  predicate Acceptable(request: Request) {
    && Order(EffectiveStart(request)) <= Order(request.limit)
    && (request.safetyCritical ==> Order(EffectiveStart(request)) <= Order(MlWithFallback))
    && 0.0 <= request.sampleRate <= 1.0
    && (request.latencySlo.Some? ==> request.latencySlo.value > 0.0)
  }

  function Accepted(request: Request): Option<Validated> {
    if !Acceptable(request) then None
    else Some(Validated(EffectiveStart(request),
                        if request.safetyCritical && request.limit == MlPrimary then MlWithFallback else request.limit))
  }

  // ---------------------------------------------------------------------------
  // Classification results
  // ---------------------------------------------------------------------------

  datatype Classification = Classification(decided: Cascade.Decided, phase: Phase, confidence: real, context: Context,
                                           modelConfidence: Option<real>, mlConfidence: Option<real>)

  datatype Refusal = RuleFloorRemoved | ModelMissing | HeadMissing

  datatype Outcome = Served(result: Classification) | Refused(reason: Refusal)

  function OutputOfAnswer(a: Option<Cascade.Answer>): Option<Label> {
    if a.Some? && a.value.Predicts? then a.value.choice else None
  }

  function ConfidenceOfAnswer(a: Option<Cascade.Answer>): Option<real> {
    if a.Some? && a.value.Predicts? then Some(a.value.confidence) else None
  }

  function Clamped(c: Option<real>): Option<real> {
    if c.Some? then Some(Cascade.Clamp(c.value)) else None
  }

  /** When classify raises before anything is decided. */
  function Precheck(p: Phase, safetyCritical: bool, tiers: Cascade.Tiers): Option<Refusal> {
    if safetyCritical && p == MlPrimary then Some(RuleFloorRemoved)
    else if (p == ModelShadow || p == ModelPrimary) && tiers.model.None? then Some(ModelMissing)
    else if Order(p) >= Order(MlShadow) && tiers.head.None? then Some(HeadMissing)
    else None
  }

  predicate HeadWins(p: Phase, threshold: real, tiers: Cascade.Tiers) {
    p == MlWithFallback && Cascade.Usable(tiers.head, Some(threshold))
  }

  /** The confidence of the model as it lands on the result: raw in the ML phases, clamped before them. */
  function ModelConfidenceSeen(p: Phase, tiers: Cascade.Tiers): Option<real> {
    var c := ConfidenceOfAnswer(tiers.model);
    if Order(p) <= Order(ModelPrimary) then Clamped(c) else c
  }

  /** The head's: raw where it is a shadow or has just been passed over, clamped where it is trusted. */
  function HeadConfidenceSeen(p: Phase, threshold: real, tiers: Cascade.Tiers): Option<real> {
    var c := ConfidenceOfAnswer(tiers.head);
    if p == MlPrimary || HeadWins(p, threshold, tiers) then Clamped(c) else c
  }

  /** Which tiers are called at all. */
  predicate CallsModel(p: Phase, threshold: real, tiers: Cascade.Tiers) {
    tiers.model.Some? && p != Rule && p != MlPrimary && !HeadWins(p, threshold, tiers)
  }

  predicate CallsHead(p: Phase, tripped: bool) {
    Order(p) >= Order(MlShadow) && !(p == MlPrimary && tripped)
  }

  /** The reported confidence: the model's is clamped at MODEL_PRIMARY but passed on raw in the ML phases. */
  function ReportedConfidence(d: Cascade.Decided, p: Phase, tiers: Cascade.Tiers): real {
    if d.source.FromModel? && tiers.model.Some? && tiers.model.value.Predicts? then
      if p == ModelPrimary then Cascade.Clamp(tiers.model.value.confidence) else tiers.model.value.confidence
    else if d.source.FromMl? && tiers.head.Some? && tiers.head.value.Predicts? then
      Cascade.Clamp(tiers.head.value.confidence)
    else 1.0
  }

  class Switch {
    const cfg: Config
    const threshold: real

    var phase: Phase
    var gate: Gate
    const gateIsDefault: bool
    var version: Option<string>
    var autoAdvance: bool
    var sinceCheck: nat
    var sinceChange: nat
    var log: seq<Record>
    var wiring: Wiring
    var head: Head
    var storedHead: bool
    var saved: Option<Signature>
    var ledger: seq<Event>
    var circuitTripped: bool

    ghost function View(): State
      reads this
    {
      State(phase, gate, gateIsDefault, version, autoAdvance, sinceCheck, sinceChange, log, wiring, head, storedHead,
            saved, ledger)
    }

    /** LearnedSwitch(...) over a validated configuration; the saved state is what the store holds. */
    constructor (cfg: Config, threshold: real, starting: Phase, gate: Option<Gate>, autoAdvance: bool,
                 log: seq<Record>, wiring: Wiring, head: Head, storedHead: bool, saved: Option<Signature>,
                 ledger: seq<Event>, tripped: bool)
      requires LimitIsCapped(cfg) && Order(starting) <= Order(cfg.limit)
      ensures this.cfg == cfg && this.threshold == threshold && circuitTripped == tripped
      ensures View() == State(starting,
                              if gate.Some? then gate.value else ResolveGate(cfg.sets, Some(CURRENT_DEFAULT_SET_VERSION)),
                              gate.None?, if gate.None? then Some(CURRENT_DEFAULT_SET_VERSION) else None,
                              autoAdvance, 0, 1_000_000_000, log, wiring, head, storedHead, saved, ledger)
      ensures Invariant(cfg, View())
    {
      this.cfg, this.threshold, this.phase := cfg, threshold, starting;
      this.gateIsDefault := gate.None?;
      this.gate := if gate.Some? then gate.value else ResolveGate(cfg.sets, Some(CURRENT_DEFAULT_SET_VERSION));
      this.version := if gate.None? then Some(CURRENT_DEFAULT_SET_VERSION) else None;
      this.autoAdvance, this.sinceCheck, this.sinceChange := autoAdvance, 0, 1_000_000_000;
      this.log, this.wiring, this.head, this.storedHead := log, wiring, head, storedHead;
      this.saved, this.ledger, this.circuitTripped := saved, ledger, tripped;
    }

    // -------------------------------------------------------------------------
    // Phase changes
    // -------------------------------------------------------------------------

    /** None when the gate raised. */
    method Advance() returns (r: Option<Decision>)
      modifies this`phase, this`sinceChange
      ensures View() == AfterAdvance(cfg, old(View()))
      ensures CanAdvance(cfg, old(View())) <==> r.Some? && r.value.targetBetter
    {
      var current := phase;
      var target := NextPhase(current);
      if target.None? { return Some(Decision(false, 0)); }
      if Order(target.value) > Order(cfg.limit) { return Some(Decision(false, 0)); }
      if cfg.safetyCritical && target.value == MlPrimary { return Some(Decision(false, 0)); }
      var answer := Evaluate(gate, log, current, target.value);
      if answer.Raised? { return None; }
      if answer.decision.targetBetter {
        phase := target.value;
        sinceChange := 0;
      }
      return Some(answer.decision);
    }

    /** None for the ValueError on a blank reason; otherwise whether the phase moved. */
    method Demote(reason: string) returns (moved: Option<bool>)
      modifies this`phase, this`sinceChange
      ensures View() == if Blank(reason) then old(View()) else AfterDemote(old(View()))
      ensures moved == if Blank(reason) then None else Some(old(phase) != Rule)
    {
      if Blank(reason) { return None; }
      var target := PrevPhase(phase);
      if target.None? { return Some(false); }
      phase := target.value;
      sinceChange := 0;
      return Some(true);
    }

    method MaybeAutoDemote() returns (demoted: bool)
      modifies this`phase, this`sinceChange
      ensures demoted <==> DriftFires(cfg, old(View()))
      ensures demoted <==> old(phase) != Rule && SaysBetter(cfg.driftGate, log, old(phase), Rule)
      ensures View() == if demoted then AfterDemote(old(View())) else old(View())
    {
      if phase == Rule { return false; }
      var answer := Evaluate(cfg.driftGate, log, phase, Rule);
      if answer.Raised? || !answer.decision.targetBetter { return false; }
      phase, sinceChange := PrevPhase(phase).value, 0;
      return true;
    }

    // -------------------------------------------------------------------------
    // Verdicts
    // -------------------------------------------------------------------------

    /** False when record_verdict raises: an unknown outcome, or a storage that refuses the record. */
    method RecordVerdict(timestamp: real, input: Input, decision: Option<Label>, outcome: string, source: string,
                         confidence: real, context: Option<Context>, accepted: bool) returns (recorded: bool)
      modifies this`phase, this`sinceChange, this`sinceCheck, this`log
      ensures recorded <==> ParseVerdict(outcome).Some? && accepted
      ensures recorded <==> (outcome == "correct" || outcome == "incorrect" || outcome == "unknown") && accepted
      ensures recorded ==> |log| == |old(log)| + 1 && log[..|old(log)|] == old(log)
      ensures recorded ==>
                var r := log[|old(log)|];
                && r.timestamp == timestamp && r.input == input && r.decision == decision
                && r.source == source && r.confidence == confidence && (r.outcome == Correct <==> outcome == "correct")
                && (context.Some? ==> r.modelOutput == context.value.modelOutput && r.mlOutput == context.value.mlOutput)
      ensures View() == if recorded then
                          AfterVerdict(cfg, old(View()), BuildRecord(cfg.judge, timestamp, input, decision,
                                                                     ParseVerdict(outcome).value, source, confidence, context))
                        else old(View())
    {
      var verdict := ParseVerdict(outcome);
      if verdict.None? || !accepted { return false; }
      var record := BuildRecord(cfg.judge, timestamp, input, decision, verdict.value, source, confidence, context);
      log := log + [record];
      AutoEvaluate();
      return true;
    }

    /** The tail of record_verdict. */
    method AutoEvaluate()
      modifies this`phase, this`sinceChange, this`sinceCheck
      ensures View() == AfterCheck(cfg, old(View()))
    {
      if autoAdvance || cfg.autoDemote {
        var shouldCheck := false;
        sinceCheck, sinceChange := sinceCheck + 1, sinceChange + 1;
        if sinceCheck >= cfg.interval && sinceChange >= cfg.cooldown {
          sinceCheck := 0;
          shouldCheck := true;
        }
        if shouldCheck {
          var demoted := false;
          if cfg.autoDemote { demoted := MaybeAutoDemote(); }
          if !demoted && autoAdvance { var _ := Advance(); }
        }
      }
    }

    /** Returns the summary's recorded and failed counts. */
    method BulkRecordVerdicts(rows: seq<BulkRow>) returns (recorded: nat, failed: nat)
      modifies this`phase, this`sinceChange, this`sinceCheck, this`log, this`autoAdvance
      ensures View() == AfterBulk(cfg, old(View()), rows)
      ensures recorded == Recorded(cfg, rows) && recorded + failed == |rows|
    {
      ghost var start := View().(autoAdvance := false);
      var prior := autoAdvance;
      autoAdvance := false;
      recorded, failed := 0, 0;
      for i := 0 to |rows|
        invariant View() == AfterRows(cfg, start, rows[..i])
        invariant !autoAdvance
        invariant recorded == Recorded(cfg, rows[..i]) && recorded + failed == i
      {
        assert rows[..i + 1][..i] == rows[..i];
        var row := rows[i];
        var ok := RecordVerdict(row.timestamp, row.input, row.decision, row.outcome, row.source, row.confidence, None,
                                row.accepted);
        if ok { recorded := recorded + 1; } else { failed := failed + 1; }
      }
      assert rows[..|rows|] == rows;
      autoAdvance := prior;
      if prior && recorded > 0 {
        sinceCheck := 0;
        var _ := Advance();
      }
    }

    // -------------------------------------------------------------------------
    // Signals
    // -------------------------------------------------------------------------

    method AppendLedger(event: Event)
      modifies this`ledger
      ensures View() == Log(old(View()), [event])
    {
      ledger := ledger + [event];
    }

    method SaveSignature()
      modifies this`saved
      ensures View() == Save(old(View()))
    {
      saved := Some(FromAudit(ToAudit(SignatureOf(wiring, gate, gateIsDefault, version, head))));
    }

    method ReconcileSignals(now: real)
      modifies this`phase, this`sinceChange, this`gate, this`version, this`ledger, this`saved, this`head, this`storedHead
      ensures View() == AfterReconcile(cfg, old(View()), now)
    {
      var current := SignatureOf(wiring, gate, gateIsDefault, version, head);
      if saved.None? {
        SaveSignature();
        AppendLedger(Adopted);
        return;
      }
      var previous := saved.value;
      if SameCore(previous, current) {
        var drifted := previous.ruleDigest.Some? && current.ruleDigest.Some? && previous.ruleDigest != current.ruleDigest;
        if drifted { AppendLedger(Advisory); }
        if drifted || previous.headVersion != current.headVersion { SaveSignature(); }
        return;
      }
      var changed := ChangedComponents(current, previous);
      if changed == [GateChanged] && gateIsDefault && IsDefaultIdentity(previous.gate) {
        var pinned := PinnedVersion(previous.gate);
        gate, version := ResolveGate(cfg.sets, pinned), pinned;
        AppendLedger(Pinned);
        SaveSignature();
        return;
      }
      FinishSwap(changed, now);
    }

    /** The rest of reconcile_signals, once a swap is detected. */
    method FinishSwap(changed: seq<Component>, now: real)
      modifies this`phase, this`sinceChange, this`ledger, this`saved, this`head, this`storedHead
      ensures View() == AfterSwap(cfg, old(View()), changed, now)
    {
      Regrade(now);
      Quarantine(changed);
      SaveSignature();
    }

    method Regrade(now: real)
      modifies this`phase, this`sinceChange, this`ledger
      ensures View() == AfterRegrade(cfg, old(View()), now)
    {
      AppendLedger(Swapped);
      if cfg.swapDemotes { Rejustify(Window(cfg, log, now)); }
    }

    method Quarantine(changed: seq<Component>)
      modifies this`ledger, this`head, this`storedHead
      ensures View() == AfterQuarantine(old(View()), changed)
    {
      if (JudgeChanged in changed || StrategyChanged in changed || LabelsChanged in changed)
         && (head.Head? || wiring.strategy.Some? || storedHead) {
        storedHead := false;
        if wiring.strategy.Some? { head := NoHead; }
        AppendLedger(Quarantined);
      }
    }

    method Rejustify(window: seq<Record>)
      modifies this`phase, this`sinceChange, this`ledger
      ensures View() == Rejustified(old(View()), window)
    {
      Descend(window);
    }

    /** The re-justification loop. */
    method Descend(window: seq<Record>)
      modifies this`phase, this`sinceChange, this`ledger
      ensures phase == Settle(gate, window, old(phase))
      ensures sinceChange == if phase == old(phase) then old(sinceChange) else 0
      ensures ledger == SettleLedger(gate, window, old(phase), old(ledger))
    {
      ghost var start, since := phase, sinceChange;
      ghost var total, bottom := SettleLedger(gate, window, phase, ledger), Settle(gate, window, phase);
      var stepped := true;
      while stepped
        invariant Order(phase) <= Order(start)
        invariant bottom == if stepped then Settle(gate, window, phase) else phase
        invariant total == if stepped then SettleLedger(gate, window, phase, ledger) else ledger
        invariant sinceChange == if phase == start then since else 0
        decreases stepped, Order(phase)
      {
        stepped := StepDown(window);
      }
    }

    /** One round of the loop: whether it demoted. */
    method StepDown(window: seq<Record>) returns (stepped: bool)
      modifies this`phase, this`sinceChange, this`ledger
      ensures stepped <==> !Holds(gate, window, old(phase))
      ensures stepped ==> old(phase) != Rule && phase == PrevPhase(old(phase)).value && sinceChange == 0
      ensures !stepped ==> phase == old(phase) && sinceChange == old(sinceChange)
      ensures ledger == old(ledger) + if stepped then [Demoted(old(phase))] else HoldEvents(gate, window, old(phase))
    {
      if phase == Rule { return false; }
      var answer := Evaluate(gate, window, PrevPhase(phase).value, phase);
      if answer.Raised? || answer.decision.targetBetter { return false; }
      if answer.decision.pairedSampleSize < DeclaredMinPaired(gate) {
        ledger := ledger + [Held];
        return false;
      }
      phase, sinceChange, ledger := PrevPhase(phase).value, 0, ledger + [Demoted(phase)];
      return true;
    }

    /** migrate_defaults: whether it reports success; None when the new gate raises. */
    method MigrateDefaults(to: string, acceptReset: bool, now: real) returns (migrated: Option<bool>)
      modifies this`phase, this`sinceChange, this`gate, this`version, this`ledger, this`saved
      ensures View() == AfterMigrate(cfg, old(View()), to, acceptReset, now)
      ensures migrated.None? <==> MigrationRaises(cfg, old(View()), to, now)
      ensures migrated.Some? ==> (migrated.value <==> gateIsDefault && version == Some(to))
    {
      if !gateIsDefault { return Some(false); }
      if version == Some(to) { return Some(true); }
      var ok := Reearned(to, now);
      if ok.None? { return None; }
      if !ok.value && !acceptReset {
        AppendLedger(MigrateRejected);
        return Some(false);
      }
      Adopt(to, ok.value);
      return Some(true);
    }

    method Adopt(to: string, earned: bool)
      requires !earned ==> phase != Rule
      modifies this`phase, this`sinceChange, this`gate, this`version, this`ledger, this`saved
      ensures View() == AfterAdopt(cfg, old(View()), to, earned)
    {
      SwitchDefaults(to);
      if !earned { ResetToRule(); }
      SaveSignature();
      AppendLedger(if earned then Migrated else MigrateReset);
    }

    /** Whether the new default gate re-justifies the phase; None when it raises. */
    method Reearned(to: string, now: real) returns (ok: Option<bool>)
      ensures ok.None? <==> phase != Rule && Evaluate(ResolveGate(cfg.sets, Some(to)), Window(cfg, log, now),
                                                      PrevPhase(phase).value, phase).Raised?
      ensures ok.Some? ==> (ok.value <==> MigrationEarned(cfg, View(), to, now))
    {
      if phase == Rule { return Some(true); }
      var newGate := ResolveGate(cfg.sets, Some(to));
      var answer := Evaluate(newGate, Window(cfg, log, now), PrevPhase(phase).value, phase);
      if answer.Raised? { return None; }
      return Some(answer.decision.pairedSampleSize >= DeclaredMinPaired(newGate) && answer.decision.targetBetter);
    }

    method SwitchDefaults(to: string)
      modifies this`gate, this`version
      ensures View() == old(View()).(gate := ResolveGate(cfg.sets, Some(to)), version := Some(to))
    {
      gate, version := ResolveGate(cfg.sets, Some(to)), Some(to);
    }

    /** The demotions of an accepted reset. */
    method ResetToRule()
      requires phase != Rule
      modifies this`phase, this`sinceChange
      ensures View() == old(View()).(phase := Rule, sinceChange := 0)
    {
      while phase != Rule
        invariant sinceChange == if phase == old(phase) then old(sinceChange) else 0
        invariant Order(phase) <= Order(old(phase))
        decreases Order(phase)
      {
        phase, sinceChange := PrevPhase(phase).value, 0;
      }
    }

    // -------------------------------------------------------------------------
    // Classification
    // -------------------------------------------------------------------------

    /** _phase_primary_decision: the model when it is configured and usable, else the rule. */
    method PrimaryDecision(tiers: Cascade.Tiers) returns (r: Classification, modelCalled: bool)
      ensures modelCalled <==> tiers.model.Some?
      ensures r.decided == Cascade.DecideAmong([Cascade.ModelTier], tiers, Some(threshold))
      ensures r == Classification(r.decided, phase, r.confidence,
                                  Context(tiers.rule, OutputOfAnswer(tiers.model), None), ConfidenceOfAnswer(tiers.model), None)
      ensures r.confidence == if r.decided.source.FromModel? then ConfidenceOfAnswer(tiers.model).value else 1.0
    {
      var byRule := Classification(Cascade.Decided(tiers.rule, Cascade.FromRule), phase, 1.0,
                                   Context(tiers.rule, None, None), None, None);
      if tiers.model.None? { return byRule, false; }
      if tiers.model.value.Raises? {
        return byRule.(decided := Cascade.Decided(tiers.rule, Cascade.FromRuleFallback)), true;
      }
      var prediction := tiers.model.value;
      var observed := byRule.(context := Context(tiers.rule, prediction.choice, None), modelConfidence := Some(prediction.confidence));
      if !Cascade.IsRealLabel(prediction.choice) || prediction.confidence < threshold {
        return observed.(decided := Cascade.Decided(tiers.rule, Cascade.FromRuleFallback)), true;
      }
      return observed.(decided := Cascade.Decided(prediction.choice, Cascade.FromModel), confidence := prediction.confidence), true;
    }

    /** What the fields of a served result are, besides the decision. */
    ghost predicate Faithful(c: Classification, tiers: Cascade.Tiers, modelCalled: bool, headCalled: bool)
      reads this`phase
    {
      && c.phase == phase
      && c.context.ruleOutput == tiers.rule
      && c.context.modelOutput == (if modelCalled then OutputOfAnswer(tiers.model) else None)
      && c.context.mlOutput == (if headCalled then OutputOfAnswer(tiers.head) else None)
      && c.modelConfidence == (if modelCalled then ModelConfidenceSeen(phase, tiers) else None)
      && c.mlConfidence == (if headCalled then HeadConfidenceSeen(phase, threshold, tiers) else None)
      && c.confidence == ReportedConfidence(c.decided, phase, tiers)
    }

    /** _classify_impl, with what the configured tiers would do on the input. */
    method Classify(tiers: Cascade.Tiers) returns (outcome: Outcome, modelCalled: bool, headCalled: bool)
      modifies this`circuitTripped
      ensures outcome.Refused? <==> Precheck(phase, cfg.safetyCritical, tiers).Some?
      ensures outcome.Refused? ==>
                Precheck(phase, cfg.safetyCritical, tiers) == Some(outcome.reason) && !modelCalled && !headCalled
      ensures outcome.Served? ==>
                && (modelCalled <==> CallsModel(phase, threshold, tiers))
                && (headCalled <==> CallsHead(phase, old(circuitTripped)))
                && Faithful(outcome.result, tiers, modelCalled, headCalled)
                && (phase != MlPrimary ==> outcome.result.decided == Cascade.Decide(phase, threshold, tiers))
                && (phase == MlPrimary ==>
                      (outcome.result.decided, circuitTripped, headCalled)
                      == Cascade.ServeMlPrimary(old(circuitTripped), tiers))
      ensures outcome.Refused? || phase != MlPrimary ==> circuitTripped == old(circuitTripped)
      ensures outcome == Refused(RuleFloorRemoved) <==> cfg.safetyCritical && phase == MlPrimary
      ensures outcome == Refused(ModelMissing) <==> (phase == ModelShadow || phase == ModelPrimary) && tiers.model.None?
      ensures outcome == Refused(HeadMissing) <==>
                (phase == MlShadow || phase == MlWithFallback || (phase == MlPrimary && !cfg.safetyCritical)) && tiers.head.None?
      ensures outcome.Served? && phase == MlPrimary ==>
                && var d := outcome.result.decided;
                && tiers.head.Some?
                && (d.source == Cascade.FromMl <==>
                      !old(circuitTripped) && tiers.head.value.Predicts? && Cascade.IsRealLabel(tiers.head.value.choice))
                && (d.source == Cascade.FromMl ==> d.choice == tiers.head.value.choice)
                && (d.source != Cascade.FromMl ==> d == Cascade.Decided(tiers.rule, Cascade.FromRuleFallback))
                && (circuitTripped <==> old(circuitTripped) || tiers.head.value.Raises?)
      ensures outcome.Served? ==>
                && outcome.result.context.ruleOutput == tiers.rule
                && (modelCalled && tiers.model.value.Predicts? ==> outcome.result.context.modelOutput == tiers.model.value.choice)
                && (headCalled && tiers.head.value.Predicts? ==> outcome.result.context.mlOutput == tiers.head.value.choice)
    {
      modelCalled, headCalled := false, false;
      if cfg.safetyCritical && phase == MlPrimary { return Refused(RuleFloorRemoved), false, false; }
      var byRule := Classification(Cascade.Decided(tiers.rule, Cascade.FromRule), phase, 1.0,
                                   Context(tiers.rule, None, None), None, None);
      match phase
      case Rule => outcome := Served(byRule);
      case ModelShadow =>
        if tiers.model.None? { return Refused(ModelMissing), false, false; }
        modelCalled := true;
        outcome := Served(byRule.(context := Context(tiers.rule, OutputOfAnswer(tiers.model), None),
                                  modelConfidence := Clamped(ConfidenceOfAnswer(tiers.model))));
      case ModelPrimary =>
        if tiers.model.None? { return Refused(ModelMissing), false, false; }
        var primary;
        primary, modelCalled := PrimaryDecision(tiers);
        outcome := Served(primary.(confidence := Cascade.Clamp(primary.confidence), modelConfidence := Clamped(primary.modelConfidence)));
      case MlShadow =>
        if tiers.head.None? { return Refused(HeadMissing), false, false; }
        var primary;
        primary, modelCalled := PrimaryDecision(tiers);
        headCalled := true;
        outcome := Served(primary.(context := primary.context.(mlOutput := OutputOfAnswer(tiers.head)),
                                   mlConfidence := ConfidenceOfAnswer(tiers.head)));
      case MlWithFallback =>
        if tiers.head.None? { return Refused(HeadMissing), false, false; }
        var served;
        served, modelCalled := WithFallback(tiers);
        return Served(served), modelCalled, true;
      case MlPrimary =>
        if tiers.head.None? { return Refused(HeadMissing), false, false; }
        var served;
        served, headCalled := AtMlPrimary(tiers);
        return Served(served), false, headCalled;
    }

    /** ML_WITH_FALLBACK: the head on top of the predecessor's cascade. */
    method WithFallback(tiers: Cascade.Tiers) returns (c: Classification, modelCalled: bool)
      requires phase == MlWithFallback && tiers.head.Some?
      ensures modelCalled <==> CallsModel(phase, threshold, tiers)
      ensures c.decided == Cascade.Decide(MlWithFallback, threshold, tiers)
      ensures Faithful(c, tiers, modelCalled, true)
    {
      var mlOutput, mlConfidence := OutputOfAnswer(tiers.head), ConfidenceOfAnswer(tiers.head);
      assert Cascade.Active(MlWithFallback)[1..] == [Cascade.ModelTier];
      if mlConfidence.None? || mlConfidence.value < threshold || !Cascade.IsRealLabel(mlOutput) {
        c, modelCalled := PrimaryDecision(tiers);
        c := c.(context := c.context.(mlOutput := mlOutput), mlConfidence := mlConfidence);
        if c.decided.source == Cascade.FromRule {
          c := Classification(Cascade.Decided(c.decided.choice, Cascade.FromRuleFallback), phase, c.confidence,
                              Context(tiers.rule, None, mlOutput), None, mlConfidence);
        }
        assert Cascade.AnswerOf(tiers, Cascade.HeadTier).Some? && Cascade.HeadTier in Cascade.Active(MlWithFallback);
      } else {
        modelCalled := false;
        c := Classification(Cascade.Decided(mlOutput, Cascade.FromMl), phase, Cascade.Clamp(mlConfidence.value),
                            Context(tiers.rule, None, mlOutput), None, Clamped(mlConfidence));
      }
    }

    /** ML_PRIMARY: no threshold, and a breaker that opens on the first failure. */
    method AtMlPrimary(tiers: Cascade.Tiers) returns (c: Classification, called: bool)
      requires phase == MlPrimary && tiers.head.Some?
      modifies this`circuitTripped
      ensures (c.decided, circuitTripped, called) == Cascade.ServeMlPrimary(old(circuitTripped), tiers)
      ensures c.decided.source == Cascade.FromMl <==>
                !old(circuitTripped) && tiers.head.value.Predicts? && Cascade.IsRealLabel(tiers.head.value.choice)
      ensures c.decided.source == Cascade.FromMl ==> c.decided.choice == tiers.head.value.choice
      ensures c.decided.source != Cascade.FromMl ==> c.decided == Cascade.Decided(tiers.rule, Cascade.FromRuleFallback)
      ensures circuitTripped <==> old(circuitTripped) || tiers.head.value.Raises?
      ensures called <==> CallsHead(phase, old(circuitTripped))
      ensures Faithful(c, tiers, false, called)
    {
      var byRule := Classification(Cascade.Decided(tiers.rule, Cascade.FromRuleFallback), phase, 1.0,
                                   Context(tiers.rule, None, None), None, None);
      if circuitTripped { return byRule, false; }
      assert Cascade.AnswerOf(tiers, Cascade.HeadTier).Some? && Cascade.HeadTier in Cascade.Active(MlPrimary);
      if tiers.head.value.Raises? {
        circuitTripped := true;
        return byRule, true;
      }
      var prediction := tiers.head.value;
      var observed := byRule.(context := Context(tiers.rule, None, prediction.choice),
                              mlConfidence := Clamped(Some(prediction.confidence)));
      if !Cascade.IsRealLabel(prediction.choice) { return observed, true; }
      return observed.(decided := Cascade.Decided(prediction.choice, Cascade.FromMl),
                       confidence := Cascade.Clamp(prediction.confidence)), true;
    }

    method ResetCircuitBreaker()
      modifies this`circuitTripped
      ensures !circuitTripped
    {
      circuitTripped := false;
    }
  }

  /**
   A verdict on an answer the model or the head gave itself says nothing the drift gate can use:
   the record counts as the layer's own decision, whoever judged it.
   */
  lemma ServedAnswersHideDrift(p: Phase, threshold: real, tiers: Cascade.Tiers, context: Context, judge: Option<Judge>,
                               timestamp: real, input: Input, outcome: Verdict, source: string, confidence: real)
    requires p != Rule && p != ModelShadow
    requires var d := Cascade.Decide(p, threshold, tiers);
             if Order(p) <= Order(MlShadow) then
               d.source.FromModel? && context.modelOutput == OutputOfAnswer(tiers.model)
             else
               d.source.FromMl? && context.mlOutput == OutputOfAnswer(tiers.head)
    ensures DecidedByLayer(BuildRecord(judge, timestamp, input, Cascade.Decide(p, threshold, tiers).choice, outcome, source,
                                       confidence, Some(context)),
                           SourceField(p), RuleOutput)
  {
    Cascade.OnlyUsableLabelsAreServed(p, threshold, tiers);
  }

  predicate InRange(c: real) {
    0.0 <= c <= 1.0
  }

  /** The head, where it comes first, does not decide. */
  predicate ModelIsAsked(p: Phase, threshold: real, tiers: Cascade.Tiers) {
    p == MlShadow || (p == MlWithFallback && !Cascade.Usable(tiers.head, Some(threshold)))
  }

  /**
   The reported confidence leaves [0, 1] exactly when an ML phase falls back on the model and the
   model is usable with a confidence outside that range: the one path that does not clamp.
   */
  lemma ConfidenceInRangeIff(p: Phase, threshold: real, tiers: Cascade.Tiers)
    ensures InRange(ReportedConfidence(Cascade.Decide(p, threshold, tiers), p, tiers))
            <==> !(ModelIsAsked(p, threshold, tiers) && Cascade.Usable(tiers.model, Some(threshold))
                   && !InRange(tiers.model.value.confidence))
  {
    ModelDecidesIff(p, threshold, tiers);
  }

  /** When the model's answer is the one served. */
  lemma ModelDecidesIff(p: Phase, threshold: real, tiers: Cascade.Tiers)
    ensures Cascade.Decide(p, threshold, tiers).source.FromModel?
            <==> (p == ModelPrimary || ModelIsAsked(p, threshold, tiers)) && Cascade.Usable(tiers.model, Some(threshold))
  {
    Cascade.HeadDecidesIff(p, threshold, tiers);
    Cascade.ModelDecidesIff(p, threshold, tiers);
  }

  /** Confidences in range are reported as the deciding tier gave them, and those seen as the called tiers gave them; the rule is sure. */
  lemma ConfidencesAreTheTiers(p: Phase, threshold: real, tiers: Cascade.Tiers)
    requires tiers.model.Some? && tiers.model.value.Predicts? ==> InRange(tiers.model.value.confidence)
    requires tiers.head.Some? && tiers.head.value.Predicts? ==> InRange(tiers.head.value.confidence)
    ensures var d := Cascade.Decide(p, threshold, tiers);
            var reported := ReportedConfidence(d, p, tiers);
            && (d.source == Cascade.FromModel ==> reported == tiers.model.value.confidence)
            && (d.source == Cascade.FromMl ==> reported == tiers.head.value.confidence)
            && (d.source == Cascade.FromRule || d.source == Cascade.FromRuleFallback ==> reported == 1.0)
    ensures tiers.model.Some? && tiers.model.value.Predicts? ==> ModelConfidenceSeen(p, tiers) == Some(tiers.model.value.confidence)
    ensures tiers.head.Some? && tiers.head.value.Predicts? ==>
              HeadConfidenceSeen(p, threshold, tiers) == Some(tiers.head.value.confidence)
  {
    Cascade.OnlyUsableLabelsAreServed(p, threshold, tiers);
  }

  /** Who is asked: each tier where it decides or shadows, but for a model the head has pre-empted and a head behind the open breaker. */
  lemma WhoIsAsked(p: Phase, threshold: real, tiers: Cascade.Tiers, tripped: bool)
    ensures CallsModel(p, threshold, tiers)
            <==> tiers.model.Some? && (p == ModelShadow || p == ModelPrimary || p == MlShadow
                                       || (p == MlWithFallback && Cascade.Decide(p, threshold, tiers).source != Cascade.FromMl))
    ensures CallsHead(p, tripped) <==> p == MlShadow || p == MlWithFallback || (p == MlPrimary && !tripped)
  {
    Cascade.HeadDecidesIff(p, threshold, tiers);
  }

  /** In ML_SHADOW with a threshold of one half, a model that is 1.5 sure is reported as 1.5 sure. */
  method OverconfidentModel(s: Switch, rule: Option<Label>, head: Cascade.Answer) returns (outcome: Outcome)
    requires s.phase == MlShadow && s.threshold == 0.5
    modifies s`circuitTripped
    ensures outcome.Served? && outcome.result.confidence == 1.5
  {
    var tiers := Cascade.Tiers(rule, Some(Cascade.Predicts(Some(Value(7)), 1.5)), Some(head));
    var modelCalled, headCalled;
    outcome, modelCalled, headCalled := s.Classify(tiers);
    ModelDecidesIff(MlShadow, 0.5, tiers);
  }
}
