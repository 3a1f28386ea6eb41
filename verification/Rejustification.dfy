/** When a phase holds under re-justification, and what thin evidence does to it. */
module Rejustification {
  import opened McNemar
  import opened Evidence
  import opened Gates
  import opened Lifecycle

  /** The gate's answer on the step that leads to the phase. */
  function Grade(gate: Gate, window: seq<Record>, p: Phase): Answer
    requires p != Rule
  {
    Evaluate(gate, window, PrevPhase(p).value, p)
  }

  // ---------------------------------------------------------------------------
  // Every gate
  // ---------------------------------------------------------------------------

  /**
   For every gate, custom ones included: unless it raises or says yes, a phase above RULE holds
   exactly when the gate declares a min_paired above the sample size it reports.  So a gate that
   declares none never holds a phase for thin evidence, however thin.
   */
  lemma HoldsIff(gate: Gate, window: seq<Record>, p: Phase)
    requires p != Rule
    ensures Holds(gate, window, p)
            <==> Grade(gate, window, p).Raised? || SaysBetter(gate, window, PrevPhase(p).value, p)
                 || Grade(gate, window, p).decision.pairedSampleSize < DeclaredMinPaired(gate)
    ensures DeclaredMinPaired(gate) <= 0 ==>
              (Holds(gate, window, p) <==> Grade(gate, window, p).Raised? || SaysBetter(gate, window, PrevPhase(p).value, p))
  {
  }

  /** The evidence does not carry the phase, or any phase below it. */
  ghost predicate Unproven(gate: Gate, window: seq<Record>, p: Phase) {
    forall q :: 0 < Order(q) <= Order(p) ==>
      Grade(gate, window, q).Answered? && !SaysBetter(gate, window, PrevPhase(q).value, q)
  }

  /** Where a swap leaves a phase the evidence does not carry: a gate that declares no min_paired drops it to RULE. */
  lemma {:induction false} UndeclaredDropsToRule(gate: Gate, window: seq<Record>, p: Phase)
    requires DeclaredMinPaired(gate) <= 0 && Unproven(gate, window, p)
    ensures Settle(gate, window, p) == Rule
    decreases Order(p)
  {
    if p != Rule {
      HoldsIff(gate, window, p);
      UndeclaredDropsToRule(gate, window, PrevPhase(p).value);
    }
  }

  // ---------------------------------------------------------------------------
  // The library's gates
  // ---------------------------------------------------------------------------

  /** Made of the library's own gates, at every depth. */
  predicate BuiltIn(gate: Gate) {
    match gate
    case PhaseAwareGate(transitions, default) => BuiltIn(default) && forall t | t in transitions :: BuiltIn(transitions[t])
    case MinVolumeGate(inner, _) => BuiltIn(inner)
    case CompositeGate(gates, _) => forall i | 0 <= i < |gates| :: BuiltIn(gates[i])
    case CustomGate(_, _, _, _) => false
    case _ => true
  }

  /** The three gates that count pairs. */
  predicate Counts(gate: Gate) {
    gate.McNemarGate? || gate.AccuracyMarginGate? || gate.CostToleranceGate?
  }

  /**
   For these three the window decides by its number of pairs: with fewer than min_paired the phase
   holds, and with that many it holds exactly when the gate says yes.
   */
  lemma PairsDecideHold(gate: Gate, window: seq<Record>, p: Phase)
    requires Counts(gate) && p != Rule
    ensures var n := |Pairs(window, SourceField(PrevPhase(p).value), SourceField(p))|;
            Holds(gate, window, p) <==> n < gate.minPaired || SaysBetter(gate, window, PrevPhase(p).value, p)
  {
    SampleIsPairs(gate, window, PrevPhase(p).value, p);
  }

  /** n pairs are too few for the gate to say yes, whatever they are. */
  predicate TooFew(gate: Gate, n: nat, current: Phase, target: Phase) {
    match gate
    case McNemarGate(_, minPaired, _) => n < minPaired
    case AccuracyMarginGate(_, minPaired) => n < minPaired
    case CostToleranceGate(_, minPaired) => n < minPaired
    case ManualGate => true
    case PhaseAwareGate(transitions, default) =>
      if (current, target) in transitions then TooFew(transitions[(current, target)], n, current, target)
      else TooFew(default, n, current, target)
    case MinVolumeGate(inner, _) => TooFew(inner, n, current, target)
    case LatencyGate(tierLatency, slo) => target in tierLatency && tierLatency[target] > slo
    case CompositeGate(gates, all) =>
      if all then exists i | 0 <= i < |gates| :: TooFew(gates[i], n, current, target)
      else forall i | 0 <= i < |gates| :: TooFew(gates[i], n, current, target)
    case CustomGate(_, _, _, _) => false
  }

  /** The gate does not raise, and says no on too few pairs. */
  predicate AnswersThinly(gate: Gate, records: seq<Record>, current: Phase, target: Phase) {
    && Evaluate(gate, records, current, target).Answered?
    && (TooFew(gate, |Pairs(records, SourceField(current), SourceField(target))|, current, target)
        ==> !SaysBetter(gate, records, current, target))
  }

  lemma CompositeAnswers(gates: seq<Gate>, all: bool, records: seq<Record>, current: Phase, target: Phase)
    requires forall i :: 0 <= i < |gates| ==> AnswersThinly(gates[i], records, current, target)
    ensures AnswersThinly(CompositeGate(gates, all), records, current, target)
  {
    PartsDecide(gates, all, records, current, target);
  }

  lemma VolumeAnswers(inner: Gate, minRecords: int, records: seq<Record>, current: Phase, target: Phase)
    requires AnswersThinly(inner, records, current, target)
    ensures AnswersThinly(MinVolumeGate(inner, minRecords), records, current, target)
  {
  }

  lemma DispatchAnswers(gate: Gate, chosen: Gate, records: seq<Record>, current: Phase, target: Phase)
    requires gate.PhaseAwareGate?
    requires chosen == if (current, target) in gate.transitions then gate.transitions[(current, target)] else gate.default
    requires AnswersThinly(chosen, records, current, target)
    ensures AnswersThinly(gate, records, current, target)
  {
  }

  /** A library gate never raises, and says no on too few pairs. */
  lemma {:induction false} BuiltInAnswers(gate: Gate, records: seq<Record>, current: Phase, target: Phase)
    requires BuiltIn(gate)
    ensures AnswersThinly(gate, records, current, target)
  {
    match gate
    case PhaseAwareGate(transitions, default) =>
      var chosen := if (current, target) in transitions then transitions[(current, target)] else default;
      BuiltInAnswers(chosen, records, current, target);
      DispatchAnswers(gate, chosen, records, current, target);
    case MinVolumeGate(inner, minRecords) =>
      BuiltInAnswers(inner, records, current, target);
      VolumeAnswers(inner, minRecords, records, current, target);
    case CompositeGate(gates, all) =>
      forall i | 0 <= i < |gates| ensures AnswersThinly(gates[i], records, current, target) {
        BuiltInAnswers(gates[i], records, current, target);
      }
      CompositeAnswers(gates, all, records, current, target);
    case _ =>
  }

  /** Fewer pairs in the window than the gate can work with, on the step to the phase. */
  predicate Thin(gate: Gate, window: seq<Record>, p: Phase)
    requires p != Rule
  {
    TooFew(gate, |Pairs(window, SourceField(PrevPhase(p).value), SourceField(p))|, PrevPhase(p).value, p)
  }

  /** The library's gates that declare a min_paired are the three that count pairs themselves. */
  lemma DeclaresIff(gate: Gate)
    requires BuiltIn(gate) && gate.Valid()
    ensures DeclaredMinPaired(gate) > 0 <==> Counts(gate)
  {
  }

  /**
   "Insufficient evidence holds the phase" over the whole library: on thin evidence a phase holds,
   and stays settled, exactly when the gate is one of the three that count pairs.
   */
  lemma ThinEvidenceHoldsIff(gate: Gate, window: seq<Record>, p: Phase)
    requires BuiltIn(gate) && p != Rule && Thin(gate, window, p)
    ensures Holds(gate, window, p) <==> Counts(gate)
    ensures Settle(gate, window, p) == p <==> Counts(gate)
  {
    HoldsIff(gate, window, p);
    BuiltInAnswers(gate, window, PrevPhase(p).value, p);
    SettleDescends(gate, window, PrevPhase(p).value);
  }

  /** So a swap over a thin window keeps the phase under those three and drops it to RULE under every other. */
  lemma {:induction false} ThinWindowSettles(gate: Gate, window: seq<Record>, p: Phase)
    requires BuiltIn(gate)
    requires forall q :: 0 < Order(q) <= Order(p) ==> Thin(gate, window, q)
    ensures Settle(gate, window, p) == if Counts(gate) then p else Rule
    decreases Order(p)
  {
    if p != Rule {
      ThinEvidenceHoldsIff(gate, window, p);
      if !Counts(gate) { ThinWindowSettles(gate, window, PrevPhase(p).value); }
    }
  }

  // ---------------------------------------------------------------------------
  // Inputs
  // ---------------------------------------------------------------------------

  lemma {:induction false} PairsAreRecords(records: seq<Record>, x: Field, y: Field)
    ensures |Pairs(records, x, y)| <= |records|
  {
    if records != [] { PairsAreRecords(records[..|records| - 1], x, y); }
  }

  /** A window shorter than the default min_paired is thin for every gate that leaves the question to the default gates. */
  lemma ShortWindowIsThin(sets: DefaultSets, window: seq<Record>, q: Phase, minRecords: int)
    requires |window| < DEFAULT_MIN_PAIRED && q != Rule
    ensures Thin(DefaultMcNemar(sets), window, q) && Thin(DefaultPhaseAware(sets), window, q)
    ensures Thin(MinVolumeGate(DefaultMcNemar(sets), minRecords), window, q)
  {
    var current := PrevPhase(q).value;
    var n := |Pairs(window, SourceField(current), SourceField(q))|;
    PairsAreRecords(window, SourceField(current), SourceField(q));
    var cheap := CostToleranceGate(0.02, DEFAULT_MIN_PAIRED);
    assert TooFew(cheap, n, current, q) && TooFew(DefaultMcNemar(sets), n, current, q);
  }

  /** With fewer recent records than min_paired the v1 default keeps every phase and the v2 default drops every phase to RULE. */
  lemma ShortWindowSplitsTheDefaults(sets: DefaultSets, window: seq<Record>, p: Phase)
    requires |window| < DEFAULT_MIN_PAIRED
    ensures Settle(DefaultMcNemar(sets), window, p) == p
    ensures Settle(DefaultPhaseAware(sets), window, p) == Rule
  {
    forall q | 0 < Order(q) ensures Thin(DefaultMcNemar(sets), window, q) && Thin(DefaultPhaseAware(sets), window, q) {
      ShortWindowIsThin(sets, window, q, 1);
    }
    DefaultsAreBuiltIn(sets);
    ThinWindowSettles(DefaultMcNemar(sets), window, p);
    ThinWindowSettles(DefaultPhaseAware(sets), window, p);
  }

  lemma DefaultsAreBuiltIn(sets: DefaultSets)
    ensures BuiltIn(DefaultMcNemar(sets)) && BuiltIn(DefaultPhaseAware(sets))
  {
    assert BuiltIn(CostToleranceGate(0.02, DEFAULT_MIN_PAIRED)) && BuiltIn(DefaultMcNemar(sets));
  }

  /** Wrapping the default gate in a volume floor loses the hold: any short window drops every phase. */
  lemma VolumeFloorDropsToRule(sets: DefaultSets, minRecords: int, window: seq<Record>, p: Phase)
    requires |window| < DEFAULT_MIN_PAIRED
    ensures Settle(MinVolumeGate(DefaultMcNemar(sets), minRecords), window, p) == Rule
  {
    var gate := MinVolumeGate(DefaultMcNemar(sets), minRecords);
    DefaultsAreBuiltIn(sets);
    assert BuiltIn(gate);
    forall q | 0 < Order(q) ensures Thin(gate, window, q) { ShortWindowIsThin(sets, window, q, minRecords); }
    ThinWindowSettles(gate, window, p);
  }

  /** The plainest input: nothing recent at all. */
  lemma EmptyWindowDropsPhaseAware(sets: DefaultSets, p: Phase)
    ensures Settle(DefaultMcNemar(sets), [], p) == p
    ensures Settle(DefaultPhaseAware(sets), [], p) == Rule
  {
    ShortWindowSplitsTheDefaults(sets, [], p);
  }
}
