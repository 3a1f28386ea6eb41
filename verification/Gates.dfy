/** The graduation gates, the library's versioned default gates, and what they can never say. */
module Gates {
  import opened Binomial
  import opened McNemar
  import opened Evidence

  /** The binding part of a GateDecision: the answer and the evidence it rests on. */
  datatype Decision = Decision(targetBetter: bool, pairedSampleSize: nat)

  /** A gate either answers or raises. */
  datatype Answer = Raised | Answered(decision: Decision)

  type Transition = (Phase, Phase)

  datatype Gate =
    | McNemarGate(alpha: real, minPaired: int, approx: Approximation)
    | AccuracyMarginGate(margin: real, minPaired: int)
    | CostToleranceGate(margin: real, minPaired: int)
    | ManualGate
    | PhaseAwareGate(transitions: map<Transition, Gate>, default: Gate)
    | MinVolumeGate(inner: Gate, minRecords: int)
    | LatencyGate(tierLatency: map<Phase, real>, slo: real)
    | CompositeGate(gates: seq<Gate>, all: bool)
    | CustomGate(name: string, declaredAlpha: Option<real>, declaredMinPaired: Option<int>,
                 answer: (seq<Record>, Phase, Phase) -> Answer)
  {
    /** What the constructors accept. */
    predicate Valid() {
      match this
      case McNemarGate(alpha, minPaired, _) => 0.0 < alpha < 1.0 && 0 < minPaired
      case AccuracyMarginGate(margin, minPaired) => 0.0 <= margin < 1.0 && 0 < minPaired
      case CostToleranceGate(margin, minPaired) => 0.0 <= margin < 1.0 && 0 < minPaired
      case ManualGate => true
      case PhaseAwareGate(transitions, default) =>
        default.Valid() && forall t :: t in transitions ==> transitions[t].Valid()
      case MinVolumeGate(inner, minRecords) => 0 < minRecords && inner.Valid()
      case LatencyGate(_, slo) => 0.0 < slo
      case CompositeGate(gates, _) => gates != [] && forall i | 0 <= i < |gates| :: gates[i].Valid()
      case CustomGate(_, _, _, _) => true
    }
  }

  // ---------------------------------------------------------------------------
  // Decisions on the paired lists
  // ---------------------------------------------------------------------------

  /** viz.mcnemar_p on two parallel lists; None for empty ones. */
  function FastTest(approx: Approximation, s: seq<Pair>): Option<real> {
    if s == [] then None else Some(FastPValue(approx, Wins(s), Losses(s)))
  }

  function McNemarDecision(alpha: real, minPaired: int, approx: Approximation, s: seq<Pair>): Decision {
    if |s| < minPaired then Decision(false, |s|)
    else
      var p := FastTest(approx, s);
      Decision(p.Some? && p.value < alpha && Wins(s) > Losses(s), |s|)
  }

  /** target accuracy minus current accuracy on the pairs. */
  function Delta(s: seq<Pair>): real
    requires s != []
  {
    TargetRight(s) as real / |s| as real - CurrentRight(s) as real / |s| as real
  }

  function AccuracyMarginDecision(margin: real, minPaired: int, s: seq<Pair>): Decision {
    Decision(minPaired <= |s| && s != [] && Delta(s) > margin, |s|)
  }

  function CostToleranceDecision(margin: real, minPaired: int, s: seq<Pair>): Decision {
    Decision(minPaired <= |s| && s != [] && Delta(s) >= -margin, |s|)
  }

  /** The sample size a composite reports: the first positive one. */
  function FirstSample(answers: seq<Answer>): nat {
    if answers == [] then 0
    else if answers[0].Answered? && answers[0].decision.pairedSampleSize > 0 then answers[0].decision.pairedSampleSize
    else FirstSample(answers[1..])
  }

  /** CompositeGate.evaluate: raises if any part does; all or any of the parts must say yes. */
  function Combined(answers: seq<Answer>, all: bool): Answer {
    if exists i | 0 <= i < |answers| :: answers[i].Raised? then Raised
    else
      var yes :=
        if all then forall i | 0 <= i < |answers| :: answers[i].Answered? && answers[i].decision.targetBetter
        else exists i | 0 <= i < |answers| :: answers[i].Answered? && answers[i].decision.targetBetter;
      Answered(Decision(yes, FirstSample(answers)))
  }

  /** Gate.evaluate */
  function Evaluate(gate: Gate, records: seq<Record>, current: Phase, target: Phase): Answer
    decreases gate
  {
    var s := Pairs(records, SourceField(current), SourceField(target));
    match gate
    case McNemarGate(alpha, minPaired, approx) => Answered(McNemarDecision(alpha, minPaired, approx, s))
    case AccuracyMarginGate(margin, minPaired) => Answered(AccuracyMarginDecision(margin, minPaired, s))
    case CostToleranceGate(margin, minPaired) => Answered(CostToleranceDecision(margin, minPaired, s))
    case ManualGate => Answered(Decision(false, 0))
    case PhaseAwareGate(transitions, default) =>
      if (current, target) in transitions then Evaluate(transitions[(current, target)], records, current, target)
      else Evaluate(default, records, current, target)
    case MinVolumeGate(inner, minRecords) =>
      if |records| < minRecords then Answered(Decision(false, |records|)) else Evaluate(inner, records, current, target)
    case LatencyGate(tierLatency, slo) => Answered(Decision(target in tierLatency ==> tierLatency[target] <= slo, 0))
    case CompositeGate(gates, all) =>
      Combined(seq(|gates|, i requires 0 <= i < |gates| => Evaluate(gates[i], records, current, target)), all)
    case CustomGate(_, _, _, answer) => answer(records, current, target)
  }

  predicate SaysBetter(gate: Gate, records: seq<Record>, current: Phase, target: Phase) {
    var a := Evaluate(gate, records, current, target);
    a.Answered? && a.decision.targetBetter
  }

  /** getattr(gate, "min_paired", ...) or 0: only the three statistical gates declare one, and custom gates may. */
  function DeclaredMinPaired(gate: Gate): int {
    match gate
    case McNemarGate(_, minPaired, _) => minPaired
    case AccuracyMarginGate(_, minPaired) => minPaired
    case CostToleranceGate(_, minPaired) => minPaired
    case CustomGate(_, _, declared, _) => if declared.Some? then declared.value else 0
    case _ => 0
  }

  // ---------------------------------------------------------------------------
  // Default sets
  // ---------------------------------------------------------------------------

  const DEFAULT_ALPHA := 0.01
  const DEFAULT_MIN_PAIRED := 200
  const CURRENT_DEFAULT_SET_VERSION := "v1"

  /** Default sets registered beyond the embedded v1 and v2, and the normal approximation the built-in gates use. */
  datatype DefaultSets = DefaultSets(approx: Approximation, registered: map<string, Gate>)

  function DefaultMcNemar(sets: DefaultSets): Gate {
    McNemarGate(DEFAULT_ALPHA, DEFAULT_MIN_PAIRED, sets.approx)
  }

  function DefaultPhaseAware(sets: DefaultSets): Gate {
    PhaseAwareGate(map[(MlShadow, MlWithFallback) := CostToleranceGate(0.02, DEFAULT_MIN_PAIRED)], DefaultMcNemar(sets))
  }

  /** resolve_gate: embedded versions win, unknown ones fall back to the current version. */
  function ResolveGate(sets: DefaultSets, version: Option<string>): Gate {
    if version == Some("v1") then DefaultMcNemar(sets)
    else if version == Some("v2") then DefaultPhaseAware(sets)
    else if version.Some? && version.value in sets.registered then sets.registered[version.value]
    else DefaultMcNemar(sets)
  }

  // ---------------------------------------------------------------------------
  // What a "yes" means
  // ---------------------------------------------------------------------------

  /** A McNemar "yes" is backed by enough pairs, more wins than losses, and on a truthful log a truly better target. */
  lemma McNemarYesIsTrulyBetter(gate: Gate, records: seq<Record>, current: Phase, target: Phase, truth: Truth)
    requires gate.McNemarGate?
    requires forall i :: 0 <= i < |records| ==> Truthful(records[i], truth)
    requires SaysBetter(gate, records, current, target)
    ensures var x, y := SourceField(current), SourceField(target);
            && |Pairs(records, x, y)| >= gate.minPaired
            && TrulyRight(records, x, y, y, truth) > TrulyRight(records, x, y, x, truth)
  {
    PairedDifferenceIsTrue(records, SourceField(current), SourceField(target), truth);
  }

  /**
   When the McNemar gate says yes: enough pairs, more wins than losses, and a p-value under alpha,
   the exact one up to 50 discordant pairs and the approximation of (|b - c|, b + c) beyond.
   */
  lemma McNemarSaysYesIff(gate: Gate, records: seq<Record>, current: Phase, target: Phase)
    requires gate.McNemarGate? && gate.Valid()
    ensures var s := Pairs(records, SourceField(current), SourceField(target));
            var b, c := Wins(s), Losses(s);
            SaysBetter(gate, records, current, target)
            <==> gate.minPaired <= |s| && b > c
                 && if b + c <= 50 then PValue(b, c) < gate.alpha else gate.approx(AbsDiff(b, c), b + c) < gate.alpha
  {
    var s := Pairs(records, SourceField(current), SourceField(target));
    if Wins(s) + Losses(s) <= 50 { ImplementationsAgree(gate.approx, Wins(s), Losses(s)); }
  }

  /** The wins' lead over the losses, as a share of all the pairs. */
  function Lead(s: seq<Pair>): real
    requires s != []
  {
    (Wins(s) - Losses(s)) as real / |s| as real
  }

  lemma LeadIsDelta(s: seq<Pair>)
    requires s != []
    ensures Delta(s) == Lead(s)
  {
    DiscordantPairsAreTheDifference(s);
    QuotientDifference(TargetRight(s) as real, CurrentRight(s) as real, (Wins(s) - Losses(s)) as real, |s| as real);
  }

  lemma QuotientDifference(t: real, c: real, d: real, n: real)
    requires 0.0 < n && d == t - c
    ensures t / n - c / n == d / n
  {
  }

  /** When the superiority gate says yes: enough pairs, and the wins' lead beats the margin. */
  lemma AccuracyMarginSaysYesIff(gate: Gate, records: seq<Record>, current: Phase, target: Phase)
    requires gate.AccuracyMarginGate? && gate.Valid()
    ensures var s := Pairs(records, SourceField(current), SourceField(target));
            SaysBetter(gate, records, current, target) <==> gate.minPaired <= |s| && Lead(s) > gate.margin
  {
    var s := Pairs(records, SourceField(current), SourceField(target));
    if s != [] { LeadIsDelta(s); }
  }

  /** When the non-inferiority gate says yes: enough pairs, and the losses lead by no more than the margin. */
  lemma CostToleranceSaysYesIff(gate: Gate, records: seq<Record>, current: Phase, target: Phase)
    requires gate.CostToleranceGate? && gate.Valid()
    ensures var s := Pairs(records, SourceField(current), SourceField(target));
            SaysBetter(gate, records, current, target) <==> gate.minPaired <= |s| && Lead(s) >= -gate.margin
  {
    var s := Pairs(records, SourceField(current), SourceField(target));
    if s != [] { LeadIsDelta(s); }
  }

  /** The three gates that count pairs report how many pairs there are, enough or not. */
  lemma SampleIsPairs(gate: Gate, records: seq<Record>, current: Phase, target: Phase)
    requires gate.McNemarGate? || gate.AccuracyMarginGate? || gate.CostToleranceGate?
    ensures var a := Evaluate(gate, records, current, target);
            a.Answered? && a.decision.pairedSampleSize == |Pairs(records, SourceField(current), SourceField(target))|
  {
  }

  /** The volume floor: silent below it, and above it the inner gate with its own answer, sample and exception. */
  lemma VolumeFloor(inner: Gate, minRecords: int, records: seq<Record>, current: Phase, target: Phase)
    ensures var a := Evaluate(MinVolumeGate(inner, minRecords), records, current, target);
            if minRecords <= |records| then a == Evaluate(inner, records, current, target)
            else a.Answered? && !a.decision.targetBetter && a.decision.pairedSampleSize == |records|
    ensures SaysBetter(MinVolumeGate(inner, minRecords), records, current, target)
            <==> minRecords <= |records| && SaysBetter(inner, records, current, target)
  {
  }

  /** The latency gate looks at no record: it says no exactly to a tier known to be slower than the objective. */
  lemma LatencySaysYesIff(tierLatency: map<Phase, real>, slo: real, records: seq<Record>, current: Phase, target: Phase)
    ensures SaysBetter(LatencyGate(tierLatency, slo), records, current, target)
            <==> !(target in tierLatency && slo < tierLatency[target])
  {
  }

  /** A composite reports the sample of the first part that has one. */
  lemma {:induction false} CompositeSample(answers: seq<Answer>)
    requires forall i :: 0 <= i < |answers| ==> answers[i].Answered?
    ensures FirstSample(answers) == 0 ==> forall i :: 0 <= i < |answers| ==> answers[i].decision.pairedSampleSize == 0
    ensures FirstSample(answers) > 0 ==>
              exists i :: 0 <= i < |answers| && answers[i].decision.pairedSampleSize == FirstSample(answers)
                          && forall j :: 0 <= j < i ==> answers[j].decision.pairedSampleSize == 0
  {
    if answers != [] && answers[0].decision.pairedSampleSize == 0 {
      var rest := answers[1..];
      CompositeSample(rest);
      if FirstSample(rest) > 0 {
        var i :| 0 <= i < |rest| && rest[i].decision.pairedSampleSize == FirstSample(rest)
                 && forall j :: 0 <= j < i ==> rest[j].decision.pairedSampleSize == 0;
        assert answers[i + 1] == rest[i];
        assert forall j :: 0 < j < i + 1 ==> answers[j] == rest[j - 1];
      } else {
        assert forall j :: 0 < j < |answers| ==> answers[j] == rest[j - 1];
      }
    }
  }

  /**
   What the defaults of a version say: v1 and every unregistered version, missing included, the McNemar
   gate at 0.01 and 200 pairs; v2 the same but for the step to ML_WITH_FALLBACK, which may lose up to
   0.02 in accuracy; any other registered version its own gate.  No registration changes v1 or v2.
   */
  lemma DefaultsSayYesIff(sets: DefaultSets, version: Option<string>, records: seq<Record>, current: Phase, target: Phase)
    ensures var s := Pairs(records, SourceField(current), SourceField(target));
            var b, c := Wins(s), Losses(s);
            var better := 200 <= |s| && b > c && if b + c <= 50 then PValue(b, c) < 0.01 else sets.approx(AbsDiff(b, c), b + c) < 0.01;
            var embedded := version == Some("v1") || version == Some("v2");
            SaysBetter(ResolveGate(sets, version), records, current, target)
            <==> if !embedded && version.Some? && version.value in sets.registered then
                   SaysBetter(sets.registered[version.value], records, current, target)
                 else if version == Some("v2") && current == MlShadow && target == MlWithFallback then
                   200 <= |s| && Lead(s) >= -0.02
                 else better
  {
    McNemarSaysYesIff(DefaultMcNemar(sets), records, current, target);
    CostToleranceSaysYesIff(CostToleranceGate(0.02, 200), records, current, target);
  }

  /** The gate's yes, where its test is exact. */
  function ExactYes(gate: Gate): SampleEvent
    requires gate.McNemarGate?
  {
    s => McNemarDecision(gate.alpha, gate.minPaired, gate.approx, s).targetBetter && Wins(s) + Losses(s) <= 50
  }

  lemma ExactYesRejects(gate: Gate, s: seq<Pair>)
    requires gate.McNemarGate? && ExactYes(gate)(s)
    ensures Rejects(gate.alpha, Wins(s), Losses(s))
  {
    ImplementationsAgree(gate.approx, Wins(s), Losses(s));
  }

  /**
   The documented contract of the gate, where its test is exact: over n independent paired rows
   with a target that is truly no better, it answers yes on at most 50 discordant rows with
   probability at most alpha / 2.
   */
  lemma McNemarGateContract(gate: Gate, r: Rates, n: nat)
    requires gate.McNemarGate? && gate.Valid() && r.Valid()
    requires r.Advantage() <= 0.0
    ensures Probability(r, s => McNemarDecision(gate.alpha, gate.minPaired, gate.approx, s).targetBetter
                                && Wins(s) + Losses(s) <= 50, [], n) <= gate.alpha / 2.0
  {
    var event := s => McNemarDecision(gate.alpha, gate.minPaired, gate.approx, s).targetBetter
                      && Wins(s) + Losses(s) <= 50;
    forall s | event(s) ensures Rejects(gate.alpha, Wins(s), Losses(s)) { ExactYesRejects(gate, s); }
    FalsePromotionBound(r, gate.alpha, event, n);
  }

  /** The automatic check asks again and again: over any looks at the growing sample, at most alpha / 2 for each. */
  lemma RepeatedGateContract(gate: Gate, r: Rates, looks: seq<nat>, n: nat)
    requires gate.McNemarGate? && gate.Valid() && r.Valid()
    requires r.Advantage() <= 0.0
    ensures Probability(r, SomeLook(ExactYes(gate), looks), [], n) <= |looks| as real * (gate.alpha / 2.0)
  {
    forall s | ExactYes(gate)(s) ensures Rejects(gate.alpha, Wins(s), Losses(s)) { ExactYesRejects(gate, s); }
    RepeatedLooks(r, gate.alpha, ExactYes(gate), looks, n);
  }

  /** Accuracies differ the way wins and losses do. */
  lemma DeltaSign(s: seq<Pair>)
    requires s != []
    ensures Delta(s) > 0.0 <==> Wins(s) > Losses(s)
    ensures Delta(s) == 0.0 <==> Wins(s) == Losses(s)
  {
    DiscordantPairsAreTheDifference(s);
    QuotientOrder(TargetRight(s) as real, CurrentRight(s) as real, |s| as real);
  }

  lemma QuotientOrder(t: real, c: real, n: real)
    requires 0.0 < n
    ensures t / n > c / n <==> t > c
    ensures t / n == c / n <==> t == c
  {
    var x, y := t / n, c / n;
    assert x * n == t && y * n == c;
    if x > y { PositiveProduct(x - y, n); assert (x - y) * n == t - c; }
    if x < y { PositiveProduct(y - x, n); assert (y - x) * n == c - t; }
  }

  lemma CombinedDecides(answers: seq<Answer>, all: bool)
    requires forall i :: 0 <= i < |answers| ==> answers[i].Answered?
    ensures var a := Combined(answers, all);
            a.Answered?
            && (a.decision.targetBetter <==>
                  if all then forall i :: 0 <= i < |answers| ==> answers[i].decision.targetBetter
                  else exists i :: 0 <= i < |answers| && answers[i].decision.targetBetter)
  {
  }

  /** A composite of gates that answer says yes when all, or any, of them do. */
  lemma PartsDecide(gates: seq<Gate>, all: bool, records: seq<Record>, current: Phase, target: Phase)
    requires forall i :: 0 <= i < |gates| ==> Evaluate(gates[i], records, current, target).Answered?
    ensures Evaluate(CompositeGate(gates, all), records, current, target).Answered?
    ensures SaysBetter(CompositeGate(gates, all), records, current, target)
            <==> if all then forall i :: 0 <= i < |gates| ==> SaysBetter(gates[i], records, current, target)
                 else exists i :: 0 <= i < |gates| && SaysBetter(gates[i], records, current, target)
  {
    var answers := seq(|gates|, i requires 0 <= i < |gates| => Evaluate(gates[i], records, current, target));
    assert Evaluate(CompositeGate(gates, all), records, current, target) == Combined(answers, all);
    CombinedDecides(answers, all);
    forall i | 0 <= i < |gates|
      ensures answers[i].decision.targetBetter <==> SaysBetter(gates[i], records, current, target)
    {
    }
  }

  // ---------------------------------------------------------------------------
  // What can never be a "yes"
  // ---------------------------------------------------------------------------

  /** The gates that demand strict superiority. */
  predicate Strict(gate: Gate) {
    gate.Valid() && (gate.McNemarGate? || gate.AccuracyMarginGate? || gate.ManualGate?)
  }

  lemma StrictNeedsWins(gate: Gate, records: seq<Record>, current: Phase, target: Phase)
    requires Strict(gate) && SaysBetter(gate, records, current, target)
    ensures var s := Pairs(records, SourceField(current), SourceField(target)); Wins(s) > Losses(s)
  {
    var s := Pairs(records, SourceField(current), SourceField(target));
    if gate.AccuracyMarginGate? { DeltaSign(s); }
  }

  /** Two phases that read one output: no strict gate ever finds one better. */
  lemma StrictRefusesSameField(gate: Gate, records: seq<Record>, current: Phase, target: Phase)
    requires Strict(gate) && SourceField(current) == SourceField(target)
    ensures !SaysBetter(gate, records, current, target)
  {
    if SaysBetter(gate, records, current, target) {
      StrictNeedsWins(gate, records, current, target);
      OneFieldNeverDisagrees(records, SourceField(current));
    }
  }

  /** On a log of direct verdicts no strict gate ever finds anything better. */
  lemma StrictRefusesWithoutShadows(gate: Gate, records: seq<Record>, current: Phase, target: Phase)
    requires Strict(gate) && forall i :: 0 <= i < |records| ==> NoShadows(records[i])
    ensures !SaysBetter(gate, records, current, target)
  {
    if SourceField(current) == SourceField(target) {
      StrictRefusesSameField(gate, records, current, target);
    } else {
      NothingToPair(records, SourceField(current), SourceField(target));
    }
  }

  /** The bias theorem: a strict gate never says yes against a layer that made every decision itself. */
  lemma StrictRefusesAgainstTheDecider(gate: Gate, records: seq<Record>, current: Phase, target: Phase)
    requires Strict(gate) && DecidedBy(records, SourceField(current), SourceField(target))
    ensures !SaysBetter(gate, records, current, target)
  {
    if SaysBetter(gate, records, current, target) {
      StrictNeedsWins(gate, records, current, target);
      IncumbentNeverLoses(records, SourceField(current), SourceField(target));
    }
  }

  /** Strict comparisons cannot win both ways on one log, whatever the two gates' settings. */
  lemma StrictGatesNeverContradict(gate: Gate, gate': Gate, records: seq<Record>, x: Phase, y: Phase)
    requires Strict(gate) && Strict(gate')
    ensures !(SaysBetter(gate, records, x, y) && SaysBetter(gate', records, y, x))
  {
    if SaysBetter(gate, records, x, y) && SaysBetter(gate', records, y, x) {
      StrictNeedsWins(gate, records, x, y);
      StrictNeedsWins(gate', records, y, x);
      PairsSwap(records, SourceField(x), SourceField(y));
    }
  }

  /** Non-inferiority is different: with enough pairs a tie is a yes in both directions. */
  lemma CostToleranceAcceptsTies(gate: Gate, records: seq<Record>, current: Phase, target: Phase)
    requires gate.CostToleranceGate? && gate.Valid()
    requires SourceField(current) == SourceField(target)
    ensures SaysBetter(gate, records, current, target)
            <==> |Pairs(records, SourceField(current), SourceField(target))| >= gate.minPaired
  {
    var s := Pairs(records, SourceField(current), SourceField(target));
    OneFieldNeverDisagrees(records, SourceField(current));
    if s != [] { DeltaSign(s); }
  }

  /** After an advance to MODEL_PRIMARY the rule-against-model drift test is the same comparison reversed. */
  lemma FreshModelPrimaryIsNotDemoted(gate: Gate, drift: Gate, records: seq<Record>)
    requires Strict(gate) && Strict(drift)
    requires SaysBetter(gate, records, ModelShadow, ModelPrimary)
    ensures !SaysBetter(drift, records, ModelPrimary, Rule)
  {
    StrictGatesNeverContradict(gate, drift, records, ModelShadow, ModelPrimary);
  }

  // ---------------------------------------------------------------------------
  // Transitions no evidence can carry
  // ---------------------------------------------------------------------------

  /** The gate refuses, on every log, each upward step between two phases that read one output. */
  ghost predicate RefusesSidesteps(gate: Gate) {
    forall records: seq<Record> ::
      && !SaysBetter(gate, records, Rule, ModelShadow)
      && !SaysBetter(gate, records, ModelPrimary, MlShadow)
      && !SaysBetter(gate, records, MlWithFallback, MlPrimary)
  }

  lemma StrictGatesRefuseSidesteps(gate: Gate)
    requires Strict(gate)
    ensures RefusesSidesteps(gate)
  {
    forall records: seq<Record>
      ensures !SaysBetter(gate, records, Rule, ModelShadow)
      ensures !SaysBetter(gate, records, ModelPrimary, MlShadow)
      ensures !SaysBetter(gate, records, MlWithFallback, MlPrimary)
    {
      StrictRefusesSameField(gate, records, Rule, ModelShadow);
      StrictRefusesSameField(gate, records, ModelPrimary, MlShadow);
      StrictRefusesSameField(gate, records, MlWithFallback, MlPrimary);
    }
  }

  /** Both embedded default sets do, so an unmodified switch never leaves RULE (see LifecycleRuns). */
  lemma EmbeddedDefaultsRefuseSidesteps(sets: DefaultSets, version: Option<string>)
    requires version.None? || version.value !in sets.registered || version.value == "v1" || version.value == "v2"
    ensures RefusesSidesteps(ResolveGate(sets, version))
  {
    StrictGatesRefuseSidesteps(DefaultMcNemar(sets));
    if version == Some("v2") {
      var gate := DefaultPhaseAware(sets);
      forall records: seq<Record>
        ensures !SaysBetter(gate, records, Rule, ModelShadow)
        ensures !SaysBetter(gate, records, ModelPrimary, MlShadow)
        ensures !SaysBetter(gate, records, MlWithFallback, MlPrimary)
      {
        assert !SaysBetter(DefaultMcNemar(sets), records, Rule, ModelShadow);
      }
    }
  }
}
