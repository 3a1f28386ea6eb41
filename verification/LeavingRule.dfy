/** Which gates can carry a switch across a step between two phases that read one output. */
module LeavingRule {
  import opened McNemar
  import opened Evidence
  import opened Gates
  import opened Lifecycle
  import opened Rejustification
  import Hysteresis

  /** A tie on every pair, and enough pairs and records, is enough for the gate. */
  predicate AcceptsTies(gate: Gate, current: Phase, target: Phase) {
    match gate
    case CostToleranceGate(_, _) => true
    case PhaseAwareGate(transitions, default) =>
      if (current, target) in transitions then AcceptsTies(transitions[(current, target)], current, target)
      else AcceptsTies(default, current, target)
    case MinVolumeGate(inner, _) => AcceptsTies(inner, current, target)
    case LatencyGate(tierLatency, slo) => target in tierLatency ==> tierLatency[target] <= slo
    case CompositeGate(gates, all) =>
      if all then forall i | 0 <= i < |gates| :: AcceptsTies(gates[i], current, target)
      else exists i | 0 <= i < |gates| :: AcceptsTies(gates[i], current, target)
    case _ => false
  }

  function MaxOf(ns: seq<nat>): (m: nat)
    ensures forall i :: 0 <= i < |ns| ==> ns[i] <= m
  {
    if ns == [] then 0
    else
      var rest := MaxOf(ns[1..]);
      assert forall i :: 0 < i < |ns| ==> ns[i] == ns[1..][i - 1];
      if ns[0] < rest then rest else ns[0]
  }

  /** A number of ties that is enough for any part of the gate. */
  function Enough(gate: Gate, current: Phase, target: Phase): nat {
    match gate
    case CostToleranceGate(_, minPaired) => if minPaired < 0 then 0 else minPaired
    case PhaseAwareGate(transitions, default) =>
      if (current, target) in transitions then Enough(transitions[(current, target)], current, target)
      else Enough(default, current, target)
    case MinVolumeGate(inner, minRecords) => Enough(inner, current, target) + if minRecords < 0 then 0 else minRecords
    case CompositeGate(gates, _) =>
      MaxOf(seq(|gates|, i requires 0 <= i < |gates| => Enough(gates[i], current, target)))
    case _ => 0
  }

  lemma EnoughForParts(gates: seq<Gate>, all: bool, current: Phase, target: Phase, i: nat)
    requires i < |gates|
    ensures Enough(gates[i], current, target) <= Enough(CompositeGate(gates, all), current, target)
  {
    var ns := seq(|gates|, j requires 0 <= j < |gates| => Enough(gates[j], current, target));
    assert ns[i] == Enough(gates[i], current, target);
    assert Enough(CompositeGate(gates, all), current, target) == MaxOf(ns);
  }

  /** What ties do to one gate: only a gate that accepts them ever says yes, and enough of them make it. */
  predicate DecidedByTies(gate: Gate, records: seq<Record>, current: Phase, target: Phase) {
    var n := |Pairs(records, SourceField(current), SourceField(target))|;
    && Evaluate(gate, records, current, target).Answered?
    && (SaysBetter(gate, records, current, target) ==> AcceptsTies(gate, current, target))
    && (AcceptsTies(gate, current, target) && n >= Enough(gate, current, target) ==> SaysBetter(gate, records, current, target))
  }

  lemma SimpleGatesOnTies(gate: Gate, records: seq<Record>, current: Phase, target: Phase)
    requires gate.Valid() && SourceField(current) == SourceField(target)
    requires Counts(gate) || gate.ManualGate? || gate.LatencyGate?
    ensures DecidedByTies(gate, records, current, target)
  {
    if gate.CostToleranceGate? {
      CostToleranceAcceptsTies(gate, records, current, target);
    } else if !gate.LatencyGate? {
      StrictRefusesSameField(gate, records, current, target);
    }
  }

  lemma VolumeOnTies(inner: Gate, minRecords: int, records: seq<Record>, current: Phase, target: Phase)
    requires DecidedByTies(inner, records, current, target)
    ensures DecidedByTies(MinVolumeGate(inner, minRecords), records, current, target)
  {
    PairsAreRecords(records, SourceField(current), SourceField(target));
  }

  lemma DispatchOnTies(gate: Gate, chosen: Gate, records: seq<Record>, current: Phase, target: Phase)
    requires gate.PhaseAwareGate?
    requires chosen == if (current, target) in gate.transitions then gate.transitions[(current, target)] else gate.default
    requires DecidedByTies(chosen, records, current, target)
    ensures DecidedByTies(gate, records, current, target)
  {
  }

  lemma CompositeNeedsTies(gates: seq<Gate>, all: bool, records: seq<Record>, current: Phase, target: Phase)
    requires forall i :: 0 <= i < |gates| ==> Evaluate(gates[i], records, current, target).Answered?
    requires forall i :: 0 <= i < |gates| ==>
               SaysBetter(gates[i], records, current, target) ==> AcceptsTies(gates[i], current, target)
    ensures SaysBetter(CompositeGate(gates, all), records, current, target) ==> AcceptsTies(CompositeGate(gates, all), current, target)
  {
    PartsDecide(gates, all, records, current, target);
  }

  lemma CompositeTakesTies(gates: seq<Gate>, all: bool, records: seq<Record>, current: Phase, target: Phase)
    requires forall i :: 0 <= i < |gates| ==> Evaluate(gates[i], records, current, target).Answered?
    requires forall i :: 0 <= i < |gates| ==>
               AcceptsTies(gates[i], current, target) ==> SaysBetter(gates[i], records, current, target)
    ensures AcceptsTies(CompositeGate(gates, all), current, target) ==> SaysBetter(CompositeGate(gates, all), records, current, target)
  {
    PartsDecide(gates, all, records, current, target);
  }

  lemma CompositeOnTies(gates: seq<Gate>, all: bool, records: seq<Record>, current: Phase, target: Phase)
    requires forall i :: 0 <= i < |gates| ==> DecidedByTies(gates[i], records, current, target)
    ensures DecidedByTies(CompositeGate(gates, all), records, current, target)
  {
    var whole := CompositeGate(gates, all);
    var n := |Pairs(records, SourceField(current), SourceField(target))|;
    assert Evaluate(whole, records, current, target).Answered? by { PartsDecide(gates, all, records, current, target); }
    assert SaysBetter(whole, records, current, target) ==> AcceptsTies(whole, current, target) by {
      CompositeNeedsTies(gates, all, records, current, target);
    }
    if n >= Enough(whole, current, target) {
      forall i | 0 <= i < |gates| ensures AcceptsTies(gates[i], current, target) ==> SaysBetter(gates[i], records, current, target) {
        EnoughForParts(gates, all, current, target, i);
      }
      CompositeTakesTies(gates, all, records, current, target);
    }
  }

  lemma {:induction false} GatesOnTies(gate: Gate, records: seq<Record>, current: Phase, target: Phase)
    requires BuiltIn(gate) && gate.Valid() && SourceField(current) == SourceField(target)
    ensures DecidedByTies(gate, records, current, target)
  {
    match gate
    case PhaseAwareGate(transitions, default) =>
      var chosen := if (current, target) in transitions then transitions[(current, target)] else default;
      GatesOnTies(chosen, records, current, target);
      DispatchOnTies(gate, chosen, records, current, target);
    case MinVolumeGate(inner, minRecords) =>
      GatesOnTies(inner, records, current, target);
      VolumeOnTies(inner, minRecords, records, current, target);
    case CompositeGate(gates, all) =>
      forall i | 0 <= i < |gates| ensures DecidedByTies(gates[i], records, current, target) {
        GatesOnTies(gates[i], records, current, target);
      }
      CompositeOnTies(gates, all, records, current, target);
    case _ => SimpleGatesOnTies(gate, records, current, target);
  }

  /** A verdict on an answer that every layer gave and that was right. */
  const TIE := Record(0.0, 0, Some(Text("yes")), Correct, "rule", 1.0,
                      Some(Text("yes")), Some(Text("yes")), Some(Text("yes")), None, None)

  function Ties(n: nat): (log: seq<Record>)
    ensures |log| == n && forall i :: 0 <= i < n ==> log[i] == TIE
  {
    seq(n, _ => TIE)
  }

  lemma TiePairs(x: Field, y: Field)
    ensures PairOf(TIE, x, y) == [Pair(true, true)]
  {
  }

  lemma {:induction false} TiesPair(log: seq<Record>, n: nat, x: Field, y: Field)
    ensures |Pairs(log + Ties(n), x, y)| == |Pairs(log, x, y)| + n
  {
    if n == 0 {
      assert log + Ties(0) == log;
    } else {
      TiesPair(log, n - 1, x, y);
      assert log + Ties(n) == (log + Ties(n - 1)) + [TIE];
      PairsAppend(log + Ties(n - 1), TIE, x, y);
      TiePairs(x, y);
    }
  }

  /**
   Over the whole library: a step between two phases that read one output is possible, on some log,
   exactly for the gates that accept ties.
   */
  lemma SidestepIff(gate: Gate, current: Phase, target: Phase)
    requires BuiltIn(gate) && gate.Valid() && SourceField(current) == SourceField(target)
    ensures (exists records: seq<Record> :: SaysBetter(gate, records, current, target)) <==> AcceptsTies(gate, current, target)
  {
    if records: seq<Record> :| SaysBetter(gate, records, current, target) {
      GatesOnTies(gate, records, current, target);
    }
    if AcceptsTies(gate, current, target) {
      var n := Enough(gate, current, target);
      TiesPair([], n, SourceField(current), SourceField(target));
      GatesOnTies(gate, [] + Ties(n), current, target);
      assert SaysBetter(gate, [] + Ties(n), current, target);
    }
  }

  // ---------------------------------------------------------------------------
  // Runs
  // ---------------------------------------------------------------------------

  /** Some run reaches MODEL_SHADOW. */
  ghost predicate CanLeave(cfg: Config, s: State) {
    exists ops :: Run(cfg, s, ops).phase == ModelShadow
  }

  lemma RunOneMore(cfg: Config, s: State, ops: seq<Op>, op: Op)
    ensures Run(cfg, s, ops + [op]) == Step(cfg, Run(cfg, s, ops), op)
  {
    assert (ops + [op])[..|ops|] == ops;
  }

  /** Whoever can leave after an operation can leave. */
  lemma CanLeaveAfter(cfg: Config, s: State, op: Op)
    requires CanLeave(cfg, Step(cfg, s, op))
    ensures CanLeave(cfg, s)
  {
    var ops :| Run(cfg, Step(cfg, s, op), ops).phase == ModelShadow;
    RunOneMore(cfg, s, [], op);
    assert [] + [op] == [op];
    Hysteresis.RunComposes(cfg, s, [op], ops);
    assert Run(cfg, s, [op] + ops).phase == ModelShadow;
  }

  lemma ThereAlready(cfg: Config, s: State)
    requires s.phase == ModelShadow
    ensures CanLeave(cfg, s)
  {
    assert Run(cfg, s, []).phase == ModelShadow;
  }

  /** One verdict at RULE leaves the switch there, with the record logged, or takes it to MODEL_SHADOW. */
  lemma VerdictAtRule(cfg: Config, s: State, r: Record)
    requires s.phase == Rule
    ensures var t := AfterVerdict(cfg, s, r);
            t.phase == ModelShadow || (t.phase == Rule && t.gate == s.gate && t.log == s.log + [r])
  {
  }

  /** Enough ties recorded at RULE leave it, on the way or by an advance at the end. */
  lemma {:induction false} TiesBuildUp(cfg: Config, s: State, n: nat)
    requires s.phase == Rule && Order(cfg.limit) >= 1
    requires SaysBetter(s.gate, s.log + Ties(n), Rule, ModelShadow)
    ensures CanLeave(cfg, s)
    decreases n
  {
    if n == 0 {
      assert s.log + Ties(0) == s.log;
      AdvanceFromRule(cfg, s);
      ThereAlready(cfg, AfterAdvance(cfg, s));
      CanLeaveAfter(cfg, s, Op.Advance);
    } else {
      var t := AfterVerdict(cfg, s, TIE);
      VerdictAtRule(cfg, s, TIE);
      if t.phase == ModelShadow {
        ThereAlready(cfg, t);
      } else {
        assert (s.log + [TIE]) + Ties(n - 1) == s.log + Ties(n);
        TiesBuildUp(cfg, t, n - 1);
      }
      CanLeaveAfter(cfg, s, RecordVerdict(TIE));
    }
  }

  lemma AdvanceFromRule(cfg: Config, s: State)
    requires s.phase == Rule && Order(cfg.limit) >= 1 && SaysBetter(s.gate, s.log, Rule, ModelShadow)
    ensures AfterAdvance(cfg, s).phase == ModelShadow
  {
    assert NextPhase(Rule) == Some(ModelShadow);
  }

  /** With a gate that accepts ties, some run leaves RULE. */
  lemma TiesLeaveRule(cfg: Config, s: State)
    requires s.phase == Rule && Order(cfg.limit) >= 1
    requires BuiltIn(s.gate) && s.gate.Valid() && AcceptsTies(s.gate, Rule, ModelShadow)
    ensures CanLeave(cfg, s)
  {
    var n := Enough(s.gate, Rule, ModelShadow);
    TiesPair(s.log, n, RuleOutput, RuleOutput);
    GatesOnTies(s.gate, s.log + Ties(n), Rule, ModelShadow);
    TiesBuildUp(cfg, s, n);
  }

  /** The gates a switch may come to have are the library's. */
  ghost predicate LibraryGates(cfg: Config, s: State) {
    && (!s.gateIsDefault ==> BuiltIn(s.gate) && s.gate.Valid())
    && forall v :: v in cfg.sets.registered ==> BuiltIn(cfg.sets.registered[v]) && cfg.sets.registered[v].Valid()
  }

  lemma ResolvedIsBuiltIn(cfg: Config, s: State, version: Option<string>)
    requires LibraryGates(cfg, s)
    ensures var gate := ResolveGate(cfg.sets, version); BuiltIn(gate) && gate.Valid()
  {
    DefaultsAreBuiltIn(cfg.sets);
    assert CostToleranceGate(0.02, DEFAULT_MIN_PAIRED).Valid() && DefaultMcNemar(cfg.sets).Valid();
  }

  /** The gate at hand, or one the switch may migrate to, accepts a tie for the first step. */
  ghost predicate SomeGateAcceptsTies(cfg: Config, s: State) {
    if s.gateIsDefault then exists v: string :: AcceptsTies(ResolveGate(cfg.sets, Some(v)), Rule, ModelShadow)
    else AcceptsTies(s.gate, Rule, ModelShadow)
  }

  /** Until a gate accepts a tie, every operation at RULE stays at RULE. */
  lemma StaysAtRule(cfg: Config, s: State, t: State, mayRaise: bool)
    requires Invariant(cfg, s) && LibraryGates(cfg, s) && s.phase == Rule && !SomeGateAcceptsTies(cfg, s)
    requires Lawful(cfg, s, t, mayRaise)
    ensures t.phase == Rule && LibraryGates(cfg, t) && !SomeGateAcceptsTies(cfg, t)
  {
    if t.phase != Rule {
      if s.gateIsDefault {
        ResolvedIsBuiltIn(cfg, s, t.version);
        NoVersionAccepts(cfg, s, t.version);
      }
      GatesOnTies(t.gate, t.log, Rule, ModelShadow);
    }
  }

  lemma NoVersionAccepts(cfg: Config, s: State, version: Option<string>)
    requires s.gateIsDefault && !SomeGateAcceptsTies(cfg, s)
    ensures !AcceptsTies(ResolveGate(cfg.sets, version), Rule, ModelShadow)
  {
    assert !AcceptsTies(DefaultMcNemar(cfg.sets), Rule, ModelShadow);
  }

  lemma {:induction false} RunStaysAtRule(cfg: Config, s: State, ops: seq<Op>)
    requires Invariant(cfg, s) && LibraryGates(cfg, s) && s.phase == Rule && !SomeGateAcceptsTies(cfg, s)
    ensures var t := Run(cfg, s, ops);
            Invariant(cfg, t) && LibraryGates(cfg, t) && t.phase == Rule && !SomeGateAcceptsTies(cfg, t)
  {
    if ops != [] {
      var before, op := Run(cfg, s, ops[..|ops| - 1]), ops[|ops| - 1];
      RunStaysAtRule(cfg, s, ops[..|ops| - 1]);
      StepIsLawful(cfg, before, op);
      StaysAtRule(cfg, before, Step(cfg, before, op), MayRaise(op));
    }
  }

  lemma NothingAboveLimit(cfg: Config, s: State, ops: seq<Op>)
    requires Invariant(cfg, s) && Order(cfg.limit) == 0
    ensures Run(cfg, s, ops).phase == Rule
  {
    RunKeepsInvariant(cfg, s, ops);
  }

  lemma MigrateAtRule(cfg: Config, s: State, v: string)
    requires Invariant(cfg, s) && s.phase == Rule && s.gateIsDefault
    ensures var t := AfterMigrate(cfg, s, v, false, 0.0);
            t.phase == Rule && t.gate == ResolveGate(cfg.sets, Some(v))
  {
  }

  /**
   Which switches can leave RULE, over all runs of public calls: exactly those whose limit allows it
   and whose gate accepts ties, where a default-managed switch may first migrate to any default set.
   */
  lemma LeavesRuleIff(cfg: Config, s: State)
    requires Invariant(cfg, s) && LibraryGates(cfg, s) && s.phase == Rule
    ensures CanLeave(cfg, s) <==> Order(cfg.limit) >= 1 && SomeGateAcceptsTies(cfg, s)
  {
    if ops :| Run(cfg, s, ops).phase == ModelShadow {
      if Order(cfg.limit) == 0 { NothingAboveLimit(cfg, s, ops); }
      if !SomeGateAcceptsTies(cfg, s) { RunStaysAtRule(cfg, s, ops); }
    }
    if Order(cfg.limit) >= 1 && SomeGateAcceptsTies(cfg, s) {
      if s.gateIsDefault {
        var v: string :| AcceptsTies(ResolveGate(cfg.sets, Some(v)), Rule, ModelShadow);
        MigratedSwitchLeaves(cfg, s, v);
      } else {
        TiesLeaveRule(cfg, s);
      }
    }
  }

  lemma MigratedSwitchLeaves(cfg: Config, s: State, v: string)
    requires Invariant(cfg, s) && LibraryGates(cfg, s) && s.phase == Rule && s.gateIsDefault && Order(cfg.limit) >= 1
    requires AcceptsTies(ResolveGate(cfg.sets, Some(v)), Rule, ModelShadow)
    ensures CanLeave(cfg, s)
  {
    MigrateAtRule(cfg, s, v);
    ResolvedIsBuiltIn(cfg, s, Some(v));
    TiesLeaveRule(cfg, AfterMigrate(cfg, s, v, false, 0.0));
    CanLeaveAfter(cfg, s, Migrate(v, false, 0.0));
  }
}
