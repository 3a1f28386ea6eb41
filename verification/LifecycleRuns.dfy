/** How far strict gates can take a switch, over whole runs. */
module LifecycleRuns {
  import opened Evidence
  import opened Gates
  import opened Signals
  import opened Lifecycle

  // ---------------------------------------------------------------------------
  // The ceiling of strict gates
  // ---------------------------------------------------------------------------

  /** The highest phase that is reachable without a step between two phases that read one output. */
  function Ceiling(p: Phase): Phase {
    match p
    case Rule => Rule
    case ModelShadow => ModelPrimary
    case ModelPrimary => ModelPrimary
    case MlShadow => MlWithFallback
    case MlWithFallback => MlWithFallback
    case MlPrimary => MlPrimary
  }

  ghost predicate Confined(cfg: Config, s: State) {
    && Invariant(cfg, s)
    && RefusesSidesteps(s.gate)
    && (s.gateIsDefault ==> forall v :: RefusesSidesteps(ResolveGate(cfg.sets, v)))
  }

  lemma LawfulIsConfined(cfg: Config, s: State, t: State, mayRaise: bool)
    requires Confined(cfg, s) && Lawful(cfg, s, t, mayRaise)
    ensures Confined(cfg, t) && Order(Ceiling(t.phase)) <= Order(Ceiling(s.phase))
  {
    assert RefusesSidesteps(t.gate);
  }

  lemma StepIsConfined(cfg: Config, s: State, op: Op)
    requires Confined(cfg, s)
    ensures var t := Step(cfg, s, op); Confined(cfg, t) && Order(Ceiling(t.phase)) <= Order(Ceiling(s.phase))
  {
    StepIsLawful(cfg, s, op);
    LawfulIsConfined(cfg, s, Step(cfg, s, op), MayRaise(op));
  }

  /**
   No run of public calls takes a switch whose gates demand strict superiority past the ceiling
   of the phase it starts in, whatever is logged.
   */
  lemma {:induction false} StrictCeiling(cfg: Config, s: State, ops: seq<Op>)
    requires Confined(cfg, s)
    ensures var t := Run(cfg, s, ops); Confined(cfg, t) && Order(t.phase) <= Order(Ceiling(t.phase)) <= Order(Ceiling(s.phase))
  {
    if ops != [] {
      StrictCeiling(cfg, s, ops[..|ops| - 1]);
      StepIsConfined(cfg, Run(cfg, s, ops[..|ops| - 1]), ops[|ops| - 1]);
    }
  }

  /** A switch that starts at RULE on the library's own default gates stays there for ever. */
  lemma DefaultSwitchNeverLeavesRule(cfg: Config, s: State, ops: seq<Op>)
    requires Invariant(cfg, s) && s.phase == Rule
    requires s.gateIsDefault && cfg.sets.registered == map[]
    ensures Run(cfg, s, ops).phase == Rule
  {
    forall v ensures RefusesSidesteps(ResolveGate(cfg.sets, v)) {
      EmbeddedDefaultsRefuseSidesteps(cfg.sets, v);
    }
    StrictCeiling(cfg, s, ops);
  }

  /** So does a switch with a strict gate of the operator's. */
  lemma StrictSwitchNeverLeavesRule(cfg: Config, s: State, ops: seq<Op>)
    requires Invariant(cfg, s) && s.phase == Rule
    requires !s.gateIsDefault && Strict(s.gate)
    ensures Run(cfg, s, ops).phase == Rule
  {
    StrictGatesRefuseSidesteps(s.gate);
    StrictCeiling(cfg, s, ops);
  }
}
