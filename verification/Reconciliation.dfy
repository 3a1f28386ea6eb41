/** Signal swaps and default-set migrations: where they leave the phase, and that they settle. */
module Reconciliation {
  import opened Evidence
  import opened Gates
  import opened Signals
  import opened Lifecycle
  import opened Rejustification

  // ---------------------------------------------------------------------------
  // Reconciliation
  // ---------------------------------------------------------------------------

  /** A swap that re-grades the phase: something other than a default-set version changed. */
  predicate Regrades(cfg: Config, s: State) {
    && s.saved.Some? && cfg.swapDemotes
    && !SameCore(s.saved.value, CurrentSignature(s))
    && !IsDefaultDrift(s, CurrentSignature(s), s.saved.value)
  }

  lemma SwapSettles(cfg: Config, s: State, changed: seq<Component>, now: real)
    ensures var t := AfterSwap(cfg, s, changed, now);
            && t.phase == (if cfg.swapDemotes then Settle(s.gate, Window(cfg, s.log, now), s.phase) else s.phase)
            && t.log == s.log
            && |t.ledger| > |s.ledger|
  {
  }

  lemma NoRegradeKeepsPhase(cfg: Config, s: State, current: Signature, previous: Signature, now: real)
    requires SameCore(previous, current) || IsDefaultDrift(s, current, previous) || !cfg.swapDemotes
    ensures var t := Reconciled(cfg, s, current, previous, now); t.phase == s.phase && t.log == s.log
  {
    if !SameCore(previous, current) && !IsDefaultDrift(s, current, previous) {
      SwapSettles(cfg, s, Changed(current, previous), now);
    }
  }

  /**
   Where reconciliation leaves the phase: untouched unless a swap re-grades it, and then at the
   highest phase, at or below the present one, that holds under the new signal.
   */
  lemma ReconciledPhase(cfg: Config, s: State, now: real)
    ensures var t := AfterReconcile(cfg, s, now);
            var window := Window(cfg, s.log, now);
            && Order(t.phase) <= Order(s.phase) && t.log == s.log
            && (!Regrades(cfg, s) ==> t.phase == s.phase)
            && (Regrades(cfg, s) ==>
                  && Holds(s.gate, window, t.phase)
                  && (forall q :: Order(t.phase) < Order(q) <= Order(s.phase) ==> !Holds(s.gate, window, q)))
  {
    if s.saved.Some? {
      if Regrades(cfg, s) {
        SwapSettles(cfg, s, Changed(CurrentSignature(s), s.saved.value), now);
        SettleDescends(s.gate, Window(cfg, s.log, now), s.phase);
      } else {
        NoRegradeKeepsPhase(cfg, s, CurrentSignature(s), s.saved.value, now);
      }
    }
  }

  /** The saved signature is the present one, stamps included. */
  predicate InSync(s: State) {
    && s.saved.Some?
    && var current, previous := CurrentSignature(s), s.saved.value;
       && SameCore(previous, current)
       && previous.headVersion == current.headVersion
       && (previous.ruleDigest.Some? && current.ruleDigest.Some? ==> previous.ruleDigest == current.ruleDigest)
  }

  lemma SavedIsInSync(s: State)
    ensures InSync(Save(s)) && Save(s).saved == Some(CurrentSignature(s))
    ensures CurrentSignature(Save(s)) == CurrentSignature(s)
  {
    LiveSignaturesSurvive(s.wiring, s.gate, s.gateIsDefault, s.version, s.head);
  }

  /** Reconciliation has nothing to do exactly when the signatures are in sync. */
  lemma SilentIffInSync(cfg: Config, s: State, now: real)
    ensures AfterReconcile(cfg, s, now) == s <==> InSync(s)
  {
    if s.saved.Some? {
      var current, previous := CurrentSignature(s), s.saved.value;
      if SameCore(previous, current) {
        SavedIsInSync(s);
      } else if IsDefaultDrift(s, current, previous) {
        assert |AfterReconcile(cfg, s, now).ledger| > |s.ledger|;
      } else {
        SwapSettles(cfg, s, Changed(current, previous), now);
      }
    } else {
      assert |AfterReconcile(cfg, s, now).ledger| > |s.ledger|;
    }
  }

  lemma RefreshedIsInSync(s: State)
    requires s.saved.Some? && SameCore(s.saved.value, CurrentSignature(s))
    ensures InSync(Refreshed(s, CurrentSignature(s), s.saved.value))
  {
    SavedIsInSync(s);
    SavedIsInSync(Log(s, [Advisory]));
  }

  lemma ReconciledIsInSync(cfg: Config, s: State, now: real)
    ensures InSync(AfterReconcile(cfg, s, now))
  {
    if s.saved.None? {
      SavedIsInSync(s);
    } else {
      var current, previous := CurrentSignature(s), s.saved.value;
      if SameCore(previous, current) {
        RefreshedIsInSync(s);
      } else if IsDefaultDrift(s, current, previous) {
        var pinned := PinnedVersion(previous.gate);
        SavedIsInSync(Log(s.(gate := ResolveGate(cfg.sets, pinned), version := pinned), [Pinned]));
      } else {
        SwapIsInSync(cfg, s, Changed(current, previous), now);
      }
    }
  }

  lemma SwapIsInSync(cfg: Config, s: State, changed: seq<Component>, now: real)
    ensures InSync(AfterSwap(cfg, s, changed, now))
  {
    SavedIsInSync(AfterSwap(cfg, s, changed, now));
  }

  /**
   A switch in sync whose operator's gate is exchanged: reconciliation does nothing about it exactly
   when the two gates look alike to a signature.
   */
  lemma GateSwapGoesUnnoticedIff(cfg: Config, s: State, gate: Gate, now: real)
    requires InSync(s) && !s.gateIsDefault && (s.gate.CustomGate? <==> gate.CustomGate?)
    ensures var t := s.(gate := gate); AfterReconcile(cfg, t, now) == t <==> LookAlike(s.gate, gate)
  {
    SilentIffInSync(cfg, s.(gate := gate), now);
    GateSwapIsInvisibleIff(s.gate, gate);
  }

  /** One phase-aware gate for another, whatever the gates inside: nothing happens. */
  lemma PhaseAwareSwapGoesUnnoticed(cfg: Config, s: State, transitions: map<Transition, Gate>, default: Gate, now: real)
    requires InSync(s) && !s.gateIsDefault && s.gate.PhaseAwareGate?
    ensures var t := s.(gate := PhaseAwareGate(transitions, default)); AfterReconcile(cfg, t, now) == t
  {
    GateSwapGoesUnnoticedIff(cfg, s, PhaseAwareGate(transitions, default), now);
  }

  /** Reconciling twice is reconciling once, whenever the second call comes. */
  lemma ReconcileIsIdempotent(cfg: Config, s: State, now: real, later: real)
    ensures AfterReconcile(cfg, AfterReconcile(cfg, s, now), later) == AfterReconcile(cfg, s, now)
  {
    ReconciledIsInSync(cfg, s, now);
    SilentIffInSync(cfg, AfterReconcile(cfg, s, now), later);
  }

  ghost predicate SameSignals(s: State, t: State) {
    t.saved == s.saved && t.wiring == s.wiring && t.gate == s.gate && t.gateIsDefault == s.gateIsDefault
    && t.version == s.version && t.head == s.head
  }

  lemma SameSignalsStayInSync(s: State, t: State)
    requires InSync(s) && SameSignals(s, t)
    ensures InSync(t)
  {
  }

  lemma VerdictKeepsSignals(cfg: Config, s: State, r: Record)
    ensures SameSignals(s, AfterVerdict(cfg, s, r))
  {
  }

  lemma {:induction false} RowsKeepSignals(cfg: Config, s: State, rows: seq<BulkRow>)
    ensures SameSignals(s, AfterRows(cfg, s, rows))
  {
    if rows != [] {
      var earlier, last := AfterRows(cfg, s, rows[..|rows| - 1]), RowRecord(cfg, rows[|rows| - 1]);
      RowsKeepSignals(cfg, s, rows[..|rows| - 1]);
      if last.Some? { VerdictKeepsSignals(cfg, earlier, last.value); }
    }
  }

  lemma BulkKeepsSignals(cfg: Config, s: State, rows: seq<BulkRow>)
    ensures SameSignals(s, AfterBulk(cfg, s, rows))
  {
    RowsKeepSignals(cfg, s.(autoAdvance := false), rows);
  }

  lemma MigrateKeepsSync(cfg: Config, s: State, to: string, acceptReset: bool, now: real)
    requires InSync(s)
    ensures InSync(AfterMigrate(cfg, s, to, acceptReset, now))
  {
    var adopted := s.(gate := ResolveGate(cfg.sets, Some(to)), version := Some(to));
    SavedIsInSync(adopted);
    SavedIsInSync(adopted.(phase := Rule, sinceChange := 0));
    SameSignalsStayInSync(s, Log(s, [MigrateRejected]));
  }

  lemma StepKeepsSync(cfg: Config, s: State, op: Op)
    requires InSync(s) && !op.Rewire?
    ensures InSync(Step(cfg, s, op))
  {
    match op
    case RecordVerdict(r) => VerdictKeepsSignals(cfg, s, r); SameSignalsStayInSync(s, AfterVerdict(cfg, s, r));
    case BulkRecord(rows) => BulkKeepsSignals(cfg, s, rows); SameSignalsStayInSync(s, AfterBulk(cfg, s, rows));
    case Advance => SameSignalsStayInSync(s, AfterAdvance(cfg, s));
    case Demote(reason) => SameSignalsStayInSync(s, AfterDemote(s));
    case Reconcile(now) => ReconciledIsInSync(cfg, s, now);
    case Migrate(to, acceptReset, now) => MigrateKeepsSync(cfg, s, to, acceptReset, now);
    case AutoLog(_) =>
  }

  lemma {:induction false} RunKeepsSync(cfg: Config, s: State, ops: seq<Op>)
    requires InSync(s) && forall i :: 0 <= i < |ops| ==> !ops[i].Rewire?
    ensures InSync(Run(cfg, s, ops))
  {
    if ops != [] {
      RunKeepsSync(cfg, s, ops[..|ops| - 1]);
      StepKeepsSync(cfg, Run(cfg, s, ops[..|ops| - 1]), ops[|ops| - 1]);
    }
  }

  /**
   No false alarms: after one reconciliation, no run of verdicts, batches, advances, demotions,
   migrations and further reconciliations makes a later reconciliation do anything.
   */
  lemma NoSpuriousSwaps(cfg: Config, s: State, now: real, ops: seq<Op>, later: real)
    requires forall i :: 0 <= i < |ops| ==> !ops[i].Rewire?
    ensures var t := Run(cfg, AfterReconcile(cfg, s, now), ops); AfterReconcile(cfg, t, later) == t
  {
    ReconciledIsInSync(cfg, s, now);
    RunKeepsSync(cfg, AfterReconcile(cfg, s, now), ops);
    SilentIffInSync(cfg, Run(cfg, AfterReconcile(cfg, s, now), ops), later);
  }

  // ---------------------------------------------------------------------------
  // Window and head
  // ---------------------------------------------------------------------------

  predicate InOrder(log: seq<Record>) {
    forall i, j | 0 <= i < j < |log| :: log[i].timestamp <= log[j].timestamp
  }

  lemma {:induction false} SinceIsSuffix(log: seq<Record>, cutoff: real) returns (k: nat)
    requires InOrder(log)
    ensures k <= |log| && RecordsSince(log, cutoff) == log[k..]
    ensures forall i :: 0 <= i < |log| ==> (k <= i <==> log[i].timestamp >= cutoff)
  {
    k := 0;
    if log != [] {
      var init := log[..|log| - 1];
      k := SinceIsSuffix(init, cutoff);
      if log[|log| - 1].timestamp < cutoff { k := |log|; }
      assert forall i :: 0 <= i < |init| ==> init[i] == log[i];
    }
  }

  lemma YoungEnough(cfg: Config, log: seq<Record>, now: real) returns (k: nat)
    requires InOrder(log)
    ensures k <= |log| && Recent(cfg, log, now) == log[k..]
    ensures forall i :: 0 <= i < |log| ==> (k <= i <==> cfg.windowSeconds <= 0.0 || log[i].timestamp >= now - cfg.windowSeconds)
  {
    if cfg.windowSeconds > 0.0 {
      k := SinceIsSuffix(log, now - cfg.windowSeconds);
    } else {
      k := 0;
    }
  }

  lemma LastOfSuffix(log: seq<Record>, k: nat, n: nat)
    requires k <= |log| && n <= |log| - k
    ensures log[k..][|log| - k - n..] == log[|log| - n..]
  {
  }

  /**
   The recency window of a log in time order is its most recent part: nothing older than the age
   limit, no more than the record limit, and no record left out that both limits would let in.
   */
  lemma WindowIsRecent(cfg: Config, log: seq<Record>, now: real) returns (k: nat)
    requires InOrder(log)
    ensures k <= |log| && Window(cfg, log, now) == log[k..]
    ensures cfg.windowSeconds > 0.0 ==> forall i :: k <= i < |log| ==> log[i].timestamp >= now - cfg.windowSeconds
    ensures cfg.windowRecords > 0 ==> |log[k..]| <= cfg.windowRecords
    ensures forall i :: 0 <= i < k ==>
              || (cfg.windowSeconds > 0.0 && log[i].timestamp < now - cfg.windowSeconds)
              || (cfg.windowRecords > 0 && |log[k..]| == cfg.windowRecords)
  {
    k := YoungEnough(cfg, log, now);
    if 0 < cfg.windowRecords < |log| - k {
      LastOfSuffix(log, k, cfg.windowRecords);
      k := |log| - cfg.windowRecords;
    }
  }

  /** The signals a head is trained under differ. */
  predicate TrainedOtherwise(s: State) {
    s.saved.Some?
    && var current, previous := CurrentSignature(s), s.saved.value;
       current.judge != previous.judge || current.strategy != previous.strategy || current.labels != previous.labels
  }

  /** A stored or selected head is dropped exactly when the judge, the strategy or the labels changed; an explicit one stays. */
  lemma StaleHeadsAreDropped(cfg: Config, s: State, now: real)
    ensures var t := AfterReconcile(cfg, s, now);
            && (t.storedHead <==> s.storedHead && !TrainedOtherwise(s))
            && t.head == (if TrainedOtherwise(s) && s.wiring.strategy.Some? then NoHead else s.head)
  {
    if s.saved.Some? {
      var current, previous := CurrentSignature(s), s.saved.value;
      var changed := Changed(current, previous);
      ChangedHas(current, previous);
      if SameCore(previous, current) {
        RefreshedKeepsHead(s, current, previous);
      } else if !IsDefaultDrift(s, current, previous) {
        SwapDropsHead(cfg, s, changed, now);
      }
    }
  }

  lemma ChangedHas(a: Signature, b: Signature)
    ensures JudgeChanged in Changed(a, b) <==> a.judge != b.judge
    ensures StrategyChanged in Changed(a, b) <==> a.strategy != b.strategy
    ensures LabelsChanged in Changed(a, b) <==> a.labels != b.labels
  {
    ListedHas(a.judge != b.judge, a.gate != b.gate, a.strategy != b.strategy, a.labels != b.labels, a.ruleVersion != b.ruleVersion);
  }

  lemma RefreshedKeepsHead(s: State, current: Signature, previous: Signature)
    ensures var t := Refreshed(s, current, previous); t.storedHead == s.storedHead && t.head == s.head
  {
  }

  lemma SwapDropsHead(cfg: Config, s: State, changed: seq<Component>, now: real)
    ensures var t, stale := AfterSwap(cfg, s, changed, now),
                            JudgeChanged in changed || StrategyChanged in changed || LabelsChanged in changed;
            && (t.storedHead <==> s.storedHead && !stale)
            && t.head == (if stale && s.wiring.strategy.Some? then NoHead else s.head)
  {
  }

  /** What a swap leaves in the ledger: the swap, a demotion for each phase left behind, a hold for want of evidence, the dropped head. */
  lemma SwapIsLogged(cfg: Config, s: State, changed: seq<Component>, now: real)
    ensures var window := Window(cfg, s.log, now);
            var q := Settle(s.gate, window, s.phase);
            Order(q) <= Order(s.phase)
            && AfterSwap(cfg, s, changed, now).ledger
               == s.ledger + [Swapped] + (if cfg.swapDemotes then Demotions(s.phase, q) + HoldEvents(s.gate, window, q) else [])
                  + (if Quarantines(s, changed) then [Quarantined] else [])
  {
    var window := Window(cfg, s.log, now);
    SettleIsLogged(s.gate, window, s.phase, s.ledger + [Swapped]);
    AppendInPieces(s.ledger + [Swapped], Demotions(s.phase, Settle(s.gate, window, s.phase)),
                   HoldEvents(s.gate, window, Settle(s.gate, window, s.phase)));
  }

  lemma AppendInPieces(ledger: seq<Event>, xs: seq<Event>, ys: seq<Event>)
    ensures ledger + xs + ys == ledger + (xs + ys) && ledger + [] == ledger
  {
  }

  /** The first signature is adopted in silence, and a moved default is pinned: the phase, the counters and the head are left alone. */
  lemma AdoptedOrPinned(cfg: Config, s: State, now: real)
    requires s.saved.None? || IsDefaultDrift(s, CurrentSignature(s), s.saved.value)
    ensures var t := AfterReconcile(cfg, s, now);
            && t.ledger == s.ledger + [if s.saved.None? then Adopted else Pinned]
            && t.(saved := s.saved, ledger := s.ledger, gate := s.gate, version := s.version) == s
            && (s.saved.None? ==> t.gate == s.gate && t.version == s.version)
            && InSync(t)
  {
    if s.saved.Some? { SwapIsAChange(CurrentSignature(s), s.saved.value); }
    ReconciledIsInSync(cfg, s, now);
  }

  // ---------------------------------------------------------------------------
  // Migration
  // ---------------------------------------------------------------------------

  /** The new default gate's answer on the step to the present phase. */
  function NewAnswer(cfg: Config, s: State, to: string, now: real): Answer
    requires s.phase != Rule
  {
    Evaluate(ResolveGate(cfg.sets, Some(to)), Window(cfg, s.log, now), PrevPhase(s.phase).value, s.phase)
  }

  /** RULE is always earned; any other phase by a yes of the new gate on the pairs it demands. */
  predicate Reearns(cfg: Config, s: State, to: string, now: real) {
    s.phase != Rule ==>
      var a := NewAnswer(cfg, s, to, now);
      a.Answered? && a.decision.targetBetter && DeclaredMinPaired(ResolveGate(cfg.sets, Some(to))) <= a.decision.pairedSampleSize
  }

  /**
   The four outcomes of a migration call on a default-managed switch at another version, told apart
   by the evidence: the new gate raises, the phase is re-earned, or the operator accepts the reset or not.
   */
  lemma MigrationOutcomes(cfg: Config, s: State, to: string, acceptReset: bool, now: real)
    requires s.gateIsDefault && s.version != Some(to)
    ensures var t := AfterMigrate(cfg, s, to, acceptReset, now);
            && t.log == s.log
            && (t.phase == s.phase || (t.phase == Rule && acceptReset && t.sinceChange == 0))
            && (t.version == Some(to) <==> t.ledger != s.ledger && t.ledger[|t.ledger| - 1] != MigrateRejected)
            && (t.version == Some(to) && t.phase != Rule ==>
                  SaysBetter(t.gate, Window(cfg, t.log, now), PrevPhase(t.phase).value, t.phase))
            && (t == s <==> MigrationRaises(cfg, s, to, now))
            && (s.phase != Rule && NewAnswer(cfg, s, to, now).Raised? ==> t == s)
            && (Reearns(cfg, s, to, now) ==>
                  t.version == Some(to) && t.phase == s.phase && t.sinceChange == s.sinceChange && t.ledger == s.ledger + [Migrated])
            && (!Reearns(cfg, s, to, now) && NewAnswer(cfg, s, to, now).Answered? ==>
                  if acceptReset then t.version == Some(to) && t.phase == Rule && t.ledger == s.ledger + [MigrateReset]
                  else t == Log(s, [MigrateRejected]))
            && (t.version == Some(to) ==> t.gate == ResolveGate(cfg.sets, Some(to)) && InSync(t))
  {
    if !MigrationRaises(cfg, s, to, now) {
      assert |AfterMigrate(cfg, s, to, acceptReset, now).ledger| == |s.ledger| + 1;
      var adopted := s.(gate := ResolveGate(cfg.sets, Some(to)), version := Some(to));
      SavedIsInSync(adopted);
      SavedIsInSync(adopted.(phase := Rule, sinceChange := 0));
    }
  }

  /** For default sets made of the library's gates a yes alone re-earns the phase: it is kept exactly then, and never by an exception. */
  lemma LibraryMigrationKeepsIff(cfg: Config, s: State, to: string, now: real)
    requires s.gateIsDefault && s.version != Some(to) && BuiltIn(ResolveGate(cfg.sets, Some(to)))
    ensures var t := AfterMigrate(cfg, s, to, true, now);
            && t.version == Some(to)
            && (t.phase == s.phase <==>
                  s.phase == Rule || SaysBetter(ResolveGate(cfg.sets, Some(to)), Window(cfg, s.log, now), PrevPhase(s.phase).value, s.phase))
            && (t.phase != s.phase ==> t.phase == Rule)
  {
    if s.phase != Rule {
      YesHasItsPairs(ResolveGate(cfg.sets, Some(to)), Window(cfg, s.log, now), PrevPhase(s.phase).value, s.phase);
    }
    MigrationOutcomes(cfg, s, to, true, now);
  }

  /** A library gate never raises, and its yes rests on the pairs it demands. */
  lemma YesHasItsPairs(gate: Gate, window: seq<Record>, current: Phase, target: Phase)
    requires BuiltIn(gate)
    ensures var a := Evaluate(gate, window, current, target);
            a.Answered? && (a.decision.targetBetter ==> DeclaredMinPaired(gate) <= a.decision.pairedSampleSize)
  {
    BuiltInAnswers(gate, window, current, target);
  }

  /** The state a new process starts from: the constructor's gate, version and counters; the store keeps the rest. */
  function Restarted(cfg: Config, s: State, starting: Phase): State {
    s.(phase := starting, gate := ResolveGate(cfg.sets, Some(CURRENT_DEFAULT_SET_VERSION)),
       version := Some(CURRENT_DEFAULT_SET_VERSION), sinceCheck := 0, sinceChange := 1_000_000_000)
  }

  /**
   A restart forgets which default set the switch runs on; reconciliation finds it again from the
   stored signature, gate and all, and leaves the phase alone.
   */
  lemma RestartRestoresDefaults(cfg: Config, s: State, starting: Phase, now: real)
    requires Invariant(cfg, s) && InSync(s) && s.gateIsDefault && s.version.Some?
    ensures var t := AfterReconcile(cfg, Restarted(cfg, s, starting), now);
            t.version == s.version && t.gate == s.gate && t.phase == starting && InSync(t)
  {
    var r := Restarted(cfg, s, starting);
    assert r.(wiring := s.wiring) == r;
    RestartKeepsPinIff(cfg, s, starting, s.wiring, now);
    RestartKeepsPhase(cfg, s, starting, s.wiring, now);
    ReconciledIsInSync(cfg, r, now);
  }

  /** Only the default-set version tells the rewired switch from the one that was stored. */
  predicate OnlyVersionDiffers(s: State, r: State) {
    s.saved.Some? && SameCore(s.saved.value, CurrentSignature(r).(gate := s.saved.value.gate))
  }

  /**
   A restart may also bring a new judge, strategy, label set or rule version.  The pinned default set
   survives exactly when it is the current one or nothing else changed; otherwise the swap is graded
   under the current default, which is also what is stored, and the pin is lost.
   */
  lemma RestartKeepsPinIff(cfg: Config, s: State, starting: Phase, wiring: Wiring, now: real)
    requires Invariant(cfg, s) && InSync(s) && s.gateIsDefault && s.version.Some?
    ensures var r := Restarted(cfg, s, starting).(wiring := wiring);
            var t := AfterReconcile(cfg, r, now);
            && (t.version == s.version <==> s.version == Some(CURRENT_DEFAULT_SET_VERSION) || OnlyVersionDiffers(s, r))
            && (t.version == s.version ==> t.gate == s.gate)
            && (t.version != s.version ==>
                  && t.version == Some(CURRENT_DEFAULT_SET_VERSION)
                  && t.gate == ResolveGate(cfg.sets, Some(CURRENT_DEFAULT_SET_VERSION)))
  {
    var r := Restarted(cfg, s, starting).(wiring := wiring);
    var current, previous := CurrentSignature(r), s.saved.value;
    RestartSignatures(cfg, s, r);
    SwapIsAChange(current, previous);
    if !SameCore(previous, current) && !IsDefaultDrift(r, current, previous) {
      SwapKeepsGate(cfg, r, Changed(current, previous), now);
    }
  }

  lemma RestartSignatures(cfg: Config, s: State, r: State)
    requires InSync(s) && s.gateIsDefault && s.version.Some?
    requires r.gateIsDefault && r.version == Some(CURRENT_DEFAULT_SET_VERSION)
    ensures var current, previous := CurrentSignature(r), s.saved.value;
            && previous.gate == DefaultIdentity(s.version) && current.gate == DefaultIdentity(r.version)
            && PinnedVersion(previous.gate) == s.version && IsDefaultIdentity(previous.gate)
            && (current.gate == previous.gate <==> s.version == r.version)
  {
    assert DefaultIdentity(s.version)[1] == Str(s.version.value);
    assert DefaultIdentity(r.version)[1] == Str(r.version.value);
  }

  lemma SwapKeepsGate(cfg: Config, s: State, changed: seq<Component>, now: real)
    ensures var t := AfterSwap(cfg, s, changed, now); t.gate == s.gate && t.version == s.version
  {
  }

  lemma RestartKeepsPhase(cfg: Config, s: State, starting: Phase, wiring: Wiring, now: real)
    requires Invariant(cfg, s) && InSync(s) && s.gateIsDefault && s.version.Some?
    requires OnlyVersionDiffers(s, Restarted(cfg, s, starting).(wiring := wiring))
    ensures AfterReconcile(cfg, Restarted(cfg, s, starting).(wiring := wiring), now).phase == starting
  {
    var r := Restarted(cfg, s, starting).(wiring := wiring);
    var current, previous := CurrentSignature(r), s.saved.value;
    RestartSignatures(cfg, s, r);
    SwapIsAChange(current, previous);
    NoRegradeKeepsPhase(cfg, r, current, previous, now);
  }

  /** On v2 with judge a; the process restarts with judge b: it comes back on v1, and v1 is what is stored. */
  lemma NewJudgeLosesPin(cfg: Config, s: State, starting: Phase, wiring: Wiring, now: real)
    requires Invariant(cfg, s) && InSync(s) && s.gateIsDefault && s.version == Some("v2")
    requires s.wiring.judge == Some("a") && wiring == s.wiring.(judge := Some("b"))
    ensures var t := AfterReconcile(cfg, Restarted(cfg, s, starting).(wiring := wiring), now);
            t.version == Some("v1") && t.gate == DefaultMcNemar(cfg.sets)
  {
    assert "a"[0] != "b"[0] && "v1"[1] != "v2"[1];
    RestartKeepsPinIff(cfg, s, starting, wiring, now);
  }

  // ---------------------------------------------------------------------------
  // Retraining
  // ---------------------------------------------------------------------------

  /** The stored signature agrees with the present one but for the audit-only stamps. */
  predicate CoreInSync(s: State) {
    s.saved.Some? && SameCore(s.saved.value, CurrentSignature(s))
  }

  /** Nothing but the rule's digest differs. */
  predicate SameButDigest(w: Wiring, w': Wiring) {
    w'.judge == w.judge && w'.strategy == w.strategy && w'.labels == w.labels && w'.ruleVersion == w.ruleVersion
  }

  /** Rewirings that only retrain, replace or drop the head, or refactor the rule. */
  predicate Routine(w: Wiring, op: Op) {
    op.Rewire? ==> SameButDigest(w, op.wiring)
  }

  /** With the core in sync reconciliation is at most an advisory: no swap, no quarantine, nothing moves. */
  lemma RoutineIsQuiet(cfg: Config, s: State, now: real)
    requires CoreInSync(s)
    ensures var t, current := AfterReconcile(cfg, s, now), CurrentSignature(s);
            var drifted := s.saved.value.ruleDigest.Some? && current.ruleDigest.Some?
                           && s.saved.value.ruleDigest != current.ruleDigest;
            && t.(saved := s.saved, ledger := s.ledger) == s
            && t.ledger == (if drifted then s.ledger + [Advisory] else s.ledger)
            && CoreInSync(t)
  {
    SavedIsInSync(s);
    SavedIsInSync(Log(s, [Advisory]));
  }

  lemma SignalsKeepCore(s: State, t: State)
    requires CoreInSync(s)
    requires t.saved == s.saved && t.gate == s.gate && t.gateIsDefault == s.gateIsDefault && t.version == s.version
    requires SameButDigest(s.wiring, t.wiring)
    ensures CoreInSync(t)
  {
  }

  lemma MigrateKeepsCore(cfg: Config, s: State, to: string, acceptReset: bool, now: real)
    requires CoreInSync(s)
    ensures var t := AfterMigrate(cfg, s, to, acceptReset, now); CoreInSync(t) && t.wiring == s.wiring
  {
    var adopted := s.(gate := ResolveGate(cfg.sets, Some(to)), version := Some(to));
    SavedIsInSync(adopted);
    SavedIsInSync(adopted.(phase := Rule, sinceChange := 0));
    SignalsKeepCore(s, Log(s, [MigrateRejected]));
  }

  lemma RoutineStepKeepsCore(cfg: Config, s: State, op: Op)
    requires CoreInSync(s) && Routine(s.wiring, op)
    ensures var t := Step(cfg, s, op); CoreInSync(t) && SameButDigest(s.wiring, t.wiring)
  {
    match op
    case RecordVerdict(r) => VerdictKeepsSignals(cfg, s, r); SignalsKeepCore(s, AfterVerdict(cfg, s, r));
    case BulkRecord(rows) => BulkKeepsSignals(cfg, s, rows); SignalsKeepCore(s, AfterBulk(cfg, s, rows));
    case Advance => SignalsKeepCore(s, AfterAdvance(cfg, s));
    case Demote(reason) => SignalsKeepCore(s, AfterDemote(s));
    case Reconcile(now) => RoutineIsQuiet(cfg, s, now);
    case Migrate(to, acceptReset, now) => MigrateKeepsCore(cfg, s, to, acceptReset, now);
    case Rewire(_, _, _) => SignalsKeepCore(s, Step(cfg, s, op));
    case AutoLog(_) =>
  }

  lemma {:induction false} RoutineRunKeepsCore(cfg: Config, s: State, ops: seq<Op>)
    requires CoreInSync(s) && forall i :: 0 <= i < |ops| ==> Routine(s.wiring, ops[i])
    ensures var t := Run(cfg, s, ops); CoreInSync(t) && SameButDigest(s.wiring, t.wiring)
  {
    if ops != [] {
      RoutineRunKeepsCore(cfg, s, ops[..|ops| - 1]);
      RoutineStepKeepsCore(cfg, Run(cfg, s, ops[..|ops| - 1]), ops[|ops| - 1]);
    }
  }

  /**
   Retraining is never taken for a swap: over any run whose rewirings change no more than the head
   and the rule's digest, a reconciliation at any point changes neither phase, gate, head nor
   counters and writes nothing but an advisory.
   */
  lemma RetrainsAreNotSwaps(cfg: Config, s: State, ops: seq<Op>, now: real)
    requires CoreInSync(s) && forall i :: 0 <= i < |ops| ==> Routine(s.wiring, ops[i])
    ensures var t := Run(cfg, s, ops);
            var u := AfterReconcile(cfg, t, now);
            u.(saved := t.saved, ledger := t.ledger) == t && (u.ledger == t.ledger || u.ledger == t.ledger + [Advisory])
  {
    RoutineRunKeepsCore(cfg, s, ops);
    RoutineIsQuiet(cfg, Run(cfg, s, ops), now);
  }
}
