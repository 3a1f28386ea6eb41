/** What a drift gate can see: which records are points for the rule against the layer in charge. */
module Drift {
  import opened McNemar
  import opened Evidence
  import opened Gates
  import opened Lifecycle

  /** The advance from MODEL_SHADOW and the drift test back to the rule cannot both fire on one log. */
  lemma NoDemotionOnTheAdvancingLog(cfg: Config, s: State)
    requires Strict(s.gate) && Strict(cfg.driftGate)
    requires s.phase == ModelShadow && CanAdvance(cfg, s)
    ensures AfterAdvance(cfg, s).phase == ModelPrimary && !DriftFires(cfg, AfterAdvance(cfg, s))
  {
    FreshModelPrimaryIsNotDemoted(s.gate, cfg.driftGate, s.log);
  }

  /** The record is a point for the rule: a correct decision that was the rule's, and a layer that was wrong. */
  predicate FeedsDrift(r: Record, f: Field) {
    && r.outcome == Correct && r.ruleOutput.Some? && r.ruleOutput == r.decision
    && LayerMissed(r, f)
  }

  /** The layer was judged wrong on its own, or said something other than the correct decision. */
  predicate LayerMissed(r: Record, f: Field) {
    var own := IndependentVerdict(r, f);
    own == Some(Incorrect) || (own != Some(Correct) && OutputOf(r, f).Some? && OutputOf(r, f) != r.decision)
  }

  /** The record is a point against the rule. */
  predicate CountersDrift(r: Record, f: Field) {
    && SourceCorrectFor(r, RuleOutput) == Some(false)
    && SourceCorrectFor(r, f) == Some(true)
  }

  function Feeding(records: seq<Record>, f: Field): nat {
    if records == [] then 0
    else Feeding(records[..|records| - 1], f) + if FeedsDrift(records[|records| - 1], f) then 1 else 0
  }

  function Countering(records: seq<Record>, f: Field): nat {
    if records == [] then 0
    else Countering(records[..|records| - 1], f) + if CountersDrift(records[|records| - 1], f) then 1 else 0
  }

  /** Which records count for the rule: exactly those. */
  lemma FeedsDriftIff(r: Record, f: Field)
    requires f != RuleOutput
    ensures FeedsDrift(r, f) <==> SourceCorrectFor(r, f) == Some(false) && SourceCorrectFor(r, RuleOutput) == Some(true)
  {
  }

  /** For records of recorded verdicts no independent verdict stands in between: the layer disagreed with a correct answer of the rule's. */
  lemma BuiltRecordFeedsDriftIff(judge: Option<Judge>, timestamp: real, input: Input, decision: Option<Label>, outcome: Verdict,
                                 source: string, confidence: real, context: Option<Context>, f: Field)
    requires f != RuleOutput
    ensures var r := BuildRecord(judge, timestamp, input, decision, outcome, source, confidence, context);
            var rule := if context.Some? && context.value.ruleOutput.Some? then context.value.ruleOutput
                        else if source == "rule" then decision else None;
            FeedsDrift(r, f) <==>
              outcome == Correct && rule.Some? && rule == decision && context.Some?
              && var own := if f == ModelOutput then context.value.modelOutput else context.value.mlOutput;
                 own.Some? && own != decision
  {
  }

  /** Over a log, the wins of the rule are the feeding records and its losses the countering ones. */
  lemma {:induction false} WinsAreFeeding(records: seq<Record>, f: Field)
    requires f != RuleOutput
    ensures var s := Pairs(records, f, RuleOutput); Wins(s) == Feeding(records, f) && Losses(s) == Countering(records, f)
  {
    if records != [] {
      WinsAreFeeding(records[..|records| - 1], f);
      PairsStep(records, f, RuleOutput);
      FeedsDriftIff(records[|records| - 1], f);
    }
  }

  /** The most sensitive strict gate. */
  const KEENEST := AccuracyMarginGate(0.0, 1)

  lemma KeenestFiresIff(records: seq<Record>, p: Phase)
    requires SourceField(p) != RuleOutput
    ensures SaysBetter(KEENEST, records, p, Rule) <==> Feeding(records, SourceField(p)) > Countering(records, SourceField(p))
  {
    var s := Pairs(records, SourceField(p), RuleOutput);
    WinsAreFeeding(records, SourceField(p));
    DiscordantPairsAreTheDifference(s);
    if s != [] { DeltaSign(s); }
  }

  /**
   Exactly which logs some strict drift gate can fire on: those with more feeding records than
   countering ones.
   */
  lemma StrictDriftIff(records: seq<Record>, p: Phase)
    requires p != Rule
    ensures (exists gate :: Strict(gate) && SaysBetter(gate, records, p, Rule))
            <==> SourceField(p) != RuleOutput && Feeding(records, SourceField(p)) > Countering(records, SourceField(p))
  {
    if gate :| Strict(gate) && SaysBetter(gate, records, p, Rule) {
      if SourceField(p) == RuleOutput {
        StrictRefusesSameField(gate, records, p, Rule);
      } else {
        StrictNeedsWins(gate, records, p, Rule);
        WinsAreFeeding(records, SourceField(p));
      }
    }
    if SourceField(p) != RuleOutput && Feeding(records, SourceField(p)) > Countering(records, SourceField(p)) {
      KeenestFiresIff(records, p);
      assert Strict(KEENEST);
    }
  }

  lemma {:induction false} NothingFeeds(records: seq<Record>, f: Field)
    requires forall i :: 0 <= i < |records| ==> !FeedsDrift(records[i], f)
    ensures Feeding(records, f) == 0
  {
    if records != [] { NothingFeeds(records[..|records| - 1], f); }
  }

  /**
   So a record can take part in a strict drift alarm exactly when it is a feeding one: without one
   no strict gate fires, and with one some strict gate fires on that record alone.
   */
  lemma OnlyFeedingRecordsMatter(s: State, cfg: Config, r: Record)
    requires s.phase != Rule && SourceField(s.phase) != RuleOutput
    ensures Strict(cfg.driftGate) && DriftFires(cfg, s) ==>
              exists i :: 0 <= i < |s.log| && FeedsDrift(s.log[i], SourceField(s.phase))
    ensures SaysBetter(KEENEST, [r], s.phase, Rule) <==> FeedsDrift(r, SourceField(s.phase))
  {
    var f := SourceField(s.phase);
    if Strict(cfg.driftGate) && DriftFires(cfg, s) {
      StrictNeedsWins(cfg.driftGate, s.log, s.phase, Rule);
      WinsAreFeeding(s.log, f);
      if forall i :: 0 <= i < |s.log| ==> !FeedsDrift(s.log[i], f) { NothingFeeds(s.log, f); }
    }
    KeenestFiresIff([r], s.phase);
    FeedsDriftIff(r, f);
    assert [r][..0] == [];
    assert Feeding([r], f) == if FeedsDrift(r, f) then 1 else 0;
    assert Countering([r], f) == if CountersDrift(r, f) then 1 else 0;
  }

  /** A layer's own decisions are never feeding records, verifier or not: while it makes them all, its decay stays unseen. */
  lemma OwnDecisionsHideDrift(cfg: Config, s: State)
    requires Strict(cfg.driftGate)
    requires forall i :: 0 <= i < |s.log| ==> DecidedByLayer(s.log[i], SourceField(s.phase), RuleOutput)
    ensures !DriftFires(cfg, s)
  {
    if DriftFires(cfg, s) {
      StrictRefusesAgainstTheDecider(cfg.driftGate, s.log, s.phase, Rule);
    }
  }
}
