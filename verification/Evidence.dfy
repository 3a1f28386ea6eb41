/**
 From outcome records to paired evidence: what one recorded verdict says about each layer,
 and how record_verdict builds a record.
 */
module Evidence {
  import opened McNemar

  datatype Option<+T> = None | Some(value: T)

  /** str.strip() leaves nothing: only white space (the ASCII kind). */
  predicate Blank(s: string) {
    forall c | c in s :: c in [' ', '\t', '\n', '\r', 11 as char, 12 as char]
  }

  // ---------------------------------------------------------------------------
  // Phases
  // ---------------------------------------------------------------------------

  datatype Phase = Rule | ModelShadow | ModelPrimary | MlShadow | MlWithFallback | MlPrimary

  function Order(p: Phase): nat {
    match p
    case Rule => 0
    case ModelShadow => 1
    case ModelPrimary => 2
    case MlShadow => 3
    case MlWithFallback => 4
    case MlPrimary => 5
  }

  /** The phase table, in its insertion order. */
  const PHASES: seq<Phase> := [Rule, ModelShadow, ModelPrimary, MlShadow, MlWithFallback, MlPrimary]

  function NextPhase(p: Phase): (r: Option<Phase>)
    ensures r.Some? ==> Order(r.value) == Order(p) + 1
    ensures r.None? <==> p == MlPrimary
  {
    if p == MlPrimary then None else Some(PHASES[Order(p) + 1])
  }

  function PrevPhase(p: Phase): (r: Option<Phase>)
    ensures r.Some? ==> Order(r.value) == Order(p) - 1
    ensures r.None? <==> p == Rule
  {
    if p == Rule then None else Some(PHASES[Order(p) - 1])
  }

  // ---------------------------------------------------------------------------
  // Records
  // ---------------------------------------------------------------------------

  type Input = int

  /** A classification output: a string, or any other value (an enum member, an int). */
  datatype Label = Text(s: string) | Value(id: int)

  datatype Verdict = Correct | Incorrect | Unknown

  datatype Record = Record(
    timestamp: real,
    input: Input,
    decision: Option<Label>,
    outcome: Verdict,
    source: string,
    confidence: real,
    ruleOutput: Option<Label>,
    modelOutput: Option<Label>,
    mlOutput: Option<Label>,
    modelOutcome: Option<Verdict>,
    mlOutcome: Option<Verdict>)

  /** Which output of a record is a layer's prediction. */
  datatype Field = RuleOutput | ModelOutput | MlOutput

  /** _phase_source_field */
  function SourceField(p: Phase): Field {
    match p
    case Rule => RuleOutput
    case ModelShadow => RuleOutput
    case ModelPrimary => ModelOutput
    case MlShadow => ModelOutput
    case MlWithFallback => MlOutput
    case MlPrimary => MlOutput
  }

  function OutputOf(r: Record, f: Field): Option<Label> {
    match f
    case RuleOutput => r.ruleOutput
    case ModelOutput => r.modelOutput
    case MlOutput => r.mlOutput
  }

  /** A verdict given to a layer on its own output; the rule never gets one. */
  function IndependentVerdict(r: Record, f: Field): Option<Verdict> {
    match f
    case RuleOutput => None
    case ModelOutput => r.modelOutcome
    case MlOutput => r.mlOutcome
  }

  /** _source_correct_for: was this layer right?  None when the record cannot say. */
  function SourceCorrectFor(r: Record, f: Field): Option<bool> {
    var own := IndependentVerdict(r, f);
    if own == Some(Correct) then Some(true)
    else if own == Some(Incorrect) then Some(false)
    else if OutputOf(r, f).None? then None
    else if r.outcome == Correct then Some(OutputOf(r, f) == r.decision)
    else if r.outcome == Incorrect && OutputOf(r, f) == r.decision then Some(false)
    else None
  }

  // ---------------------------------------------------------------------------
  // Pairing
  // ---------------------------------------------------------------------------

  /** The records that say something about both layers, as pairs, in log order. */
  function Pairs(records: seq<Record>, current: Field, target: Field): seq<Pair> {
    if records == [] then []
    else
      var init, last := records[..|records| - 1], records[|records| - 1];
      var earlier := Pairs(init, current, target);
      var c, t := SourceCorrectFor(last, current), SourceCorrectFor(last, target);
      if c.Some? && t.Some? then earlier + [Pair(c.value, t.value)] else earlier
  }

  function CurrentColumn(s: seq<Pair>): seq<bool> {
    seq(|s|, i requires 0 <= i < |s| => s[i].current)
  }

  function TargetColumn(s: seq<Pair>): seq<bool> {
    seq(|s|, i requires 0 <= i < |s| => s[i].target)
  }

  /** What one record adds. */
  function PairOf(r: Record, x: Field, y: Field): seq<Pair> {
    var c, t := SourceCorrectFor(r, x), SourceCorrectFor(r, y);
    if c.Some? && t.Some? then [Pair(c.value, t.value)] else []
  }

  lemma PairsAppend(records: seq<Record>, r: Record, x: Field, y: Field)
    ensures Pairs(records + [r], x, y) == Pairs(records, x, y) + PairOf(r, x, y)
  {
    assert (records + [r])[..|records|] == records;
  }

  lemma {:induction false} PairsConcat(records: seq<Record>, more: seq<Record>, x: Field, y: Field)
    ensures Pairs(records + more, x, y) == Pairs(records, x, y) + Pairs(more, x, y)
  {
    if more == [] {
      assert records + more == records;
    } else {
      var init, last := more[..|more| - 1], more[|more| - 1];
      PairsConcat(records, init, x, y);
      assert records + more == (records + init) + [last];
      assert more == init + [last];
      PairsAppend(records + init, last, x, y);
      PairsAppend(init, last, x, y);
    }
  }

  /** _paired_correctness: the two parallel lists, one entry for each paired record. */
  method PairedCorrectness(records: seq<Record>, currentPhase: Phase, targetPhase: Phase)
    returns (currentCorrect: seq<bool>, targetCorrect: seq<bool>)
    ensures currentCorrect == CurrentColumn(Pairs(records, SourceField(currentPhase), SourceField(targetPhase)))
    ensures targetCorrect == TargetColumn(Pairs(records, SourceField(currentPhase), SourceField(targetPhase)))
  {
    var currentField, targetField := SourceField(currentPhase), SourceField(targetPhase);
    currentCorrect, targetCorrect := [], [];
    for i := 0 to |records|
      invariant currentCorrect == CurrentColumn(Pairs(records[..i], currentField, targetField))
      invariant targetCorrect == TargetColumn(Pairs(records[..i], currentField, targetField))
    {
      assert records[..i + 1][..i] == records[..i];
      var c := SourceCorrectFor(records[i], currentField);
      var t := SourceCorrectFor(records[i], targetField);
      if c.Some? && t.Some? {
        currentCorrect := currentCorrect + [c.value];
        targetCorrect := targetCorrect + [t.value];
      }
    }
    assert records[..|records|] == records;
  }

  // ---------------------------------------------------------------------------
  // Soundness against ground truth
  // ---------------------------------------------------------------------------

  /** The one right label of every input. */
  type Truth = Input -> Label

  /** A verdict given to an output agrees with the truth; Unknown says nothing. */
  predicate Agrees(v: Verdict, output: Option<Label>, truth: Label) {
    && (v == Correct ==> output == Some(truth))
    && (v == Incorrect ==> output != Some(truth))
  }

  predicate Truthful(r: Record, truth: Truth) {
    && Agrees(r.outcome, r.decision, truth(r.input))
    && (r.modelOutcome.Some? ==> Agrees(r.modelOutcome.value, r.modelOutput, truth(r.input)))
    && (r.mlOutcome.Some? ==> Agrees(r.mlOutcome.value, r.mlOutput, truth(r.input)))
  }

  predicate LayerRight(r: Record, f: Field, truth: Truth) {
    OutputOf(r, f) == Some(truth(r.input))
  }

  /** A determinate answer is the truth about the layer. */
  lemma EvidenceIsSound(r: Record, f: Field, truth: Truth)
    requires Truthful(r, truth)
    ensures SourceCorrectFor(r, f).Some? ==> (SourceCorrectFor(r, f).value <==> LayerRight(r, f, truth))
  {
  }

  predicate Paired(r: Record, current: Field, target: Field) {
    SourceCorrectFor(r, current).Some? && SourceCorrectFor(r, target).Some?
  }

  /** How often a layer is truly right on the records that pair the two layers. */
  function TrulyRight(records: seq<Record>, current: Field, target: Field, layer: Field, truth: Truth): nat {
    if records == [] then 0
    else
      var init, last := records[..|records| - 1], records[|records| - 1];
      TrulyRight(init, current, target, layer, truth)
      + if Paired(last, current, target) && LayerRight(last, layer, truth) then 1 else 0
  }

  lemma WinsOfAppend(s: seq<Pair>, p: Pair)
    ensures Wins(s + [p]) == Wins(s) + (if !p.current && p.target then 1 else 0)
    ensures Losses(s + [p]) == Losses(s) + (if p.current && !p.target then 1 else 0)
    ensures CurrentRight(s + [p]) == CurrentRight(s) + (if p.current then 1 else 0)
    ensures TargetRight(s + [p]) == TargetRight(s) + (if p.target then 1 else 0)
  {
    assert (s + [p])[..|s|] == s;
  }

  /** Where in a sample a pair of a kind stands. */
  function Where(s: seq<Pair>, kind: Pair -> bool): set<nat> {
    set i: nat | i < |s| && kind(s[i])
  }

  lemma WhereAppend(s: seq<Pair>, p: Pair, kind: Pair -> bool)
    ensures |Where(s + [p], kind)| == |Where(s, kind)| + (if kind(p) then 1 else 0)
  {
    var more := Where(s + [p], kind);
    assert Where(s, kind) == more - {|s|};
    assert |s| in more <==> kind(p);
  }

  /** The counts of a sample count places: where only the target is right, where only the current layer is, and where each is. */
  lemma {:induction false} CountsArePlaces(s: seq<Pair>)
    ensures Wins(s) == |Where(s, (p: Pair) => p.target && !p.current)| && Losses(s) == |Where(s, (p: Pair) => p.current && !p.target)|
    ensures TargetRight(s) == |Where(s, (p: Pair) => p.target)| && CurrentRight(s) == |Where(s, (p: Pair) => p.current)|
  {
    if s != [] {
      var init, last := s[..|s| - 1], s[|s| - 1];
      CountsArePlaces(init);
      WinsOfAppend(init, last);
      WhereAppend(init, last, (p: Pair) => p.target && !p.current);
      WhereAppend(init, last, (p: Pair) => p.current && !p.target);
      WhereAppend(init, last, (p: Pair) => p.target);
      WhereAppend(init, last, (p: Pair) => p.current);
      assert init + [last] == s;
    }
  }

  /** On a truthful log, b - c is the true difference in correct answers on the paired records. */
  lemma {:induction false} PairedDifferenceIsTrue(records: seq<Record>, current: Field, target: Field, truth: Truth)
    requires forall i :: 0 <= i < |records| ==> Truthful(records[i], truth)
    ensures var s := Pairs(records, current, target);
            Wins(s) - Losses(s) == TrulyRight(records, current, target, target, truth)
                                   - TrulyRight(records, current, target, current, truth)
  {
    if records != [] {
      var init, last := records[..|records| - 1], records[|records| - 1];
      PairedDifferenceIsTrue(init, current, target, truth);
      EvidenceIsSound(last, current, truth);
      EvidenceIsSound(last, target, truth);
      if Paired(last, current, target) {
        WinsOfAppend(Pairs(init, current, target),
                     Pair(SourceCorrectFor(last, current).value, SourceCorrectFor(last, target).value));
      }
    }
  }

  // ---------------------------------------------------------------------------
  // Building a record (record_verdict up to the append)
  // ---------------------------------------------------------------------------

  /** The shadow observations a classification carries. */
  datatype Context = Context(ruleOutput: Option<Label>, modelOutput: Option<Label>, mlOutput: Option<Label>)

  /** A verifier's answer for an input and a label; None when it raises. */
  type Judge = (Input, Label) -> Option<Verdict>

  function Adjudicated(judge: Option<Judge>, input: Input, decision: Option<Label>, outcome: Verdict,
                       shadow: Option<Label>): Option<Verdict> {
    if judge.None? || outcome != Incorrect || shadow.None? || shadow == decision then None
    else judge.value(input, shadow.value)
  }

  /** The record written for a verdict; `judge` is the verifier when adjudication is on and one is configured. */
  function BuildRecord(judge: Option<Judge>, timestamp: real, input: Input, decision: Option<Label>, outcome: Verdict,
                       source: string, confidence: real, context: Option<Context>): Record {
    var ruleOutput :=
      if context.Some? && (context.value.ruleOutput.Some? || source != "rule") then context.value.ruleOutput
      else if source == "rule" then decision else None;
    var modelOutput := if context.Some? then context.value.modelOutput else None;
    var mlOutput := if context.Some? then context.value.mlOutput else None;
    Record(timestamp, input, decision, outcome, source, confidence, ruleOutput, modelOutput, mlOutput,
           Adjudicated(judge, input, decision, outcome, modelOutput),
           Adjudicated(judge, input, decision, outcome, mlOutput))
  }

  /** A truthful verdict and a truthful verifier make a truthful record. */
  lemma BuiltRecordsAreTruthful(judge: Option<Judge>, timestamp: real, input: Input, decision: Option<Label>,
                                outcome: Verdict, source: string, confidence: real, context: Option<Context>, truth: Truth)
    requires Agrees(outcome, decision, truth(input))
    requires judge.Some? ==> forall l :: judge.value(input, l).Some? ==> Agrees(judge.value(input, l).value, Some(l), truth(input))
    ensures Truthful(BuildRecord(judge, timestamp, input, decision, outcome, source, confidence, context), truth)
  {
  }

  predicate Decisive(v: Option<Verdict>) {
    v == Some(Correct) || v == Some(Incorrect)
  }

  /** What a record keeps of the call: its own arguments, and what each tier said on the classification. */
  lemma RecordKeepsObservations(judge: Option<Judge>, timestamp: real, input: Input, decision: Option<Label>, outcome: Verdict,
                                source: string, confidence: real, context: Option<Context>)
    ensures var r := BuildRecord(judge, timestamp, input, decision, outcome, source, confidence, context);
            && r.timestamp == timestamp && r.input == input && r.decision == decision && r.outcome == outcome
            && r.source == source && r.confidence == confidence
            && (context.Some? ==> r.modelOutput == context.value.modelOutput && r.mlOutput == context.value.mlOutput)
            && (context.None? ==> r.modelOutput.None? && r.mlOutput.None?)
            && (context.Some? && context.value.ruleOutput.Some? ==> r.ruleOutput == context.value.ruleOutput)
            && (context.None? || context.value.ruleOutput.None? ==> r.ruleOutput == if source == "rule" then decision else None)
  {
  }

  /**
   Exactly when a judged record says whether the model or ML layer was right: the layer spoke on the
   classification, and the decision was correct, or was the layer's own output, or the verifier ruled
   on the layer's output.  Without a verifier a layer that disagrees with a wrong decision is silent.
   */
  lemma ShadowEvidenceIffAdjudicated(judge: Option<Judge>, timestamp: real, input: Input, decision: Option<Label>,
                                     outcome: Verdict, source: string, confidence: real, context: Context, f: Field)
    requires f != RuleOutput && outcome != Unknown
    ensures var r := BuildRecord(judge, timestamp, input, decision, outcome, source, confidence, Some(context));
            var own := if f == ModelOutput then context.modelOutput else context.mlOutput;
            SourceCorrectFor(r, f).Some? <==>
              own.Some? && (outcome == Correct || own == decision
                            || (judge.Some? && Decisive(judge.value(input, own.value))))
  {
  }

  /**
   And what it then says: a correct decision scores the layer by agreement with it, a wrong one that
   was the layer's own counts against the layer, and any other by what the verifier said of the layer.
   */
  lemma ShadowScore(judge: Option<Judge>, timestamp: real, input: Input, decision: Option<Label>, outcome: Verdict,
                    source: string, confidence: real, context: Context, f: Field)
    requires f != RuleOutput
    ensures var r := BuildRecord(judge, timestamp, input, decision, outcome, source, confidence, Some(context));
            var own := if f == ModelOutput then context.modelOutput else context.mlOutput;
            var score := SourceCorrectFor(r, f);
            && (own.None? || outcome == Unknown ==> score == None)
            && (own.Some? && outcome == Correct ==> score == Some(own == decision))
            && (own.Some? && outcome == Incorrect && own == decision ==> score == Some(false))
            && (own.Some? && outcome == Incorrect && own != decision ==>
                  score == if judge.None? || !Decisive(judge.value(input, own.value)) then None
                           else Some(judge.value(input, own.value) == Some(Correct)))
  {
  }

  /**
   The rule is never adjudicated: once a decision is wrong, the rule's evidence is lost unless
   the rule itself produced the wrong decision, verifier or not.  On a correct decision it is scored
   by agreement.  Its output is the classification's, or else the decision under the source "rule".
   */
  lemma RuleEvidenceIsLostOnWrongDecisions(judge: Option<Judge>, timestamp: real, input: Input, decision: Option<Label>,
                                           source: string, confidence: real, context: Option<Context>)
    ensures var own := if context.Some? && context.value.ruleOutput.Some? then context.value.ruleOutput
                       else if source == "rule" then decision else None;
            var wrong := BuildRecord(judge, timestamp, input, decision, Incorrect, source, confidence, context);
            var right := BuildRecord(judge, timestamp, input, decision, Correct, source, confidence, context);
            && SourceCorrectFor(wrong, RuleOutput) == (if own.Some? && own == decision then Some(false) else None)
            && SourceCorrectFor(right, RuleOutput) == (if own.Some? then Some(own == decision) else None)
  {
  }

  /** A record of a verdict given without a classification result: nothing is known of the model and the head. */
  predicate NoShadows(r: Record) {
    r.modelOutput.None? && r.mlOutput.None? && r.modelOutcome.None? && r.mlOutcome.None?
  }

  /** A direct verdict says something about no layer but the rule, and about the rule only under the source "rule". */
  lemma DirectVerdictsFeedTheRuleOnly(judge: Option<Judge>, timestamp: real, input: Input, decision: Option<Label>,
                                      outcome: Verdict, source: string, confidence: real, f: Field)
    ensures var r := BuildRecord(judge, timestamp, input, decision, outcome, source, confidence, None);
            && NoShadows(r)
            && SourceCorrectFor(r, f) == if f == RuleOutput && source == "rule" && decision.Some? && outcome != Unknown
                                         then Some(outcome == Correct) else None
  {
  }

  /** So such records never pair two layers. */
  lemma {:induction false} NothingToPair(records: seq<Record>, x: Field, y: Field)
    requires x != y && forall i :: 0 <= i < |records| ==> NoShadows(records[i])
    ensures Pairs(records, x, y) == []
  {
    if records != [] { NothingToPair(records[..|records| - 1], x, y); }
  }

  // ---------------------------------------------------------------------------
  // Bias
  // ---------------------------------------------------------------------------

  /** The decision is the current layer's own output, and neither layer was judged on its own. */
  predicate DecidedByLayer(r: Record, current: Field, target: Field) {
    && OutputOf(r, current) == r.decision
    && !Decisive(IndependentVerdict(r, target))
    && !Decisive(IndependentVerdict(r, current))
  }

  predicate DecidedBy(records: seq<Record>, current: Field, target: Field) {
    forall i | 0 <= i < |records| :: DecidedByLayer(records[i], current, target)
  }

  lemma NoWinOverTheDecider(r: Record, current: Field, target: Field)
    requires DecidedByLayer(r, current, target) && Paired(r, current, target)
    ensures SourceCorrectFor(r, target).value ==> SourceCorrectFor(r, current).value
  {
  }

  /** Then no record is ever counted as a win of the target, however good the target is. */
  lemma {:induction false} IncumbentNeverLoses(records: seq<Record>, current: Field, target: Field)
    requires DecidedBy(records, current, target)
    ensures Wins(Pairs(records, current, target)) == 0
  {
    if records != [] {
      var init, last := records[..|records| - 1], records[|records| - 1];
      IncumbentNeverLoses(init, current, target);
      PairsStep(records, current, target);
      if Paired(last, current, target) { NoWinOverTheDecider(last, current, target); }
    }
  }

  /** What the last record adds: one pair, its two answers, exactly when it speaks of both layers. */
  lemma PairsStep(records: seq<Record>, x: Field, y: Field)
    requires records != []
    ensures var init, last := records[..|records| - 1], records[|records| - 1];
            var s, t := Pairs(init, x, y), Pairs(records, x, y);
            if Paired(last, x, y) then
              && t == s + [Pair(SourceCorrectFor(last, x).value, SourceCorrectFor(last, y).value)]
              && Wins(t) == Wins(s) + (if !SourceCorrectFor(last, x).value && SourceCorrectFor(last, y).value then 1 else 0)
              && Losses(t) == Losses(s) + (if SourceCorrectFor(last, x).value && !SourceCorrectFor(last, y).value then 1 else 0)
            else t == s
  {
    var init, last := records[..|records| - 1], records[|records| - 1];
    if Paired(last, x, y) {
      WinsOfAppend(Pairs(init, x, y), Pair(SourceCorrectFor(last, x).value, SourceCorrectFor(last, y).value));
    }
  }

  /** Two phases that read one output never disagree. */
  lemma {:induction false} OneFieldNeverDisagrees(records: seq<Record>, f: Field)
    ensures Wins(Pairs(records, f, f)) == 0 && Losses(Pairs(records, f, f)) == 0
  {
    if records != [] {
      OneFieldNeverDisagrees(records[..|records| - 1], f);
      PairsStep(records, f, f);
    }
  }

  /** Swapping the two sides swaps wins and losses. */
  lemma {:induction false} PairsSwap(records: seq<Record>, x: Field, y: Field)
    ensures |Pairs(records, x, y)| == |Pairs(records, y, x)|
    ensures Wins(Pairs(records, x, y)) == Losses(Pairs(records, y, x))
    ensures Losses(Pairs(records, x, y)) == Wins(Pairs(records, y, x))
  {
    if records != [] {
      PairsSwap(records[..|records| - 1], x, y);
      PairsStep(records, x, y);
      PairsStep(records, y, x);
    }
  }
}
