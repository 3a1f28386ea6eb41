/**
 What a classification is meant to be: the first active tier with a usable answer decides, and
 the rule decides when none has one.  LearnedSwitch.Classify is proved to compute this.
 */
module Cascade {
  import opened Evidence

  /** What a configured tier does when it is called. */
  datatype Answer = Raises | Predicts(choice: Option<Label>, confidence: real)

  /** What each tier would do on the input at hand; None where it is not configured. */
  datatype Tiers = Tiers(rule: Option<Label>, model: Option<Answer>, head: Option<Answer>)

  datatype Tier = ModelTier | HeadTier

  datatype Source = FromRule | FromRuleFallback | FromModel | FromMl

  /** _is_real_label */
  predicate IsRealLabel(l: Option<Label>) {
    l.Some? && (l.value.Text? ==> !Blank(l.value.s))
  }

  /** _clamp_conf, on numbers. */
  function Clamp(c: real): (r: real)
    ensures 0.0 <= r <= 1.0
    ensures 0.0 <= c <= 1.0 ==> r == c
  {
    if c < 0.0 then 0.0 else if c > 1.0 then 1.0 else c
  }

  /** The tiers that may decide in a phase, the most trusted first. */
  function Active(p: Phase): seq<Tier> {
    match p
    case Rule => []
    case ModelShadow => []
    case ModelPrimary => [ModelTier]
    case MlShadow => [ModelTier]
    case MlWithFallback => [HeadTier, ModelTier]
    case MlPrimary => [HeadTier]
  }

  /** The confidence a decision needs; ML_PRIMARY asks for none. */
  function Bar(p: Phase, threshold: real): Option<real> {
    if p == MlPrimary then None else Some(threshold)
  }

  function AnswerOf(tiers: Tiers, t: Tier): Option<Answer> {
    if t == ModelTier then tiers.model else tiers.head
  }

  predicate Usable(answer: Option<Answer>, bar: Option<real>) {
    && answer.Some? && answer.value.Predicts?
    && IsRealLabel(answer.value.choice)
    && (bar.Some? ==> answer.value.confidence >= bar.value)
  }

  /** The first tier with a usable answer. */
  function FirstUsable(active: seq<Tier>, tiers: Tiers, bar: Option<real>): (r: Option<Tier>)
    ensures r.Some? ==> r.value in active && Usable(AnswerOf(tiers, r.value), bar)
  {
    if active == [] then None
    else if Usable(AnswerOf(tiers, active[0]), bar) then Some(active[0])
    else FirstUsable(active[1..], tiers, bar)
  }

  predicate NoneConfigured(active: seq<Tier>, tiers: Tiers) {
    forall t | t in active :: AnswerOf(tiers, t).None?
  }

  datatype Decided = Decided(choice: Option<Label>, source: Source)

  /** The decision, given the tiers that may take part. */
  function DecideAmong(active: seq<Tier>, tiers: Tiers, bar: Option<real>): Decided {
    var t := FirstUsable(active, tiers, bar);
    if t.Some? then
      Decided(AnswerOf(tiers, t.value).value.choice, if t.value == ModelTier then FromModel else FromMl)
    else
      Decided(tiers.rule, if NoneConfigured(active, tiers) then FromRule else FromRuleFallback)
  }

  function Decide(p: Phase, threshold: real, tiers: Tiers): Decided {
    DecideAmong(Active(p), tiers, Bar(p, threshold))
  }

  // ---------------------------------------------------------------------------
  // Laws of the cascade
  // ---------------------------------------------------------------------------

  lemma {:induction false} FirstUsableIsFirst(active: seq<Tier>, tiers: Tiers, bar: Option<real>)
    ensures match FirstUsable(active, tiers, bar)
            case None => forall i :: 0 <= i < |active| ==> !Usable(AnswerOf(tiers, active[i]), bar)
            case Some(t) => exists i :: 0 <= i < |active| && active[i] == t && Usable(AnswerOf(tiers, t), bar)
                                        && forall j :: 0 <= j < i ==> !Usable(AnswerOf(tiers, active[j]), bar)
  {
    if active != [] {
      var rest := active[1..];
      if Usable(AnswerOf(tiers, active[0]), bar) {
        assert active[0] == FirstUsable(active, tiers, bar).value;
      } else {
        FirstUsableIsFirst(rest, tiers, bar);
        var r := FirstUsable(rest, tiers, bar);
        if r.Some? {
          var i :| 0 <= i < |rest| && rest[i] == r.value && forall j :: 0 <= j < i ==> !Usable(AnswerOf(tiers, rest[j]), bar);
          forall j | 0 <= j < i + 1 ensures !Usable(AnswerOf(tiers, active[j]), bar) {
            if j > 0 { assert active[j] == rest[j - 1]; }
          }
          assert active[i + 1] == r.value;
        } else {
          forall j | 0 <= j < |active| ensures !Usable(AnswerOf(tiers, active[j]), bar) {
            if j > 0 { assert active[j] == rest[j - 1]; }
          }
        }
      }
    }
  }

  /** A layer that is not active has no say: the decision depends on the rule and the active tiers alone. */
  lemma ShadowsHaveNoSay(active: seq<Tier>, tiers: Tiers, tiers': Tiers, bar: Option<real>)
    requires tiers.rule == tiers'.rule
    requires forall t :: t in active ==> AnswerOf(tiers, t) == AnswerOf(tiers', t)
    ensures DecideAmong(active, tiers, bar) == DecideAmong(active, tiers', bar)
  {
    SameFirstUsable(active, tiers, tiers', bar);
    FirstUsableIsFirst(active, tiers, bar);
  }

  lemma {:induction false} SameFirstUsable(active: seq<Tier>, tiers: Tiers, tiers': Tiers, bar: Option<real>)
    requires forall t :: t in active ==> AnswerOf(tiers, t) == AnswerOf(tiers', t)
    ensures FirstUsable(active, tiers, bar) == FirstUsable(active, tiers', bar)
  {
    if active != [] {
      assert active[0] in active;
      SameFirstUsable(active[1..], tiers, tiers', bar);
    }
  }

  /** Below ML_PRIMARY: the model in MODEL_SHADOW and the head in ML_SHADOW cannot change the decision. */
  lemma ShadowPhases(threshold: real, tiers: Tiers, answer: Option<Answer>)
    ensures Decide(ModelShadow, threshold, tiers.(model := answer)) == Decide(ModelShadow, threshold, tiers)
    ensures Decide(MlShadow, threshold, tiers.(head := answer)) == Decide(MlShadow, threshold, tiers)
    ensures Decide(ModelShadow, threshold, tiers) == Decided(tiers.rule, FromRule)
  {
    ShadowsHaveNoSay(Active(ModelShadow), tiers.(model := answer), tiers, Bar(ModelShadow, threshold));
    ShadowsHaveNoSay(Active(MlShadow), tiers.(head := answer), tiers, Bar(MlShadow, threshold));
  }

  function Position(active: seq<Tier>, t: Option<Tier>): nat {
    if active == [] || t == Some(active[0]) then 0 else 1 + Position(active[1..], t)
  }

  /** A higher threshold never moves the decision to a more trusted tier. */
  lemma {:induction false} HigherBarFallsBack(active: seq<Tier>, tiers: Tiers, low: real, high: real)
    requires low <= high
    ensures Position(active, FirstUsable(active, tiers, Some(low))) <= Position(active, FirstUsable(active, tiers, Some(high)))
  {
    if active != [] { HigherBarFallsBack(active[1..], tiers, low, high); }
  }

  /** What is served is the rule's output or a usable answer of an active tier: never a blank label of a tier. */
  lemma OnlyUsableLabelsAreServed(p: Phase, threshold: real, tiers: Tiers)
    ensures var d := Decide(p, threshold, tiers);
            && (d.source == FromModel ==> ModelTier in Active(p) && Usable(tiers.model, Bar(p, threshold)) && tiers.model.value.choice == d.choice)
            && (d.source == FromMl ==> HeadTier in Active(p) && Usable(tiers.head, Bar(p, threshold)) && tiers.head.value.choice == d.choice)
            && (d.source == FromRule || d.source == FromRuleFallback ==>
                  d.choice == tiers.rule && forall t :: t in Active(p) ==> !Usable(AnswerOf(tiers, t), Bar(p, threshold)))
  {
    FirstUsableIsFirst(Active(p), tiers, Bar(p, threshold));
  }

  /** The head decides exactly when it is on top and says something real, surely enough where a threshold is set. */
  lemma HeadDecidesIff(p: Phase, threshold: real, tiers: Tiers)
    ensures var d := Decide(p, threshold, tiers);
            && (d.source == FromMl <==>
                  (p == MlWithFallback || p == MlPrimary) && tiers.head.Some? && tiers.head.value.Predicts?
                  && IsRealLabel(tiers.head.value.choice) && (p == MlWithFallback ==> tiers.head.value.confidence >= threshold))
            && (d.source == FromMl ==> d.choice == tiers.head.value.choice)
  {
    assert Active(MlWithFallback)[0] == HeadTier && Active(MlPrimary)[0] == HeadTier;
    OnlyUsableLabelsAreServed(p, threshold, tiers);
  }

  /** The model decides exactly from MODEL_PRIMARY to ML_WITH_FALLBACK, when the head does not, and it says something real and sure enough. */
  lemma ModelDecidesIff(p: Phase, threshold: real, tiers: Tiers)
    ensures var d := Decide(p, threshold, tiers);
            && (d.source == FromModel <==>
                  (p == ModelPrimary || p == MlShadow || (p == MlWithFallback && d.source != FromMl))
                  && tiers.model.Some? && tiers.model.value.Predicts?
                  && IsRealLabel(tiers.model.value.choice) && tiers.model.value.confidence >= threshold)
            && (d.source == FromModel ==> d.choice == tiers.model.value.choice)
  {
    assert Active(MlWithFallback)[1..] == [ModelTier];
    assert FirstUsable([ModelTier], tiers, Some(threshold)) == if Usable(tiers.model, Some(threshold)) then Some(ModelTier) else None;
    OnlyUsableLabelsAreServed(p, threshold, tiers);
  }

  /** Otherwise the rule does: in its own right exactly when no tier that could decide is configured, else as a fallback. */
  lemma RuleDecidesIff(p: Phase, threshold: real, tiers: Tiers)
    ensures var d := Decide(p, threshold, tiers);
            && (d.source == FromRule <==>
                  && (p == ModelPrimary || p == MlShadow || p == MlWithFallback ==> tiers.model.None?)
                  && (p == MlWithFallback || p == MlPrimary ==> tiers.head.None?))
            && (d.source == FromRule || d.source == FromRuleFallback ==> d.choice == tiers.rule)
  {
    OnlyUsableLabelsAreServed(p, threshold, tiers);
    assert AnswerOf(tiers, ModelTier) == tiers.model && AnswerOf(tiers, HeadTier) == tiers.head;
    assert Active(MlWithFallback)[0] == HeadTier && Active(MlWithFallback)[1] == ModelTier && Active(MlPrimary)[0] == HeadTier;
    assert Active(ModelPrimary)[0] == ModelTier && Active(MlShadow)[0] == ModelTier;
  }

  // ---------------------------------------------------------------------------
  // The circuit breaker of ML_PRIMARY
  // ---------------------------------------------------------------------------

  datatype Call = Serve(tiers: Tiers) | Reset

  /** One classification at ML_PRIMARY with a head: the decision, the breaker after it, and whether the head was called. */
  function ServeMlPrimary(tripped: bool, tiers: Tiers): (Decided, bool, bool) {
    if tripped then (Decided(tiers.rule, FromRuleFallback), true, false)
    else (Decide(MlPrimary, 0.0, tiers), tiers.head == Some(Raises), true)
  }

  /**
   One call at ML_PRIMARY: the head is called exactly with the breaker closed, its answer is served
   exactly when it is called and says something real, and the breaker opens exactly when it raises.
   */
  lemma HeadServesIff(tripped: bool, tiers: Tiers)
    ensures var (d, open, called) := ServeMlPrimary(tripped, tiers);
            && (called <==> !tripped)
            && (open <==> tripped || (tiers.head.Some? && tiers.head.value.Raises?))
            && (d.source == FromMl <==>
                  !tripped && tiers.head.Some? && tiers.head.value.Predicts? && IsRealLabel(tiers.head.value.choice))
            && (d.source == FromMl ==> d.choice == tiers.head.value.choice)
            && (d.source != FromMl ==> d.choice == tiers.rule && (d.source == FromRule <==> !tripped && tiers.head.None?))
            && d.source != FromModel
  {
    HeadDecidesIff(MlPrimary, 0.0, tiers);
    ModelDecidesIff(MlPrimary, 0.0, tiers);
    RuleDecidesIff(MlPrimary, 0.0, tiers);
  }

  /** The breaker after a history of calls. */
  function BreakerAfter(tripped: bool, calls: seq<Call>): bool {
    if calls == [] then tripped
    else
      var before, last := BreakerAfter(tripped, calls[..|calls| - 1]), calls[|calls| - 1];
      if last.Reset? then false else ServeMlPrimary(before, last.tiers).1
  }

  /** The head raised at call k, with the breaker closed, and nothing has reset it since. */
  predicate FailedAt(tripped: bool, calls: seq<Call>, k: nat) {
    && k < |calls| && calls[k].Serve? && calls[k].tiers.head == Some(Raises)
    && !BreakerAfter(tripped, calls[..k])
    && NoResetAfter(calls, k)
  }

  predicate NoResetAfter(calls: seq<Call>, k: int) {
    forall i | k < i < |calls| && 0 <= i :: !calls[i].Reset?
  }

  lemma FailureOutlivesServing(tripped: bool, calls: seq<Call>, k: nat)
    requires k + 1 < |calls| && calls[|calls| - 1].Serve?
    ensures FailedAt(tripped, calls, k) <==> FailedAt(tripped, calls[..|calls| - 1], k)
  {
    assert calls[..|calls| - 1][..k] == calls[..k];
  }

  /**
   The breaker is open exactly when it was open at the start or the head has raised, and no reset
   came after that.
   */
  lemma {:induction false} BreakerIsOpenSinceAFailure(tripped: bool, calls: seq<Call>)
    ensures BreakerAfter(tripped, calls) <==> (tripped && NoResetAfter(calls, -1)) || exists k :: FailedAt(tripped, calls, k)
  {
    if calls != [] {
      var init, last, n := calls[..|calls| - 1], calls[|calls| - 1], |calls| - 1;
      BreakerIsOpenSinceAFailure(tripped, init);
      if last.Reset? {
        forall k ensures !FailedAt(tripped, calls, k) { assert calls[n].Reset?; }
      } else {
        forall k: nat | k < n ensures FailedAt(tripped, calls, k) <==> FailedAt(tripped, init, k) {
          FailureOutlivesServing(tripped, calls, k);
        }
        assert NoResetAfter(calls, -1) <==> NoResetAfter(init, -1) by {
          assert forall i :: 0 <= i < n ==> calls[i] == init[i];
        }
        assert FailedAt(tripped, calls, n) <==> last.tiers.head == Some(Raises) && !BreakerAfter(tripped, init);
        if BreakerAfter(tripped, init) && exists k :: FailedAt(tripped, init, k) {
          var k :| FailedAt(tripped, init, k);
          assert FailedAt(tripped, calls, k);
        }
      }
    }
  }

  /** From a failure until the next reset every decision is the rule's and the head is left alone. */
  lemma OpenBreakerServesTheRule(tripped: bool, calls: seq<Call>, k: nat, i: nat)
    requires k < i < |calls| && calls[k].Serve? && calls[k].tiers.head == Some(Raises)
    requires calls[i].Serve? && forall j :: k < j < i ==> !calls[j].Reset?
    ensures ServeMlPrimary(BreakerAfter(tripped, calls[..i]), calls[i].tiers)
            == (Decided(calls[i].tiers.rule, FromRuleFallback), true, false)
    ensures ServeMlPrimary(BreakerAfter(tripped, calls[..k]), calls[k].tiers).0 == Decided(calls[k].tiers.rule, FromRuleFallback)
  {
    StaysOpen(tripped, calls, k, i);
    OnlyUsableLabelsAreServed(MlPrimary, 0.0, calls[k].tiers);
    assert HeadTier in Active(MlPrimary) && AnswerOf(calls[k].tiers, HeadTier).Some?;
  }

  lemma {:induction false} StaysOpen(tripped: bool, calls: seq<Call>, k: nat, i: nat)
    requires k < i <= |calls| && calls[k].Serve? && calls[k].tiers.head == Some(Raises)
    requires forall j :: k < j < i ==> !calls[j].Reset?
    ensures BreakerAfter(tripped, calls[..i])
  {
    assert calls[..i][..i - 1] == calls[..i - 1];
    if i > k + 1 { StaysOpen(tripped, calls, k, i - 1); }
  }
}
