/** Confidence-gated escalation: the calibrated threshold is the best of all real thresholds. */
module Escalation {
  import opened Evidence

  const EPSILON := 0.000000001

  /** ConfidenceGate.decide */
  predicate Escalates(threshold: real, confidence: real) {
    confidence < threshold
  }

  /** ConfidenceGate's constructor accepts the threshold. */
  predicate GateAccepts(threshold: real) {
    0.0 <= threshold <= 1.0
  }

  /** One calibration example: the head's confidence and whether it was right. */
  datatype Example = Example(confidence: real, right: bool)

  /** How many examples the gate keeps local. */
  function Kept(examples: seq<Example>, threshold: real): (n: nat)
    ensures n <= |examples|
  {
    if examples == [] then 0
    else Kept(examples[1..], threshold) + if Escalates(threshold, examples[0].confidence) then 0 else 1
  }

  /** How many of the kept ones are right. */
  function KeptRight(examples: seq<Example>, threshold: real): (n: nat)
    ensures n <= Kept(examples, threshold)
  {
    if examples == [] then 0
    else KeptRight(examples[1..], threshold)
         + if !Escalates(threshold, examples[0].confidence) && examples[0].right then 1 else 0
  }

  /** Enough examples are kept, and their accuracy reaches the floor. */
  predicate Meets(examples: seq<Example>, floor: real, minKept: int, threshold: real) {
    && Kept(examples, threshold) > 0 && Kept(examples, threshold) >= minKept
    && KeptRight(examples, threshold) as real / Kept(examples, threshold) as real >= floor
  }

  predicate Increasing(s: seq<real>) {
    forall i, j | 0 <= i < j < |s| :: s[i] < s[j]
  }

  function Insert(s: seq<real>, c: real): (r: seq<real>)
    requires Increasing(s)
    ensures Increasing(r)
    ensures forall x :: x in r <==> x == c || x in s
  {
    if s == [] then [c]
    else if c < s[0] then [c] + s
    else if c == s[0] then s
    else
      var rest := Insert(s[1..], c);
      assert forall x :: x in s <==> x == s[0] || x in s[1..];
      assert forall i :: 0 <= i < |rest| ==> rest[i] in rest;
      [s[0]] + rest
  }

  /** sorted(set(confidences)) */
  function Candidates(examples: seq<Example>): (r: seq<real>)
    ensures Increasing(r)
    ensures forall x :: x in r <==> exists i :: 0 <= i < |examples| && examples[i].confidence == x
  {
    if examples == [] then []
    else
      var rest := Candidates(examples[1..]);
      assert forall i :: 0 < i < |examples| ==> examples[i] == examples[1..][i - 1];
      Insert(rest, examples[0].confidence)
  }

  // ---------------------------------------------------------------------------
  // Thresholds
  // ---------------------------------------------------------------------------

  lemma {:induction false} HigherKeepsFewer(examples: seq<Example>, low: real, high: real)
    requires low <= high
    ensures Kept(examples, high) <= Kept(examples, low)
  {
    if examples != [] { HigherKeepsFewer(examples[1..], low, high); }
  }

  /** Moving a threshold across no confidence changes nothing. */
  lemma {:induction false} SameCut(examples: seq<Example>, low: real, high: real)
    requires low <= high
    requires forall i :: 0 <= i < |examples| ==> !(low <= examples[i].confidence < high)
    ensures Kept(examples, low) == Kept(examples, high) && KeptRight(examples, low) == KeptRight(examples, high)
  {
    if examples != [] { SameCut(examples[1..], low, high); }
  }

  lemma {:induction false} KeepsSome(examples: seq<Example>, threshold: real)
    ensures Kept(examples, threshold) > 0 <==> exists i :: 0 <= i < |examples| && examples[i].confidence >= threshold
  {
    if examples != [] {
      KeepsSome(examples[1..], threshold);
      assert forall i :: 0 < i < |examples| ==> examples[i] == examples[1..][i - 1];
    }
  }

  /** Every threshold that keeps anything cuts where some observed confidence does. */
  lemma EveryCutIsACandidate(examples: seq<Example>, threshold: real) returns (k: nat)
    requires Kept(examples, threshold) > 0
    ensures var cs := Candidates(examples);
            k < |cs| && threshold <= cs[k]
            && Kept(examples, cs[k]) == Kept(examples, threshold)
            && KeptRight(examples, cs[k]) == KeptRight(examples, threshold)
  {
    var cs := Candidates(examples);
    KeepsSome(examples, threshold);
    var i :| 0 <= i < |examples| && examples[i].confidence >= threshold;
    assert examples[i].confidence in cs;
    k := 0;
    while k < |cs| && cs[k] < threshold
      invariant k <= |cs| && forall j :: 0 <= j < k ==> cs[j] < threshold
    {
      k := k + 1;
    }
    forall i | 0 <= i < |examples| ensures !(threshold <= examples[i].confidence < cs[k]) {
      assert examples[i].confidence in cs;
    }
    SameCut(examples, threshold, cs[k]);
  }

  /** Some real threshold meets the floor. */
  ghost predicate Achievable(examples: seq<Example>, floor: real, minKept: int) {
    exists t: real :: Meets(examples, floor, minKept, t)
  }

  function Greatest(examples: seq<Example>): (r: real)
    requires examples != []
    ensures exists i :: 0 <= i < |examples| && examples[i].confidence == r
    ensures forall i :: 0 <= i < |examples| ==> examples[i].confidence <= r
  {
    var cs := Candidates(examples);
    assert examples[0].confidence in cs;
    assert forall i :: 0 <= i < |examples| ==> examples[i].confidence in cs;
    assert cs[|cs| - 1] in cs;
    cs[|cs| - 1]
  }

  /** What the caller may rely on. */
  ghost predicate Optimal(examples: seq<Example>, floor: real, minKept: int, tau: real)
    requires examples != []
  {
    if Achievable(examples, floor, minKept) then
      && Meets(examples, floor, minKept, tau)
      && (exists i :: 0 <= i < |examples| && examples[i].confidence == tau)
      && forall t: real :: Kept(examples, t) > Kept(examples, tau) ==> !Meets(examples, floor, minKept, t)
    else
      Kept(examples, tau) == 0 && tau == Greatest(examples) + EPSILON
  }

  lemma FirstCandidateIsOptimal(examples: seq<Example>, floor: real, minKept: int, k: nat)
    requires examples != []
    requires var cs := Candidates(examples);
             k < |cs| && Meets(examples, floor, minKept, cs[k])
             && forall j :: 0 <= j < k ==> !Meets(examples, floor, minKept, cs[j])
    ensures Achievable(examples, floor, minKept) && Optimal(examples, floor, minKept, Candidates(examples)[k])
  {
    var cs := Candidates(examples);
    assert cs[k] in cs;
    forall t: real | Kept(examples, t) > Kept(examples, cs[k]) ensures !Meets(examples, floor, minKept, t) {
      if Meets(examples, floor, minKept, t) {
        var j := EveryCutIsACandidate(examples, t);
        assert Meets(examples, floor, minKept, cs[j]);
        if cs[k] < cs[j] { HigherKeepsFewer(examples, cs[k], cs[j]); }
      }
    }
  }

  lemma NoCandidateNoThreshold(examples: seq<Example>, floor: real, minKept: int)
    requires examples != []
    requires forall j :: 0 <= j < |Candidates(examples)| ==> !Meets(examples, floor, minKept, Candidates(examples)[j])
    ensures !Achievable(examples, floor, minKept)
    ensures Optimal(examples, floor, minKept, Greatest(examples) + EPSILON)
  {
    if t: real :| Meets(examples, floor, minKept, t) {
      var j := EveryCutIsACandidate(examples, t);
      assert Meets(examples, floor, minKept, Candidates(examples)[j]);
    }
    KeepsSome(examples, Greatest(examples) + EPSILON);
  }

  /** zip of the two argument lists. */
  function Zip(confidences: seq<real>, correct: seq<bool>): seq<Example>
    requires |confidences| == |correct|
  {
    seq(|confidences|, i requires 0 <= i < |confidences| => Example(confidences[i], correct[i]))
  }

  /** calibrate_threshold; None for a ValueError. */
  method CalibrateThreshold(confidences: seq<real>, correct: seq<bool>, floor: real, minKept: int) returns (r: Option<real>)
    ensures r.None? <==> |confidences| != |correct| || confidences == [] || !(0.0 <= floor <= 1.0)
    ensures r.Some? ==> Zip(confidences, correct) != [] && Optimal(Zip(confidences, correct), floor, minKept, r.value)
  {
    if |confidences| != |correct| || confidences == [] || !(0.0 <= floor <= 1.0) { return None; }
    var examples := Zip(confidences, correct);
    var candidates := Candidates(examples);
    for k := 0 to |candidates|
      invariant forall j :: 0 <= j < k ==> !Meets(examples, floor, minKept, candidates[j])
    {
      var tau := candidates[k];
      var kept := Kept(examples, tau);
      assert tau in candidates;
      KeepsSome(examples, tau);
      if kept < minKept { continue; }
      if KeptRight(examples, tau) as real / kept as real >= floor {
        FirstCandidateIsOptimal(examples, floor, minKept, k);
        return Some(tau);
      }
    }
    NoCandidateNoThreshold(examples, floor, minKept);
    assert examples[0].confidence in candidates;
    return Some(Greatest(examples) + EPSILON);
  }

  /**
   The documented range [0, 1] holds, for confidences in it, exactly when some threshold meets the
   floor or the greatest confidence leaves room for the step above it: otherwise ConfidenceGate
   refuses the calibrated threshold.
   */
  lemma WhenTheGateAcceptsIt(examples: seq<Example>, floor: real, minKept: int, tau: real)
    requires examples != [] && Optimal(examples, floor, minKept, tau)
    requires forall i :: 0 <= i < |examples| ==> 0.0 <= examples[i].confidence <= 1.0
    ensures GateAccepts(tau) <==> Achievable(examples, floor, minKept) || Greatest(examples) <= 1.0 - EPSILON
  {
  }

  /** A fully confident head that is always wrong gets a threshold no gate accepts. */
  lemma ConfidentAndWrong(floor: real)
    requires 0.0 < floor <= 1.0
    ensures var examples := [Example(1.0, false)];
            !Achievable(examples, floor, 1) && Optimal(examples, floor, 1, 1.0 + EPSILON) && !GateAccepts(1.0 + EPSILON)
  {
    var examples := [Example(1.0, false)];
    forall j | 0 <= j < |Candidates(examples)| ensures !Meets(examples, floor, 1, Candidates(examples)[j]) {
      assert KeptRight(examples, Candidates(examples)[j]) == 0;
    }
    NoCandidateNoThreshold(examples, floor, 1);
    var i :| 0 <= i < |examples| && examples[i].confidence == Greatest(examples);
    assert examples[i] == Example(1.0, false);
  }
}
