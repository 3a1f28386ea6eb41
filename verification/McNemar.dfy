/**
 The exact paired test, in its two spellings, and the statistical contract that the gates
 and the candidate harness document: how likely is a promotion of something no better?
 */
module McNemar {
  import opened Binomial

  function Min(a: nat, b: nat): nat { if a < b then a else b }

  function MinReal(x: real, y: real): real { if x < y then x else y }

  // ---------------------------------------------------------------------------
  // The p-value
  // ---------------------------------------------------------------------------

  /** The sum of comb(n, i) * 0.5**n for i in range(k + 1), term by term. */
  function TermSum(n: nat, k: nat): real {
    (if k == 0 then 0.0 else TermSum(n, k - 1)) + FairShare(Choose(n, k), n)
  }

  /** autoresearch._mcnemar_p_value */
  function PValue(b: nat, c: nat): real {
    if b + c == 0 then 1.0 else MinReal(1.0, 2.0 * TermSum(b + c, Min(b, c)))
  }

  /** The normal-approximation tail of viz.mcnemar_p, at (|b - c|, b + c); its value is not modelled. */
  type Approximation = (nat, nat) -> real

  function AbsDiff(b: nat, c: nat): nat { if b < c then c - b else b - c }

  /** viz.mcnemar_p on the discordant counts of two non-empty lists. */
  function FastPValue(approx: Approximation, b: nat, c: nat): real {
    var n := b + c;
    if n == 0 then 1.0
    else if n <= 50 then MinReal(1.0, 2.0 * (RowSum(n, Min(b, c)) as real / Pow2(n) as real))
    else MinReal(1.0, approx(AbsDiff(b, c), n))
  }

  lemma {:induction false} TermSumIsRowSum(n: nat, k: nat)
    ensures TermSum(n, k) == FairShare(RowSum(n, k), n)
  {
    if k > 0 { TermSumIsRowSum(n, k - 1); }
    FairShareAdds(RowSum(n, k - 1), Choose(n, k), n);
  }

  /** The two implementations are one function wherever viz stays exact. */
  lemma ImplementationsAgree(approx: Approximation, b: nat, c: nat)
    requires b + c <= 50
    ensures FastPValue(approx, b, c) == PValue(b, c)
  {
    TermSumIsRowSum(b + c, Min(b, c));
    FairShareIsQuotient(RowSum(b + c, Min(b, c)), b + c);
  }

  /** Twice the smaller tail, as a row sum: the form every law below is proved on. */
  function TwoTails(b: nat, c: nat): real {
    var n, k := b + c, Min(b, c);
    2.0 * FairShare(RowSum(n, k), n)
  }

  lemma PValueIsTwoTails(b: nat, c: nat)
    ensures PValue(b, c) == MinReal(1.0, TwoTails(b, c))
  {
    TermSumIsRowSum(b + c, Min(b, c));
    if b + c == 0 { RowSumOfZero(0); }
  }

  /** The smaller of two tails is half the row or more exactly when the sides differ by at most one. */
  lemma HalfRow(b: nat, c: nat)
    ensures Pow2(b + c) <= 2 * RowSum(b + c, Min(b, c)) <==> AbsDiff(b, c) <= 1
    ensures 0 < RowSum(b + c, Min(b, c))
  {
    var n, k := b + c, Min(b, c);
    RowSumComplement(n, k);
    RowSumMonotone(n, 0, k);
    ChoosePositive(n, 0);
    if AbsDiff(b, c) <= 1 {
      RowSumMonotone(n, n - 1 - k, k);
    } else {
      ChoosePositive(n, k + 1);
      RowSumMonotone(n, k + 1, n - 1 - k);
    }
  }

  /** p is in (0, 1], does not care which side is which, and is 1 exactly when the sides differ by at most one. */
  lemma PValueLaws(b: nat, c: nat)
    ensures 0.0 < PValue(b, c) <= 1.0
    ensures PValue(b, c) == PValue(c, b)
    ensures PValue(b, c) == 1.0 <==> AbsDiff(b, c) <= 1
  {
    PValueIsTwoTails(b, c);
    PValueIsTwoTails(c, b);
    HalfRow(b, c);
    FairShareAgainstHalf(RowSum(b + c, Min(b, c)), b + c);
  }

  /** One more win on the leading side never weakens the evidence. */
  lemma AnotherWinKeepsEvidence(b: nat, c: nat)
    requires c <= b
    ensures PValue(b + 1, c) <= PValue(b, c)
  {
    PValueIsTwoTails(b, c);
    PValueIsTwoTails(b + 1, c);
    OneMoreRound(b + c, c);
  }

  lemma OneMoreRound(n: nat, k: nat)
    ensures FairShare(RowSum(n + 1, k), n + 1) <= FairShare(RowSum(n, k), n)
  {
    RowSumPascal(n + 1, k);
    RowSumMonotone(n, k - 1, k);
    FairShareSplits(RowSum(n, k), RowSum(n, k - 1), n);
    FairShareMonotone(RowSum(n, k - 1), RowSum(n, k), n);
  }

  /** k wins without a loss: p is 0.5 ** (k - 1). */
  lemma CleanSweepValue(k: nat)
    requires 0 < k
    ensures PValue(k, 0) == HalfPow(k - 1)
  {
    PValueIsTwoTails(k, 0);
    ChooseEnds(k);
    assert RowSum(k, 0) == 1;
    HalfPowIsAShare(k - 1);
  }

  // ---------------------------------------------------------------------------
  // Paired observations
  // ---------------------------------------------------------------------------

  /** One input on which both sides were scored. */
  datatype Pair = Pair(current: bool, target: bool)

  /** b: the target right while the current side is wrong. */
  function Wins(s: seq<Pair>): nat {
    if s == [] then 0
    else Wins(s[..|s| - 1]) + if !s[|s| - 1].current && s[|s| - 1].target then 1 else 0
  }

  /** c: the current side right while the target is wrong. */
  function Losses(s: seq<Pair>): nat {
    if s == [] then 0
    else Losses(s[..|s| - 1]) + if s[|s| - 1].current && !s[|s| - 1].target then 1 else 0
  }

  function CurrentRight(s: seq<Pair>): nat {
    if s == [] then 0 else CurrentRight(s[..|s| - 1]) + if s[|s| - 1].current then 1 else 0
  }

  function TargetRight(s: seq<Pair>): nat {
    if s == [] then 0 else TargetRight(s[..|s| - 1]) + if s[|s| - 1].target then 1 else 0
  }

  /** The discordant counts carry the whole accuracy difference. */
  lemma {:induction false} DiscordantPairsAreTheDifference(s: seq<Pair>)
    ensures Wins(s) - Losses(s) == TargetRight(s) - CurrentRight(s)
    ensures Wins(s) + Losses(s) <= |s| && CurrentRight(s) <= |s| && TargetRight(s) <= |s|
  {
    if s != [] { DiscordantPairsAreTheDifference(s[..|s| - 1]); }
  }

  /** The exact test at level alpha, pointing at the target. */
  predicate Rejects(alpha: real, b: nat, c: nat) {
    PValue(b, c) < alpha && b > c
  }

  // ---------------------------------------------------------------------------
  // The statistical contract
  // ---------------------------------------------------------------------------

  ghost function Weigh(p: real, q: real, x: real, y: real): real {
    p * x + q * y
  }

  /** How likely each kind of paired row is; rows are independent. */
  datatype Rates = Rates(bothRight: real, targetOnly: real, currentOnly: real, bothWrong: real) {
    ghost predicate Valid() {
      && 0.0 <= bothRight && 0.0 <= targetOnly && 0.0 <= currentOnly && 0.0 <= bothWrong
      && bothRight + targetOnly + currentOnly + bothWrong == 1.0
    }

    /** The mean of a quantity worth w, l, b or x on a win, a loss, a row both get right or both get wrong. */
    ghost function Mean(w: real, l: real, b: real, x: real): real {
      Weigh(targetOnly, currentOnly, w, l) + Weigh(bothRight, bothWrong, b, x)
    }

    /** True accuracies: the target's minus the current side's. */
    ghost function Advantage(): real {
      (bothRight + targetOnly) - (bothRight + currentOnly)
    }
  }

  type SampleEvent = seq<Pair> -> bool

  /** The total weight of the ways to extend `seen` by n more rows into a member of the event. */
  ghost function Probability(r: Rates, event: SampleEvent, seen: seq<Pair>, n: nat): real
    decreases n
  {
    if n == 0 then (if event(seen) then 1.0 else 0.0)
    else
      r.Mean(Probability(r, event, seen + [Pair(false, true)], n - 1),
             Probability(r, event, seen + [Pair(true, false)], n - 1),
             Probability(r, event, seen + [Pair(true, true)], n - 1),
             Probability(r, event, seen + [Pair(false, false)], n - 1))
  }

  /** A larger event weighs at least as much. */
  lemma {:induction false} ProbabilityMonotone(r: Rates, small: SampleEvent, large: SampleEvent, seen: seq<Pair>, n: nat)
    requires r.Valid()
    requires forall s :: small(s) ==> large(s)
    ensures 0.0 <= Probability(r, small, seen, n) <= Probability(r, large, seen, n)
    decreases n
  {
    if n > 0 {
      var w, l, b, x := [Pair(false, true)], [Pair(true, false)], [Pair(true, true)], [Pair(false, false)];
      ProbabilityMonotone(r, small, large, seen + w, n - 1);
      ProbabilityMonotone(r, small, large, seen + l, n - 1);
      ProbabilityMonotone(r, small, large, seen + b, n - 1);
      ProbabilityMonotone(r, small, large, seen + x, n - 1);
      MeanMonotone(r, Probability(r, small, seen + w, n - 1), Probability(r, large, seen + w, n - 1),
                   Probability(r, small, seen + l, n - 1), Probability(r, large, seen + l, n - 1),
                   Probability(r, small, seen + b, n - 1), Probability(r, large, seen + b, n - 1),
                   Probability(r, small, seen + x, n - 1), Probability(r, large, seen + x, n - 1));
    }
  }

  lemma MeanMonotone(r: Rates, w: real, w': real, l: real, l': real, b: real, b': real, x: real, x': real)
    requires r.Valid()
    requires 0.0 <= w <= w' && 0.0 <= l <= l' && 0.0 <= b <= b' && 0.0 <= x <= x'
    ensures 0.0 <= r.Mean(w, l, b, x) <= r.Mean(w', l', b', x')
  {
    TwoTerms(r.targetOnly, r.currentOnly, w, w', l, l');
    TwoTerms(r.bothRight, r.bothWrong, b, b', x, x');
    var win, win' := Weigh(r.targetOnly, r.currentOnly, w, l), Weigh(r.targetOnly, r.currentOnly, w', l');
    var tie, tie' := Weigh(r.bothRight, r.bothWrong, b, x), Weigh(r.bothRight, r.bothWrong, b', x');
    assert 0.0 <= win + tie <= win' + tie';
  }

  lemma TwoTerms(p: real, q: real, w: real, w': real, l: real, l': real)
    requires 0.0 <= p && 0.0 <= q && 0.0 <= w <= w' && 0.0 <= l <= l'
    ensures 0.0 <= Weigh(p, q, w, l) <= Weigh(p, q, w', l')
  {
    ScaleReal(p, w, w');
    ScaleReal(q, l, l');
  }

  lemma ScaleReal(w: real, x: real, y: real)
    requires 0.0 <= w && 0.0 <= x <= y
    ensures 0.0 <= w * x <= w * y
  {
    NonNegativeProduct(w, x);
    NonNegativeProduct(w, y - x);
  }

  /** All the weight there is: the event `anything` has probability 1. */
  lemma {:induction false} WholeSpace(r: Rates, seen: seq<Pair>, n: nat)
    requires r.Valid()
    ensures Probability(r, _ => true, seen, n) == 1.0
    decreases n
  {
    if n > 0 {
      WholeSpace(r, seen + [Pair(false, true)], n - 1);
      WholeSpace(r, seen + [Pair(true, false)], n - 1);
      WholeSpace(r, seen + [Pair(true, true)], n - 1);
      WholeSpace(r, seen + [Pair(false, false)], n - 1);
    }
  }

  ghost function Spread(u: real, v: real, w: real, l: real, tie: real): real {
    u * w + v * l + (1.0 - u - v) * tie
  }

  /** A property of how decisive rows split: wins first, losses second. */
  type Split = (nat, nat) -> bool

  function Rejecting(alpha: real): Split {
    (b: nat, c: nat) => Rejects(alpha, b, c)
  }

  /** Rows still to come, seen only through the discordant counts; u and v are the win and loss rates. */
  ghost function Walk(ends: Split, b: nat, c: nat, n: nat, u: real, v: real): real
    decreases n
  {
    if n == 0 then (if ends(b, c) then 1.0 else 0.0)
    else
      Spread(u, v, Walk(ends, b + 1, c, n - 1, u, v), Walk(ends, b, c + 1, n - 1, u, v),
             Walk(ends, b, c, n - 1, u, v))
  }

  lemma {:induction false} RowsAreAWalk(ends: Split, r: Rates, seen: seq<Pair>, n: nat)
    requires r.Valid()
    ensures Probability(r, s => ends(Wins(s), Losses(s)), seen, n)
         == Walk(ends, Wins(seen), Losses(seen), n, r.targetOnly, r.currentOnly)
    decreases n
  {
    if n > 0 {
      var w, l := seen + [Pair(false, true)], seen + [Pair(true, false)];
      var b, x := seen + [Pair(true, true)], seen + [Pair(false, false)];
      assert w[..|seen|] == seen && l[..|seen|] == seen && b[..|seen|] == seen && x[..|seen|] == seen;
      RowsAreAWalk(ends, r, w, n - 1);
      RowsAreAWalk(ends, r, l, n - 1);
      RowsAreAWalk(ends, r, b, n - 1);
      RowsAreAWalk(ends, r, x, n - 1);
      var tie := Walk(ends, Wins(seen), Losses(seen), n - 1, r.targetOnly, r.currentOnly);
      TiesMerge(r, Walk(ends, Wins(seen) + 1, Losses(seen), n - 1, r.targetOnly, r.currentOnly),
                Walk(ends, Wins(seen), Losses(seen) + 1, n - 1, r.targetOnly, r.currentOnly), tie);
    }
  }

  lemma TiesMerge(r: Rates, w: real, l: real, tie: real)
    requires r.Valid()
    ensures r.Mean(w, l, tie, tie) == Spread(r.targetOnly, r.currentOnly, w, l, tie)
  {
    assert r.bothRight * tie + r.bothWrong * tie == (r.bothRight + r.bothWrong) * tie;
  }

  /** m decisive rounds, each won by the target with probability q. */
  ghost function Duel(ends: Split, b: nat, c: nat, m: nat, q: real): real
    decreases m
  {
    if m == 0 then (if ends(b, c) then 1.0 else 0.0)
    else Blend(q, Duel(ends, b + 1, c, m - 1, q), Duel(ends, b, c + 1, m - 1, q))
  }

  /** First settle which of the n rows are decisive (rate d), then duel over those and the m already owed. */
  ghost function Deferred(ends: Split, b: nat, c: nat, m: nat, n: nat, q: real, d: real): real
    decreases n
  {
    if n == 0 then Duel(ends, b, c, m, q)
    else Blend(d, Deferred(ends, b, c, m + 1, n - 1, q, d), Deferred(ends, b, c, m, n - 1, q, d))
  }

  lemma {:induction false} DeferredDuel(ends: Split, b: nat, c: nat, m: nat, n: nat, q: real, d: real)
    ensures Deferred(ends, b, c, m + 1, n, q, d)
         == Blend(q, Deferred(ends, b + 1, c, m, n, q, d), Deferred(ends, b, c + 1, m, n, q, d))
    decreases n
  {
    if n > 0 {
      DeferredDuel(ends, b, c, m + 1, n - 1, q, d);
      DeferredDuel(ends, b, c, m, n - 1, q, d);
      var w1, w0 := Deferred(ends, b + 1, c, m + 1, n - 1, q, d), Deferred(ends, b + 1, c, m, n - 1, q, d);
      var l1, l0 := Deferred(ends, b, c + 1, m + 1, n - 1, q, d), Deferred(ends, b, c + 1, m, n - 1, q, d);
      Exchange(q, d, w1, w0, l1, l0);
    }
  }

  /** Two convex combinations commute. */
  lemma Exchange(q: real, d: real, w1: real, w0: real, l1: real, l0: real)
    ensures Blend(d, Blend(q, w1, l1), Blend(q, w0, l0)) == Blend(q, Blend(d, w1, w0), Blend(d, l1, l0))
  {
  }

  lemma {:induction false} WalkIsDeferred(ends: Split, b: nat, c: nat, n: nat, u: real, v: real, q: real)
    requires (u + v) * q == u
    ensures Walk(ends, b, c, n, u, v) == Deferred(ends, b, c, 0, n, q, u + v)
    decreases n
  {
    if n > 0 {
      WalkIsDeferred(ends, b + 1, c, n - 1, u, v, q);
      WalkIsDeferred(ends, b, c + 1, n - 1, u, v, q);
      WalkIsDeferred(ends, b, c, n - 1, u, v, q);
      DeferredDuel(ends, b, c, 0, n - 1, q, u + v);
      var x := Deferred(ends, b + 1, c, 0, n - 1, q, u + v);
      var y := Deferred(ends, b, c + 1, 0, n - 1, q, u + v);
      SplitRate(u, v, q, x, y, Deferred(ends, b, c, 0, n - 1, q, u + v));
    }
  }

  lemma SplitRate(u: real, v: real, q: real, x: real, y: real, tie: real)
    requires (u + v) * q == u
    ensures Blend(u + v, Blend(q, x, y), tie) == Spread(u, v, x, y, tie)
  {
    assert (u + v) * (q * x) == ((u + v) * q) * x;
    assert (u + v) * ((1.0 - q) * y) == ((u + v) - (u + v) * q) * y;
  }

  lemma {:induction false} DeferredBound(ends: Split, m: nat, n: nat, q: real, d: real, bound: real)
    requires 0.0 <= d <= 1.0
    requires forall k: nat :: Duel(ends, 0, 0, k, q) <= bound
    ensures Deferred(ends, 0, 0, m, n, q, d) <= bound
    decreases n
  {
    if n > 0 {
      DeferredBound(ends, m + 1, n - 1, q, d, bound);
      DeferredBound(ends, m, n - 1, q, d, bound);
      Mix(d, Deferred(ends, 0, 0, m + 1, n - 1, q, d), Deferred(ends, 0, 0, m, n - 1, q, d), bound, bound);
    }
  }

  /** If every rejecting split of the rounds has at least k wins, rejecting is no likelier than k wins. */
  lemma {:induction false} DuelIsInTail(ends: Split, b: nat, c: nat, m: nat, k: int, q: real)
    requires 0.0 <= q <= 1.0
    requires forall x: nat, y: nat :: x + y == b + c + m && ends(x, y) ==> k <= x
    ensures Duel(ends, b, c, m, q) <= Tail(m, k - b, q)
    decreases m
  {
    if m > 0 {
      DuelIsInTail(ends, b + 1, c, m - 1, k, q);
      DuelIsInTail(ends, b, c + 1, m - 1, k, q);
      Mix(q, Duel(ends, b + 1, c, m - 1, q), Duel(ends, b, c + 1, m - 1, q),
          Tail(m - 1, k - b - 1, q), Tail(m - 1, k - b, q));
    }
  }

  /** The smallest number of wins out of m, at or after k, that rejects; m + 1 if none does. */
  ghost function CriticalWins(alpha: real, m: nat, k: nat): (w: nat)
    requires k <= m + 1
    ensures k <= w <= m + 1
    ensures w <= m ==> Rejects(alpha, w, m - w)
    ensures forall x: nat, y: nat :: x + y == m && k <= x && Rejects(alpha, x, y) ==> w <= x
    decreases m + 1 - k
  {
    if k == m + 1 || Rejects(alpha, k, m - k) then k else CriticalWins(alpha, m, k + 1)
  }

  lemma {:induction false} TailBeyondTheEnd(m: nat, k: int, q: real)
    requires m < k
    ensures Tail(m, k, q) == 0.0
  {
    if m > 0 {
      TailBeyondTheEnd(m - 1, k - 1, q);
      TailBeyondTheEnd(m - 1, k, q);
    }
  }

  /** Conditional form: over m decisive rounds against an opponent at least as good. */
  lemma DuelBound(alpha: real, m: nat, q: real)
    requires 0.0 < alpha <= 1.0 && 0.0 <= q <= 0.5
    ensures Duel(Rejecting(alpha), 0, 0, m, q) <= alpha / 2.0
  {
    var k := CriticalWins(alpha, m, 0);
    DuelIsInTail(Rejecting(alpha), 0, 0, m, k, q);
    if k <= m {
      TailMonotone(m, k, q, 0.5);
      FairTail(m, k, m - k);
      PValueIsTwoTails(k, m - k);
      assert Tail(m, k, 0.5) == TwoTails(k, m - k) / 2.0;
    } else {
      TailBeyondTheEnd(m, k, q);
    }
  }

  /**
   The contract.  Take any number of independent paired rows and any event on which the exact
   test rejects in the target's favour.  If the target is truly no better than the current
   side, that event has probability at most alpha / 2.
   */
  lemma FalsePromotionBound(r: Rates, alpha: real, event: SampleEvent, n: nat)
    requires r.Valid() && 0.0 < alpha < 1.0
    requires r.Advantage() <= 0.0
    requires forall s :: event(s) ==> Rejects(alpha, Wins(s), Losses(s))
    ensures 0.0 <= Probability(r, event, [], n) <= alpha / 2.0
  {
    var u, v := r.targetOnly, r.currentOnly;
    var q := if u + v == 0.0 then 0.5 else u / (u + v);
    assert (u + v) * q == u && 0.0 <= q <= 0.5 by { Share(u, v, q); }
    forall s | event(s) ensures Rejecting(alpha)(Wins(s), Losses(s)) { }
    ProbabilityMonotone(r, event, s => Rejecting(alpha)(Wins(s), Losses(s)), [], n);
    RowsAreAWalk(Rejecting(alpha), r, [], n);
    WalkIsDeferred(Rejecting(alpha), 0, 0, n, u, v, q);
    forall k: nat ensures Duel(Rejecting(alpha), 0, 0, k, q) <= alpha / 2.0 {
      DuelBound(alpha, k, q);
    }
    DeferredBound(Rejecting(alpha), 0, n, q, u + v, alpha / 2.0);
  }

  lemma Share(u: real, v: real, q: real)
    requires 0.0 <= u <= v
    requires q == if u + v == 0.0 then 0.5 else u / (u + v)
    ensures (u + v) * q == u && 0.0 <= q <= 0.5
  {
    if u + v > 0.0 {
      assert (u + v) * q == u;
      if q < 0.0 { NonNegativeProduct(u + v, -q); }
      if q > 0.5 { NonNegativeProduct(u + v, q - 0.5); }
    }
  }

  // ---------------------------------------------------------------------------
  // Repeated looks
  // ---------------------------------------------------------------------------

  /** The event as it stood when k rows had come in. */
  predicate AtLook(event: SampleEvent, k: nat, s: seq<Pair>) {
    k <= |s| && event(s[..k])
  }

  function Look(event: SampleEvent, k: nat): SampleEvent {
    s => AtLook(event, k, s)
  }

  /** The event held at one of the looks. */
  predicate AtSomeLook(event: SampleEvent, looks: seq<nat>, s: seq<Pair>) {
    exists i | 0 <= i < |looks| :: AtLook(event, looks[i], s)
  }

  function SomeLook(event: SampleEvent, looks: seq<nat>): SampleEvent {
    s => AtSomeLook(event, looks, s)
  }

  /** An event covered by two others weighs at most as much as both together. */
  lemma {:induction false} UnionBound(r: Rates, small: SampleEvent, one: SampleEvent, two: SampleEvent, seen: seq<Pair>, n: nat)
    requires r.Valid()
    requires forall s :: small(s) ==> one(s) || two(s)
    ensures 0.0 <= Probability(r, small, seen, n) <= Probability(r, one, seen, n) + Probability(r, two, seen, n)
    decreases n
  {
    if n > 0 {
      var w, l, b, x := seen + [Pair(false, true)], seen + [Pair(true, false)], seen + [Pair(true, true)], seen + [Pair(false, false)];
      UnionBound(r, small, one, two, w, n - 1);
      UnionBound(r, small, one, two, l, n - 1);
      UnionBound(r, small, one, two, b, n - 1);
      UnionBound(r, small, one, two, x, n - 1);
      MeanOfSums(r, Probability(r, small, w, n - 1), Probability(r, one, w, n - 1), Probability(r, two, w, n - 1),
                 Probability(r, small, l, n - 1), Probability(r, one, l, n - 1), Probability(r, two, l, n - 1),
                 Probability(r, small, b, n - 1), Probability(r, one, b, n - 1), Probability(r, two, b, n - 1),
                 Probability(r, small, x, n - 1), Probability(r, one, x, n - 1), Probability(r, two, x, n - 1));
    }
  }

  lemma MeanOfSums(r: Rates, w: real, w1: real, w2: real, l: real, l1: real, l2: real,
                   b: real, b1: real, b2: real, x: real, x1: real, x2: real)
    requires r.Valid()
    requires 0.0 <= w <= w1 + w2 && 0.0 <= l <= l1 + l2 && 0.0 <= b <= b1 + b2 && 0.0 <= x <= x1 + x2
    ensures 0.0 <= r.Mean(w, l, b, x) <= r.Mean(w1, l1, b1, x1) + r.Mean(w2, l2, b2, x2)
  {
    WeighSums(r.targetOnly, r.currentOnly, w, w1, w2, l, l1, l2);
    WeighSums(r.bothRight, r.bothWrong, b, b1, b2, x, x1, x2);
    var win, win1, win2 := Weigh(r.targetOnly, r.currentOnly, w, l), Weigh(r.targetOnly, r.currentOnly, w1, l1),
                           Weigh(r.targetOnly, r.currentOnly, w2, l2);
    var tie, tie1, tie2 := Weigh(r.bothRight, r.bothWrong, b, x), Weigh(r.bothRight, r.bothWrong, b1, x1),
                           Weigh(r.bothRight, r.bothWrong, b2, x2);
    assert 0.0 <= win + tie <= (win1 + tie1) + (win2 + tie2);
  }

  lemma WeighSums(p: real, q: real, x: real, x1: real, x2: real, y: real, y1: real, y2: real)
    requires 0.0 <= p && 0.0 <= q && 0.0 <= x <= x1 + x2 && 0.0 <= y <= y1 + y2
    ensures 0.0 <= Weigh(p, q, x, y) <= Weigh(p, q, x1, y1) + Weigh(p, q, x2, y2)
  {
    NonNegativeProduct(p, x);
    NonNegativeProduct(q, y);
    NonNegativeProduct(p, x1 + x2 - x);
    NonNegativeProduct(q, y1 + y2 - y);
  }

  /** Four equal outcomes average to themselves. */
  lemma MeanOfOne(r: Rates, y: real)
    requires r.Valid()
    ensures r.Mean(y, y, y, y) == y
  {
    assert r.targetOnly * y + r.currentOnly * y + (r.bothRight * y + r.bothWrong * y)
        == (r.targetOnly + r.currentOnly + r.bothRight + r.bothWrong) * y;
  }

  /** Once k rows are seen the look is settled. */
  lemma {:induction false} SettledLook(r: Rates, event: SampleEvent, k: nat, seen: seq<Pair>, n: nat)
    requires r.Valid() && k <= |seen|
    ensures Probability(r, Look(event, k), seen, n) == if event(seen[..k]) then 1.0 else 0.0
    decreases n
  {
    if n > 0 {
      SettledNext(r, event, k, seen, Pair(false, true), n);
      SettledNext(r, event, k, seen, Pair(true, false), n);
      SettledNext(r, event, k, seen, Pair(true, true), n);
      SettledNext(r, event, k, seen, Pair(false, false), n);
      MeanOfOne(r, if event(seen[..k]) then 1.0 else 0.0);
    }
  }

  lemma {:induction false} SettledNext(r: Rates, event: SampleEvent, k: nat, seen: seq<Pair>, p: Pair, n: nat)
    requires r.Valid() && k <= |seen| && n > 0
    ensures Probability(r, Look(event, k), seen + [p], n - 1) == if event(seen[..k]) then 1.0 else 0.0
    decreases n, 0
  {
    assert (seen + [p])[..k] == seen[..k];
    SettledLook(r, event, k, seen + [p], n - 1);
  }

  /** The rows after a look do not change its probability. */
  lemma {:induction false} LookAhead(r: Rates, event: SampleEvent, k: nat, seen: seq<Pair>, n: nat)
    requires r.Valid() && |seen| <= k <= |seen| + n
    ensures Probability(r, Look(event, k), seen, n) == Probability(r, event, seen, k - |seen|)
    decreases n
  {
    if k == |seen| {
      SettledLook(r, event, k, seen, n);
      assert seen[..k] == seen;
    } else {
      LookAhead(r, event, k, seen + [Pair(false, true)], n - 1);
      LookAhead(r, event, k, seen + [Pair(true, false)], n - 1);
      LookAhead(r, event, k, seen + [Pair(true, true)], n - 1);
      LookAhead(r, event, k, seen + [Pair(false, false)], n - 1);
    }
  }

  /** A look that never comes sees nothing. */
  lemma {:induction false} LookTooLate(r: Rates, event: SampleEvent, k: nat, seen: seq<Pair>, n: nat)
    requires r.Valid() && |seen| + n < k
    ensures Probability(r, Look(event, k), seen, n) == 0.0
    decreases n
  {
    if n > 0 {
      LookTooLate(r, event, k, seen + [Pair(false, true)], n - 1);
      LookTooLate(r, event, k, seen + [Pair(true, false)], n - 1);
      LookTooLate(r, event, k, seen + [Pair(true, true)], n - 1);
      LookTooLate(r, event, k, seen + [Pair(false, false)], n - 1);
      MeanOfOne(r, 0.0);
    }
  }

  /** One look among the n rows. */
  lemma OneLookBound(r: Rates, alpha: real, event: SampleEvent, k: nat, n: nat)
    requires r.Valid() && 0.0 < alpha < 1.0 && r.Advantage() <= 0.0
    requires forall s :: event(s) ==> Rejects(alpha, Wins(s), Losses(s))
    ensures Probability(r, Look(event, k), [], n) <= alpha / 2.0
  {
    if k <= n {
      LookAhead(r, event, k, [], n);
      FalsePromotionBound(r, alpha, event, k);
    } else {
      LookTooLate(r, event, k, [], n);
    }
  }

  lemma {:induction false} NoLooks(r: Rates, event: SampleEvent, seen: seq<Pair>, n: nat)
    requires r.Valid()
    ensures Probability(r, SomeLook(event, []), seen, n) == 0.0
    decreases n
  {
    if n > 0 {
      NoLooks(r, event, seen + [Pair(false, true)], n - 1);
      NoLooks(r, event, seen + [Pair(true, false)], n - 1);
      NoLooks(r, event, seen + [Pair(true, true)], n - 1);
      NoLooks(r, event, seen + [Pair(false, false)], n - 1);
      MeanOfOne(r, 0.0);
    }
  }

  /**
   Asking again as the rows come in: if the target is truly no better, the probability that the test
   rejects in its favour at any of the looks is at most alpha / 2 for each of them.
   */
  lemma {:induction false} RepeatedLooks(r: Rates, alpha: real, event: SampleEvent, looks: seq<nat>, n: nat)
    requires r.Valid() && 0.0 < alpha < 1.0 && r.Advantage() <= 0.0
    requires forall s :: event(s) ==> Rejects(alpha, Wins(s), Losses(s))
    ensures Probability(r, SomeLook(event, looks), [], n) <= |looks| as real * (alpha / 2.0)
    decreases |looks|
  {
    if looks == [] {
      NoLooks(r, event, [], n);
    } else {
      var init, last := looks[..|looks| - 1], looks[|looks| - 1];
      RepeatedLooks(r, alpha, event, init, n);
      OneLookBound(r, alpha, event, last, n);
      forall s | SomeLook(event, looks)(s) ensures SomeLook(event, init)(s) || Look(event, last)(s) {
        var i :| 0 <= i < |looks| && AtLook(event, looks[i], s);
        if i < |init| { assert AtLook(event, init[i], s); }
      }
      UnionBound(r, SomeLook(event, looks), SomeLook(event, init), Look(event, last), [], n);
      OneMore(|init|, alpha / 2.0);
    }
  }

  lemma OneMore(k: nat, a: real)
    ensures (k + 1) as real * a == k as real * a + a
  {
    var x := k as real;
    assert (k + 1) as real == x + 1.0;
    assert (x + 1.0) * a == x * a + a;
  }

  // ---------------------------------------------------------------------------
  // Counting: the fair case without probabilities
  // ---------------------------------------------------------------------------

  /** All ways m decisive rounds can go; true is a win for the target. */
  ghost function Games(m: nat): set<seq<bool>> {
    if m == 0 then {[]} else Led(true, Games(m - 1)) + Led(false, Games(m - 1))
  }

  ghost function Led(first: bool, games: set<seq<bool>>): set<seq<bool>> {
    set g | g in games :: [first] + g
  }

  function WonIn(g: seq<bool>): nat {
    if g == [] then 0 else (if g[0] then 1 else 0) + WonIn(g[1..])
  }

  function LostIn(g: seq<bool>): nat {
    if g == [] then 0 else (if g[0] then 0 else 1) + LostIn(g[1..])
  }

  ghost function GamesEnding(ends: Split, b: nat, c: nat, m: nat): set<seq<bool>> {
    set g | g in Games(m) && ends(b + WonIn(g), c + LostIn(g))
  }

  lemma {:induction false} LedKeepsCount(first: bool, games: set<seq<bool>>)
    ensures |Led(first, games)| == |games|
  {
    if games != {} {
      var g :| g in games;
      LedKeepsCount(first, games - {g});
      assert [first] + g !in Led(first, games - {g}) by {
        forall h | h in games - {g} ensures [first] + h != [first] + g {
          assert ([first] + h)[1..] == h && ([first] + g)[1..] == g;
        }
      }
      assert Led(first, games) == Led(first, games - {g}) + {[first] + g};
    }
  }

  /** A fair duel's probability is a count of games over 2 ** m. */
  lemma {:induction false} FairDuelCounts(ends: Split, b: nat, c: nat, m: nat)
    ensures Duel(ends, b, c, m, 0.5) == FairShare(|GamesEnding(ends, b, c, m)|, m)
    decreases m
  {
    if m == 0 {
      assert GamesEnding(ends, b, c, 0) == if ends(b, c) then {[]} else {};
    } else {
      FairDuelCounts(ends, b + 1, c, m - 1);
      FairDuelCounts(ends, b, c + 1, m - 1);
      SplitByFirstRound(ends, b, c, m);
      AddCounts(Duel(ends, b + 1, c, m - 1, 0.5), Duel(ends, b, c + 1, m - 1, 0.5),
                |GamesEnding(ends, b + 1, c, m - 1)|, |GamesEnding(ends, b, c + 1, m - 1)|, |GamesEnding(ends, b, c, m)|, m);
    }
  }

  lemma AddCounts(won: real, lost: real, x: nat, y: nat, z: nat, m: nat)
    requires m > 0 && z == x + y
    requires won == FairShare(x, m - 1) && lost == FairShare(y, m - 1)
    ensures Blend(0.5, won, lost) == FairShare(z, m)
  {
    FairShareSplits(x, y, m - 1);
  }

  lemma GameByFirstRound(ends: Split, b: nat, c: nat, m: nat, g: seq<bool>)
    requires m > 0 && g != []
    ensures g in GamesEnding(ends, b, c, m)
            <==> if g[0] then g[1..] in GamesEnding(ends, b + 1, c, m - 1) else g[1..] in GamesEnding(ends, b, c + 1, m - 1)
  {
    InLed(g, true, Games(m - 1));
    InLed(g, false, Games(m - 1));
  }

  lemma {:induction false} GamesAreLong(m: nat, g: seq<bool>)
    requires g in Games(m)
    ensures |g| == m
  {
    if m > 0 {
      var first :| g in Led(first, Games(m - 1));
      var h :| h in Games(m - 1) && g == [first] + h;
      GamesAreLong(m - 1, h);
    }
  }

  lemma GamesByFirstRound(ends: Split, b: nat, c: nat, m: nat)
    requires m > 0
    ensures GamesEnding(ends, b, c, m)
         == Led(true, GamesEnding(ends, b + 1, c, m - 1)) + Led(false, GamesEnding(ends, b, c + 1, m - 1))
  {
    var all := GamesEnding(ends, b, c, m);
    var won, lost := GamesEnding(ends, b + 1, c, m - 1), GamesEnding(ends, b, c + 1, m - 1);
    forall g: seq<bool> ensures g in all <==> g in Led(true, won) || g in Led(false, lost) {
      if g == [] {
        if g in all { GamesAreLong(m, g); }
      } else {
        GameByFirstRound(ends, b, c, m, g);
        InLed(g, true, won);
        InLed(g, false, lost);
      }
    }
  }

  lemma SplitByFirstRound(ends: Split, b: nat, c: nat, m: nat)
    requires m > 0
    ensures |GamesEnding(ends, b, c, m)| == |GamesEnding(ends, b + 1, c, m - 1)| + |GamesEnding(ends, b, c + 1, m - 1)|
  {
    GamesByFirstRound(ends, b, c, m);
    var won, lost := GamesEnding(ends, b + 1, c, m - 1), GamesEnding(ends, b, c + 1, m - 1);
    LedKeepsCount(true, won);
    LedKeepsCount(false, lost);
    assert Led(true, won) !! Led(false, lost);
  }

  lemma InLed(g: seq<bool>, first: bool, games: set<seq<bool>>)
    requires g != []
    ensures g in Led(first, games) <==> g[0] == first && g[1..] in games
  {
    forall h | h in games && g == [first] + h ensures h == g[1..] { }
    if g[0] == first { assert g == [first] + g[1..]; }
  }

  /** The games of m decisive rounds after which the exact test rejects in the target's favour. */
  ghost function RejectingGames(alpha: real, m: nat): set<seq<bool>> {
    set g | g in Games(m) && Rejects(alpha, WonIn(g), LostIn(g))
  }

  /** Among the 2 ** m equally likely games of m decisive rounds, at most a share alpha / 2 rejects. */
  lemma FewGamesReject(alpha: real, m: nat)
    requires 0.0 < alpha < 1.0
    ensures FairShare(|RejectingGames(alpha, m)|, m) <= alpha / 2.0
  {
    assert GamesEnding(Rejecting(alpha), 0, 0, m) == RejectingGames(alpha, m);
    FairDuelCounts(Rejecting(alpha), 0, 0, m);
    DuelBound(alpha, m, 0.5);
  }
}
