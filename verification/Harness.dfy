/** The candidate harness and the round-robin tournament built on the exact paired test. */
module Harness {
  import opened McNemar
  import opened Evidence
  import opened Gates

  /** What a candidate is registered under. */
  datatype Name = Name(text: string)

  /** A candidate classifier on one input; None when it raises or returns nothing. */
  type Candidate = Input -> Option<Label>

  // ---------------------------------------------------------------------------
  // Reports
  // ---------------------------------------------------------------------------

  datatype Report = Report(paired: nat, currentCorrect: nat, targetCorrect: nat, b: nat, c: nat,
                           pValue: real, recommendPromote: bool)

  function Accuracy(right: nat, n: nat): real {
    if n == 0 then 0.0 else right as real / n as real
  }

  /** The body of CandidateHarness.evaluate, and of one pairing of Tournament.evaluate. */
  function ReportOn(alpha: real, s: seq<Pair>): Report {
    var p := PValue(Wins(s), Losses(s));
    Report(|s|, CurrentRight(s), TargetRight(s), Wins(s), Losses(s), p,
           p < alpha && Accuracy(TargetRight(s), |s|) > Accuracy(CurrentRight(s), |s|))
  }

  /** The accuracy condition of a recommendation is the direction check b > c. */
  lemma RecommendationIsRejection(alpha: real, s: seq<Pair>)
    ensures ReportOn(alpha, s).recommendPromote <==> Rejects(alpha, Wins(s), Losses(s))
  {
    if s != [] { DeltaSign(s); }
  }

  /**
   What a report says of its sample: how often each side was right, where only one of them was, and a
   recommendation exactly if only the candidate was right more often, by the exact test at alpha.
   */
  lemma ReportMeans(alpha: real, s: seq<Pair>)
    ensures var r := ReportOn(alpha, s);
            && r.paired == |s|
            && r.currentCorrect == |Where(s, (p: Pair) => p.current)| && r.targetCorrect == |Where(s, (p: Pair) => p.target)|
            && r.b == |Where(s, (p: Pair) => p.target && !p.current)| && r.c == |Where(s, (p: Pair) => p.current && !p.target)|
            && r.b - r.c == r.targetCorrect - r.currentCorrect
            && r.pValue == PValue(r.b, r.c) && (r.recommendPromote <==> r.b > r.c && r.pValue < alpha)
  {
    CountsArePlaces(s);
    DiscordantPairsAreTheDifference(s);
    RecommendationIsRejection(alpha, s);
  }

  /** Promoting a candidate that is truly no better than production has probability at most alpha / 2. */
  lemma HarnessContract(alpha: real, r: Rates, n: nat)
    requires 0.0 < alpha < 1.0 && r.Valid() && r.Advantage() <= 0.0
    ensures Probability(r, s => ReportOn(alpha, s).recommendPromote, [], n) <= alpha / 2.0
  {
    forall s | ReportOn(alpha, s).recommendPromote ensures Rejects(alpha, Wins(s), Losses(s)) {
      RecommendationIsRejection(alpha, s);
    }
    FalsePromotionBound(r, alpha, s => ReportOn(alpha, s).recommendPromote, n);
  }

  /** An input that only the candidate gets right never withdraws a recommendation. */
  lemma AnotherWinKeepsRecommendation(alpha: real, s: seq<Pair>)
    requires ReportOn(alpha, s).recommendPromote
    ensures ReportOn(alpha, s + [Pair(false, true)]).recommendPromote
  {
    RecommendationIsRejection(alpha, s);
    RecommendationIsRejection(alpha, s + [Pair(false, true)]);
    WinsOfAppend(s, Pair(false, true));
    AnotherWinKeepsEvidence(Wins(s), Losses(s));
  }

  // ---------------------------------------------------------------------------
  // CandidateHarness
  // ---------------------------------------------------------------------------

  /** One paired observation; a candidate that raised is counted as wrong. */
  function Scored(candidate: Candidate, input: Input, production: Option<Label>, truth: Label): Pair {
    Pair(production == Some(truth), candidate(input).Some? && candidate(input).value == truth)
  }

  /** The registered candidates, in registration order, each with its observations. */
  class CandidateHarness {
    const alpha: real
    var names: seq<Name>
    var candidates: seq<Candidate>
    var observations: seq<seq<Pair>>

    ghost predicate Valid()
      reads this
    {
      && 0.0 < alpha < 1.0
      && |names| == |candidates| == |observations|
      && forall i, j :: 0 <= i < j < |names| ==> names[i] != names[j]
    }

    constructor (alpha: real)
      requires 0.0 < alpha < 1.0
      ensures Valid() && names == [] && this.alpha == alpha
    {
      this.alpha := alpha;
      names, candidates, observations := [], [], [];
    }

    /** False stands for the ValueError of an empty or taken name. */
    method Register(name: Name, candidate: Candidate) returns (ok: bool)
      requires Valid()
      modifies this
      ensures Valid()
      ensures ok == (name.text != "" && name !in old(names))
      ensures ok ==> names == old(names) + [name] && candidates == old(candidates) + [candidate]
                     && observations == old(observations) + [[]]
      ensures !ok ==> names == old(names) && candidates == old(candidates) && observations == old(observations)
    {
      if name.text == "" || name in names { return false; }
      names := names + [name];
      candidates := candidates + [candidate];
      observations := observations + [[]];
      return true;
    }

    /** Production, every candidate and the truth oracle on one input. */
    method Observe(input: Input, production: Option<Label>, truth: Label)
      requires Valid()
      modifies this`observations
      ensures Valid()
      ensures forall k :: 0 <= k < |names| ==>
                observations[k] == old(observations)[k] + [Scored(candidates[k], input, production, truth)]
      ensures forall k :: 0 <= k < |names| ==>
                var newest := observations[k][|old(observations)[k]|];
                (newest.current <==> production == Some(truth)) && (newest.target <==> candidates[k](input) == Some(truth))
    {
      for i := 0 to |names|
        invariant |observations| == |names|
        invariant forall k :: 0 <= k < |names| ==>
                    observations[k] == if k < i then old(observations)[k] + [Scored(candidates[k], input, production, truth)]
                                       else old(observations)[k]
      {
        observations := observations[i := observations[i] + [Scored(candidates[i], input, production, truth)]];
      }
    }

    /** None stands for the KeyError of an unknown name. */
    method Evaluate(name: Name) returns (report: Option<Report>)
      requires Valid()
      ensures report.None? <==> name !in names
      ensures report.Some? ==>
                forall k :: 0 <= k < |names| && names[k] == name ==>
                  && report.value == ReportOn(alpha, observations[k])
                  && (report.value.recommendPromote <==> Rejects(alpha, Wins(observations[k]), Losses(observations[k])))
    {
      for k := 0 to |names|
        invariant name !in names[..k]
      {
        if names[k] == name {
          RecommendationIsRejection(alpha, observations[k]);
          return Some(ReportOn(alpha, observations[k]));
        }
      }
      return None;
    }
  }

  // ---------------------------------------------------------------------------
  // Order of observation
  // ---------------------------------------------------------------------------

  function Project<T>(rows: seq<T>, f: T -> Pair): (s: seq<Pair>)
    ensures |s| == |rows| && forall i :: 0 <= i < |rows| ==> s[i] == f(rows[i])
  {
    seq(|rows|, i requires 0 <= i < |rows| => f(rows[i]))
  }

  lemma ProjectAppend<T>(rows: seq<T>, f: T -> Pair, row: T)
    ensures Wins(Project(rows + [row], f)) == Wins(Project(rows, f)) + Wins([f(row)])
    ensures Losses(Project(rows + [row], f)) == Losses(Project(rows, f)) + Losses([f(row)])
  {
    assert Project(rows + [row], f) == Project(rows, f) + [f(row)];
    WinsOfAppend(Project(rows, f), f(row));
    WinsOfAppend([], f(row));
    assert [] + [f(row)] == [f(row)];
  }

  lemma {:induction false} ProjectConcat<T>(rows: seq<T>, more: seq<T>, f: T -> Pair)
    ensures Wins(Project(rows + more, f)) == Wins(Project(rows, f)) + Wins(Project(more, f))
    ensures Losses(Project(rows + more, f)) == Losses(Project(rows, f)) + Losses(Project(more, f))
  {
    if more == [] {
      assert rows + more == rows;
    } else {
      var n := |more| - 1;
      ProjectConcat(rows, more[..n], f);
      assert rows + more == (rows + more[..n]) + [more[n]];
      assert more == more[..n] + [more[n]];
      ProjectAppend(rows + more[..n], f, more[n]);
      ProjectAppend(more[..n], f, more[n]);
    }
  }

  lemma SameWithoutLast<T>(init: seq<T>, before: seq<T>, after: seq<T>, last: T)
    requires multiset(init + [last]) == multiset((before + [last]) + after)
    ensures multiset(init) == multiset(before + after)
  {
    var one := multiset([last]);
    assert multiset(init + [last]) == multiset(init) + one;
    assert multiset((before + [last]) + after) == multiset(before) + one + multiset(after);
    assert multiset(before + after) == multiset(before) + multiset(after);
    assert multiset(init) == (multiset(init) + one) - one;
    assert multiset(before + after) == (multiset(before) + one + multiset(after)) - one;
  }

  lemma CountsWithout<T>(before: seq<T>, after: seq<T>, last: T, f: T -> Pair)
    ensures Wins(Project((before + [last]) + after, f)) == Wins(Project(before + after, f)) + Wins([f(last)])
    ensures Losses(Project((before + [last]) + after, f)) == Losses(Project(before + after, f)) + Losses([f(last)])
  {
    ProjectConcat(before + [last], after, f);
    ProjectAppend(before, f, last);
    ProjectConcat(before, after, f);
  }

  /** The discordant counts do not depend on the order of the rows. */
  lemma {:induction false} CountsIgnoreOrder<T>(s: seq<T>, t: seq<T>, f: T -> Pair)
    requires multiset(s) == multiset(t)
    ensures Wins(Project(s, f)) == Wins(Project(t, f)) && Losses(Project(s, f)) == Losses(Project(t, f))
    decreases |s|
  {
    if s == [] {
      assert |multiset(t)| == 0;
    } else {
      var init, last := s[..|s| - 1], s[|s| - 1];
      assert s == init + [last];
      assert last in multiset(s);
      assert last in t;
      var i :| 0 <= i < |t| && t[i] == last;
      var before, after := t[..i], t[i + 1..];
      assert t == (before + [last]) + after;
      SameWithoutLast(init, before, after, last);
      CountsIgnoreOrder(init, before + after, f);
      CountsWithout(before, after, last, f);
      ProjectAppend(init, f, last);
    }
  }

  // ---------------------------------------------------------------------------
  // Tournament
  // ---------------------------------------------------------------------------

  /** Who got one input right. */
  type Row = map<Name, bool>

  function Contest(x: Name, y: Name): Row -> Pair {
    (row: Row) => Pair(y in row && row[y], x in row && row[x])
  }

  /** The head-to-head rows of challenger x against baseline y. */
  function Versus(rows: seq<Row>, x: Name, y: Name): seq<Pair> {
    Project(rows, Contest(x, y))
  }

  predicate Beats(alpha: real, rows: seq<Row>, x: Name, y: Name) {
    ReportOn(alpha, Versus(rows, x, y)).recommendPromote
  }

  predicate Sweeps(alpha: real, rows: seq<Row>, names: seq<Name>, x: Name) {
    x in names && forall j :: 0 <= j < |names| && names[j] != x ==> Beats(alpha, rows, x, names[j])
  }

  lemma {:induction false} VersusSwaps(rows: seq<Row>, x: Name, y: Name)
    ensures Wins(Versus(rows, x, y)) == Losses(Versus(rows, y, x))
  {
    if rows != [] {
      var init, last := rows[..|rows| - 1], rows[|rows| - 1];
      VersusSwaps(init, x, y);
      assert rows == init + [last];
      ProjectAppend(init, Contest(x, y), last);
      ProjectAppend(init, Contest(y, x), last);
      WinsOfAppend([], Contest(x, y)(last));
      WinsOfAppend([], Contest(y, x)(last));
      assert forall p: Pair :: [] + [p] == [p];
    }
  }

  lemma BeatsIsAntisymmetric(alpha: real, rows: seq<Row>, x: Name, y: Name)
    ensures !(Beats(alpha, rows, x, y) && Beats(alpha, rows, y, x))
  {
    RecommendationIsRejection(alpha, Versus(rows, x, y));
    RecommendationIsRejection(alpha, Versus(rows, y, x));
    VersusSwaps(rows, x, y);
    VersusSwaps(rows, y, x);
  }

  /** At most one candidate beats every other. */
  lemma OneSweeper(alpha: real, rows: seq<Row>, names: seq<Name>, x: Name, y: Name)
    requires Sweeps(alpha, rows, names, x) && Sweeps(alpha, rows, names, y)
    ensures x == y
  {
    if x != y { BeatsIsAntisymmetric(alpha, rows, x, y); }
  }

  /** Who sweeps depends neither on the registration order nor on the order of the inputs. */
  lemma SweepIgnoresOrder(alpha: real, rows: seq<Row>, names: seq<Name>, rows': seq<Row>, names': seq<Name>, x: Name)
    requires multiset(rows) == multiset(rows')
    requires forall n :: n in names <==> n in names'
    ensures Sweeps(alpha, rows, names, x) <==> Sweeps(alpha, rows', names', x)
  {
    forall y ensures Beats(alpha, rows, x, y) <==> Beats(alpha, rows', x, y) {
      CountsIgnoreOrder(rows, rows', Contest(x, y));
      RecommendationIsRejection(alpha, Versus(rows, x, y));
      RecommendationIsRejection(alpha, Versus(rows', x, y));
    }
    SweepsByName(alpha, rows, names, x);
    SweepsByName(alpha, rows', names', x);
  }

  lemma SweepsByName(alpha: real, rows: seq<Row>, names: seq<Name>, x: Name)
    ensures Sweeps(alpha, rows, names, x)
            <==> x in names && forall y :: y in names && y != x ==> Beats(alpha, rows, x, y)
  {
    forall y | Sweeps(alpha, rows, names, x) && y in names && y != x ensures Beats(alpha, rows, x, y) {
      var j :| 0 <= j < |names| && names[j] == y;
    }
  }

  /** The inputs that x got right and y got wrong. */
  function OnlyRight(rows: seq<Row>, x: Name, y: Name): set<nat> {
    set i: nat | i < |rows| && (x in rows[i] && rows[i][x]) && !(y in rows[i] && rows[i][y])
  }

  /** x beats y exactly if more inputs are right for x alone than for y alone, by the exact test at alpha. */
  lemma BeatsIff(alpha: real, rows: seq<Row>, x: Name, y: Name)
    ensures var b, c := |OnlyRight(rows, x, y)|, |OnlyRight(rows, y, x)|;
            Beats(alpha, rows, x, y) <==> b > c && PValue(b, c) < alpha
  {
    var s := Versus(rows, x, y);
    ReportMeans(alpha, s);
    assert Where(s, (p: Pair) => p.target && !p.current) == OnlyRight(rows, x, y);
    assert Where(s, (p: Pair) => p.current && !p.target) == OnlyRight(rows, y, x);
  }

  /** A sweeper beats everybody else in that sense. */
  lemma SweepsIff(alpha: real, rows: seq<Row>, names: seq<Name>, x: Name)
    ensures Sweeps(alpha, rows, names, x)
            <==> x in names && forall y :: y in names && y != x ==>
                   var b, c := |OnlyRight(rows, x, y)|, |OnlyRight(rows, y, x)|; b > c && PValue(b, c) < alpha
  {
    SweepsByName(alpha, rows, names, x);
    forall y { BeatsIff(alpha, rows, x, y); }
  }

  /** One candidate's results over the inputs. */
  function Column(rows: seq<Row>, n: Name): (s: seq<bool>)
    ensures |s| == |rows|
  {
    seq(|rows|, i requires 0 <= i < |rows| => n in rows[i] && rows[i][n])
  }

  lemma ColumnAppend(rows: seq<Row>, row: Row, n: Name)
    ensures Column(rows + [row], n) == Column(rows, n) + [n in row && row[n]]
  {
  }

  lemma ColumnsMakeVersus(rows: seq<Row>, x: Name, y: Name)
    ensures Zip(Column(rows, y), Column(rows, x)) == Versus(rows, x, y)
  {
  }

  function Zip(current: seq<bool>, target: seq<bool>): seq<Pair>
    requires |current| == |target|
  {
    seq(|current|, i requires 0 <= i < |current| => Pair(current[i], target[i]))
  }

  /** Every candidate gave the same answer on one input. */
  predicate OneAnswer(answers: seq<Option<Label>>) {
    forall i, j | 0 <= i < |answers| && 0 <= j < |answers| :: answers[i] == answers[j]
  }

  datatype TournamentReport = TournamentReport(winner: Option<Name>, unanimous: bool)

  class Tournament {
    const alpha: real
    const names: seq<Name>
    const candidates: seq<Candidate>
    var observations: seq<seq<bool>>
    var predictions: seq<seq<Option<Label>>>

    /** The inputs observed, their true labels, and who got which right. */
    ghost var inputs: seq<Input>
    ghost var truths: seq<Label>
    ghost var rows: seq<Row>

    ghost predicate Valid()
      reads this
    {
      && 0.0 < alpha < 1.0 && 2 <= |names| == |candidates| == |observations|
      && (forall i, j :: 0 <= i < j < |names| ==> names[i] != names[j])
      && (forall k :: 0 <= k < |names| ==> observations[k] == Column(rows, names[k]))
      && |predictions| == |rows| == |inputs| == |truths|
      && forall i :: 0 <= i < |inputs| ==> Predicted(inputs[i], predictions[i]) && Judged(inputs[i], truths[i], rows[i])
    }

    /** These are the candidates' answers on the input. */
    ghost predicate Predicted(input: Input, answers: seq<Option<Label>>) {
      |answers| == |names| <= |candidates| && forall k :: 0 <= k < |names| ==> answers[k] == candidates[k](input)
    }

    /** The row says of every candidate whether it gave the true label; raising is wrong. */
    ghost predicate Judged(input: Input, truth: Label, row: Row) {
      |names| <= |candidates|
      && forall k :: 0 <= k < |names| ==> names[k] in row && (row[names[k]] <==> candidates[k](input) == Some(truth))
    }

    /** Every candidate gave the same answer on every input, and there was an input. */
    predicate Unanimous()
      reads this
    {
      predictions != [] && forall i | 0 <= i < |predictions| :: OneAnswer(predictions[i])
    }

    constructor (names: seq<Name>, candidates: seq<Candidate>, alpha: real)
      requires 0.0 < alpha < 1.0 && 2 <= |names| == |candidates|
      requires forall i, j :: 0 <= i < j < |names| ==> names[i] != names[j]
      ensures Valid() && rows == [] && inputs == []
      ensures this.names == names && this.candidates == candidates && this.alpha == alpha
    {
      this.alpha, this.names, this.candidates := alpha, names, candidates;
      observations := seq(|names|, _ => []);
      predictions, rows, inputs, truths := [], [], [], [];
    }

    /** Every candidate and the truth oracle on one input. */
    method Observe(input: Input, truth: Label)
      requires Valid()
      modifies this`observations, this`predictions, this`rows, this`inputs, this`truths
      ensures Valid()
      ensures inputs == old(inputs) + [input] && truths == old(truths) + [truth]
      ensures |predictions| == |old(predictions)| + 1 && predictions[..|old(predictions)|] == old(predictions)
      ensures forall k :: 0 <= k < |names| ==> predictions[|old(predictions)|][k] == candidates[k](input)
      ensures |rows| == |old(rows)| + 1 && rows[..|old(rows)|] == old(rows)
      ensures forall k :: 0 <= k < |names| ==>
                names[k] in rows[|old(rows)|] && rows[|old(rows)|][names[k]] == (candidates[k](input) == Some(truth))
    {
      var answers := [];
      ghost var row: Row := map[];
      for i := 0 to |names|
        invariant |observations| == |names| && |answers| == i
        invariant rows == old(rows) && predictions == old(predictions) && inputs == old(inputs) && truths == old(truths)
        invariant forall k :: 0 <= k < |names| && i <= k ==> observations[k] == old(observations)[k]
        invariant forall k :: 0 <= k < i ==> names[k] in row && row[names[k]] == (candidates[k](input) == Some(truth))
        invariant forall k :: 0 <= k < i ==> observations[k] == old(observations)[k] + [row[names[k]]]
        invariant forall k :: 0 <= k < i ==> answers[k] == candidates[k](input)
      {
        var answer := candidates[i](input);
        answers := answers + [answer];
        observations := observations[i := observations[i] + [answer.Some? && answer.value == truth]];
        row := row[names[i] := answer == Some(truth)];
      }
      forall k | 0 <= k < |names| ensures observations[k] == Column(rows + [row], names[k]) {
        ColumnAppend(rows, row, names[k]);
      }
      predictions := predictions + [answers];
      rows, inputs, truths := rows + [row], inputs + [input], truths + [truth];
    }

    /**
     A tournament is unanimous exactly if something was observed and the candidates agree on every input;
     then the first registered wins.  Otherwise the winner is the sweeper, and there is none when nobody sweeps.
     */
    method Evaluate() returns (report: TournamentReport)
      requires Valid()
      ensures report.unanimous <==> Unanimous()
      ensures report.unanimous <==>
                inputs != [] && forall i, j, k :: 0 <= i < |inputs| && 0 <= j < |names| && 0 <= k < |names| ==>
                                  candidates[j](inputs[i]) == candidates[k](inputs[i])
      ensures report.unanimous ==> report.winner == Some(names[0])
      ensures !report.unanimous ==> forall x :: report.winner == Some(x) <==> Sweeps(alpha, rows, names, x)
      ensures !report.unanimous ==> forall k :: 0 <= k < |names| ==>
                (report.winner == Some(names[k]) <==> BetterThanAll(k))
    {
      UnanimousIff();
      forall k | 0 <= k < |names| ensures Sweeps(alpha, rows, names, names[k]) <==> BetterThanAll(k) { SweepsOnInputs(k); }
      if Unanimous() {
        return TournamentReport(Some(names[0]), true);
      }
      var pairwise := RoundRobin();
      var winner := FirstSweeper(pairwise);
      return TournamentReport(winner, false);
    }

    /** The inputs that candidate k got right and candidate j got wrong. */
    ghost function Alone(k: nat, j: nat): set<nat>
      requires k < |candidates| && j < |candidates| && |inputs| == |truths|
      reads this
    {
      set i: nat | i < |inputs| && candidates[k](inputs[i]) == Some(truths[i]) && candidates[j](inputs[i]) != Some(truths[i])
    }

    /** Candidate k is right alone more often than candidate j, by the exact test at alpha. */
    ghost predicate Better(k: nat, j: nat)
      requires k < |candidates| && j < |candidates| && |inputs| == |truths|
      reads this
    {
      |Alone(k, j)| > |Alone(j, k)| && PValue(|Alone(k, j)|, |Alone(j, k)|) < alpha
    }

    ghost predicate BetterThanAll(k: nat)
      requires k < |names| <= |candidates| && |inputs| == |truths|
      reads this
    {
      forall j :: 0 <= j < |names| && j != k ==> Better(k, j)
    }

    lemma AloneIsOnlyRight(k: nat, j: nat)
      requires Valid() && k < |names| && j < |names|
      ensures Alone(k, j) == OnlyRight(rows, names[k], names[j])
    {
      forall i: nat | i < |inputs| ensures i in Alone(k, j) <==> i in OnlyRight(rows, names[k], names[j]) {
        assert Judged(inputs[i], truths[i], rows[i]);
      }
    }

    /** Who sweeps, in terms of the candidates and the inputs. */
    lemma SweepsOnInputs(k: nat)
      requires Valid() && k < |names|
      ensures Sweeps(alpha, rows, names, names[k]) <==> BetterThanAll(k)
    {
      forall j | 0 <= j < |names| && j != k ensures Better(k, j) <==> Beats(alpha, rows, names[k], names[j]) {
        AloneIsOnlyRight(k, j);
        AloneIsOnlyRight(j, k);
        BeatsIff(alpha, rows, names[k], names[j]);
      }
    }

    /** Agreement of the recorded predictions is agreement of the candidates. */
    lemma UnanimousIff()
      requires Valid()
      ensures Unanimous() <==>
                inputs != [] && forall i, j, k :: 0 <= i < |inputs| && 0 <= j < |names| && 0 <= k < |names| ==>
                                  candidates[j](inputs[i]) == candidates[k](inputs[i])
    {
      if Unanimous() {
        forall i, j, k | 0 <= i < |inputs| && 0 <= j < |names| && 0 <= k < |names|
          ensures candidates[j](inputs[i]) == candidates[k](inputs[i])
        {
          assert OneAnswer(predictions[i]) && Predicted(inputs[i], predictions[i]);
        }
      }
    }

    /** The row says whom names[i] beats; its own entry says nothing. */
    ghost predicate HeadToHead(i: nat, row: seq<bool>)
      requires i < |names|
      reads this
    {
      |row| == |names| && forall j :: 0 <= j < |names| && i != j ==> (row[j] <==> Beats(alpha, rows, names[i], names[j]))
    }

    /** The recommendation of every ordered pair, head to head; the diagonal is not played. */
    method RoundRobin() returns (pairwise: seq<seq<bool>>)
      requires Valid()
      ensures |pairwise| == |names|
      ensures forall i :: 0 <= i < |names| ==> HeadToHead(i, pairwise[i])
    {
      pairwise := [];
      for i := 0 to |names|
        invariant |pairwise| == i
        invariant forall k :: 0 <= k < i ==> HeadToHead(k, pairwise[k])
      {
        var row := PlayAll(i);
        pairwise := pairwise + [row];
      }
    }

    method PlayAll(i: nat) returns (row: seq<bool>)
      requires Valid() && i < |names|
      ensures HeadToHead(i, row)
    {
      row := [];
      for j := 0 to |names|
        invariant |row| == j
        invariant forall k :: 0 <= k < j && i != k ==> (row[k] <==> Beats(alpha, rows, names[i], names[k]))
      {
        ColumnsMakeVersus(rows, names[i], names[j]);
        row := row + [ReportOn(alpha, Zip(observations[j], observations[i])).recommendPromote];
      }
    }

    method FirstSweeper(pairwise: seq<seq<bool>>) returns (winner: Option<Name>)
      requires Valid() && |pairwise| == |names|
      requires forall i :: 0 <= i < |names| ==> HeadToHead(i, pairwise[i])
      ensures forall x :: winner == Some(x) <==> Sweeps(alpha, rows, names, x)
    {
      for i := 0 to |names|
        invariant forall k :: 0 <= k < i ==> !Sweeps(alpha, rows, names, names[k])
      {
        assert HeadToHead(i, pairwise[i]);
        if forall j | 0 <= j < |names| :: j != i ==> pairwise[i][j] {
          forall x | Sweeps(alpha, rows, names, x) ensures x == names[i] {
            OneSweeper(alpha, rows, names, names[i], x);
          }
          return Some(names[i]);
        }
      }
      return None;
    }
  }
}
