# Postrule, modelled and proved

Postrule graduates a decision point from a hand-written rule to a language model and on to a
trained ML head, one phase at a time, on the evidence of recorded verdicts. This project models
the parts of it that carry guarantees and proves those guarantees.

`dafny verify dfyconfig.toml` checks everything.

| module | what it is about |
|---|---|
| `Binomial`, `McNemar` | the exact paired test, its laws, and the probability that it promotes something no better |
| `Evidence` | what a recorded verdict says about the rule, the model and the ML head |
| `Gates` | the gates, the versioned default gates, and what a gate can never say |
| `Harness` | `CandidateHarness` and `Tournament` |
| `Storage`, `FileStorage`, `BatchedWrites`, `ResilientStorage` | the outcome log: bounded in memory, in rotated files, batched, and with a fallback |
| `Signals`, `Lifecycle`, `LifecycleRuns`, `LeavingRule`, `BulkLoading`, `Hysteresis`, `Drift`, `Rejustification`, `Reconciliation` | the graduation lifecycle as a state machine, and its runs |
| `Cascade`, `LearnedSwitch` | which tier decides a classification, and the switch object with all its operations |
| `ToolSchema`, `Escalation`, `Refresh`, `Packing` | schema coercion, threshold calibration, generated-file headers, argument packing |

Numbers that are floats in the program are reals here. A fault (a disk that fails, a model, head,
judge or gate that raises) is an answer of a parameter: a storage fails by an arbitrary script. The clock,
the judge and the tiers are parameters. The phase functions in `Lifecycle` specify the operations;
the methods of `LearnedSwitch.Switch` change fields in place and are proved against them.

## Where the code does less than its documentation says

Each of these is a theorem below, with its exact condition where there is one.

- **No switch leaves RULE on the default gates.** `RULE` and `MODEL_SHADOW` read the same output
  of a record, so every comparison between them is a tie, whatever is logged
  (`LifecycleRuns.DefaultSwitchNeverLeavesRule`). The gates that can leave are exactly those that
  accept ties (`LeavingRule.SidestepIff`, `LeavingRule.LeavesRuleIff`). The repository's README.md,
  lines 213-230, describes automatic graduation to `ML_PRIMARY` with the default configuration.
- **A strict drift gate cannot see a decaying layer that makes the decisions itself.** The rule
  scores only on a correct decision that was its own output while the layer said something else, so a
  verdict on the layer's own answer is never a point for it. `Drift.StrictDriftIff` says exactly which
  logs can raise the alarm; see also `Drift.OwnDecisionsHideDrift`, `LearnedSwitch.ServedAnswersHideDrift`.
- **"Insufficient evidence holds the phase" fails for every gate that declares no `min_paired`**: the
  phase-aware, composite, volume and latency gates, the manual gate, and custom gates without one. A
  phase then holds only if the gate says yes or raises (`Rejustification.HoldsIff`,
  `Rejustification.ThinEvidenceHoldsIff`). Under the v2 default, or the v1 default in a volume floor,
  any recent window shorter than 200 records drops every phase to RULE
  (`Rejustification.ShortWindowSplitsTheDefaults`, `Rejustification.VolumeFloorDropsToRule`).
- **A restart with a new judge, strategy, label set or rule version loses the pin** of a default set
  that is not the current one (`Reconciliation.RestartKeepsPinIff`, `Reconciliation.NewJudgeLosesPin`).
- **Preloading labelled history does not graduate a switch under a strict gate.** A bulk row carries no
  output of the model or the head, so it pairs no two different outputs and never changes a strict
  gate's answer; the batch raises the phase exactly if the gate had said yes without it
  (`BulkLoading.BulkRaisesIff`). For any other gate what counts is its
  answer to the log with the rows on it (`BulkLoading.AnyGateBulkRaisesIff`): one that accepts ties
  can be preloaded out of RULE (`BulkLoading.TieGateGraduates`). The documentation of
  `bulk_record_verdicts` offers it for a cold start.
- **Not every reported confidence is clamped**: the model's is not where an ML phase falls back on it
  (`LearnedSwitch.ConfidenceInRangeIff`, `LearnedSwitch.OverconfidentModel`).
- **Many gate swaps are no signal swap**: a new margin, and any exchange of one phase-aware, composite,
  volume, latency or manual gate for another of its class (`Signals.GateSwapIsInvisibleIff`,
  `Reconciliation.GateSwapGoesUnnoticedIff`).
- **A failing switch loses other switches' queued records.** The drain forgets the rest of its
  snapshot when one write raises (`BatchedWrites.FailureSurvivors`, `BatchedWrites.SecondSwitchIsLost`).
- **A drain of the resilient storage does not return the number of records it drained** but of all
  records that ever spilled (`ResilientStorage.Resilient.Drain`).
- **Not every tool parameter survives coercion.** One named like a stripped keyword ("title", "default"
  and so on) is lost; one named "anyOf" makes the whole call raise, unless its own schema coerces to
  nothing, and then it is lost (`ToolSchema.ParametersKept`, `ToolSchema.ParameterCalledAnyOf`,
  `ToolSchema.TitleIsLost`, `ToolSchema.AnyOfRaises`).
- **A calibrated threshold may exceed 1**, and `ConfidenceGate` then refuses it
  (`Escalation.WhenTheGateAcceptsIt`).
- **A generated file whose content opens with a comment is reported as edited** as soon as it is
  written (`Refresh.FreshFileIsUpToDateIff`), and **a hand edit that only adds comment lines under the
  header is not reported** (`Refresh.EditIsReportedIff`, `Refresh.InsertedCommentIsMissed`).
- **Packing accepts calls that Python rejects**: exactly those whose only fault is a parameter given
  twice, to a function with `**kwargs` (`Packing.PackAgreesWithPythonIff`,
  `Packing.DoublyGivenParameterSlips`).

## Model

| member | source | states |
|---|---|---|
| McNemar.ImplementationsAgree | src/postrule/viz.py:112-141 | the two spellings of the exact p-value are one function for every b + c <= 50 |
| McNemar.PValueLaws | src/postrule/autoresearch.py:102-120 | p is in (0, 1], symmetric in b and c, and 1 exactly when they differ by at most one |
| McNemar.AnotherWinKeepsEvidence | src/postrule/autoresearch.py:102-120 | one more win on the leading side never raises p |
| McNemar.CleanSweepValue | src/postrule/autoresearch.py:102-120 | k wins and no loss give p = 0.5 ** (k - 1) |
| McNemar.DiscordantPairsAreTheDifference | src/postrule/autoresearch.py:291-302 | b - c is the difference in correct answers |
| McNemar.DuelBound | src/postrule/autoresearch.py:102-120 | over any number of discordant pairs and any win probability q <= 1/2, rejecting towards the target has probability at most alpha / 2 |
| McNemar.FewGamesReject | src/postrule/autoresearch.py:102-120 | at q = 1/2, at most a share alpha / 2 of the 2 ** m win/loss sequences rejects towards the target |
| McNemar.FalsePromotionBound | src/postrule/gates.py:255-258 | the documented contract over whole samples: if the target is truly no better, any event that implies an exact rejection in its favour has probability at most alpha / 2, for any number of independent rows |
| McNemar.RepeatedLooks | src/postrule/core.py:1856-1893 | asked again and again as the rows come in, the test rejects for a target that is no better at any of the looks with probability at most alpha / 2 for each look, whenever the looks are |
| McNemar.WholeSpace | src/postrule/gates.py:255-258 | the weights that bound is about are a probability: together they are 1 |
| Binomial.ChooseIsFactorialQuotient | src/postrule/autoresearch.py:119-119 | the coefficients of the test are the factorial quotients math.comb returns |
| Binomial.TailMonotone | src/postrule/gates.py:255-258 | a better player is at least as likely to win k rounds, for every n and k |
| Binomial.FairTail | src/postrule/autoresearch.py:118-120 | against a fair coin the tail is the partial row sum over 2 ** n that the code computes |
| Evidence.NextPhase | src/postrule/gates.py:43-49 | the successor is one higher, and missing only at ML_PRIMARY |
| Evidence.PrevPhase | src/postrule/gates.py:52-66 | the predecessor is one lower, and missing only at RULE |
| Evidence.PairedCorrectness | src/postrule/gates.py:186-211 | the two lists hold one entry for each record that says something about both layers, in log order |
| Evidence.PairsStep | src/postrule/gates.py:201-211 | a record adds one pair, its two answers, exactly when it says something about both layers |
| Evidence.CountsArePlaces | src/postrule/viz.py:129-130 | b and c count the places where only the target and only the current side was right, and the correct counts those where each was |
| Evidence.EvidenceIsSound | src/postrule/gates.py:140-183 | on a truthful record, a determinate answer about a layer is the truth about it |
| Evidence.PairedDifferenceIsTrue | src/postrule/gates.py:186-211 | on a truthful log, b - c is the target's true number of correct answers minus the current layer's, over the paired records |
| Evidence.BuiltRecordsAreTruthful | src/postrule/core.py:1737-1807 | a truthful verdict and a truthful judge make a truthful record, adjudications included |
| Evidence.RecordKeepsObservations | src/postrule/core.py:1737-1807 | the record holds the arguments of the call and what each tier said on the classification; only a missing rule output is filled in, with the decision, under the source "rule" |
| Evidence.ShadowEvidenceIffAdjudicated | src/postrule/core.py:1761-1788 | exactly when a judged record says whether a shadow layer was right, in terms of what the layer said on the classification |
| Evidence.ShadowScore | src/postrule/core.py:1761-1788 | and what it then says: agreement with a correct decision, false for a wrong decision of its own, the verifier's word otherwise, and nothing without one |
| Evidence.RuleEvidenceIsLostOnWrongDecisions | src/postrule/core.py:1768-1788 | the rule is scored by agreement on a correct decision, and on a wrong one only when the decision was its own |
| Evidence.DirectVerdictsFeedTheRuleOnly | src/postrule/core.py:1727-1760 | a verdict recorded without a classification result scores no layer but the rule, and the rule only under the source "rule" |
| Evidence.NothingToPair | src/postrule/gates.py:186-211 | such records never pair two layers |
| Evidence.IncumbentNeverLoses | src/postrule/core.py:450-464 | if every decision is the current layer's own and nobody was judged separately, no record is ever a win of the target |
| Evidence.OneFieldNeverDisagrees | src/postrule/gates.py:214-227 | two phases that read one output have no discordant record |
| Evidence.PairsSwap | src/postrule/gates.py:186-211 | swapping the two phases swaps wins and losses and keeps the pairs |
| Gates.McNemarYesIsTrulyBetter | src/postrule/gates.py:287-378 | on a truthful log a yes means enough pairs and a target that was right strictly more often |
| Gates.SampleIsPairs | src/postrule/gates.py:369-378 | the three gates that count pairs report the number of paired records, enough or not |
| Gates.McNemarSaysYesIff | src/postrule/gates.py:287-378 | the exact condition for a yes: enough pairs, more wins than losses, and the exact p-value under alpha, or beyond 50 discordant pairs the approximation |
| Gates.AccuracyMarginSaysYesIff | src/postrule/gates.py:441-484 | a yes exactly when there are enough pairs and (b - c) / n beats the margin |
| Gates.CostToleranceSaysYesIff | src/postrule/gates.py:525-571 | a yes exactly when there are enough pairs and (c - b) / n is within the margin |
| Gates.VolumeFloor | src/postrule/gates.py:850-872 | below the floor a no with the record count for a sample; above it the inner gate's own answer, sample and exception |
| Gates.LatencySaysYesIff | src/postrule/gates.py:913-942 | a no exactly for a tier known to be slower than the objective, whatever is logged |
| Gates.PartsDecide | src/postrule/gates.py:987-1000 | a composite of gates that answer says yes exactly when all, or any, of them do |
| Gates.CompositeSample | src/postrule/gates.py:1008-1023 | the sample a composite reports is the first positive one of its parts |
| Gates.DefaultsSayYesIff | src/postrule/defaults.py:37-102 | when the default gate of any version says yes, the constants and the fall-back for unknown versions included; registering sets never changes v1 or v2 |
| Gates.McNemarGateContract | src/postrule/gates.py:255-258 | a promotion of a truly no better target on at most 50 discordant rows has probability at most alpha / 2 |
| Gates.RepeatedGateContract | src/postrule/core.py:1856-1893 | the same over any looks at the growing sample: at most alpha / 2 for each |
| Gates.StrictRefusesSameField | src/postrule/gates.py:214-227 | a strict gate refuses, on every log, two phases that read one output |
| Gates.StrictRefusesAgainstTheDecider | src/postrule/core.py:450-464 | a strict gate never says yes against a layer that made every decision itself |
| Gates.StrictRefusesWithoutShadows | src/postrule/gates.py:287-310 | a strict gate never says yes on a log of direct verdicts |
| Gates.StrictGatesNeverContradict | src/postrule/gates.py:312-347 | two strict gates never answer yes to (X, Y) and to (Y, X) on one log |
| Gates.CostToleranceAcceptsTies | src/postrule/gates.py:487-507 | on two phases that read one output the non-inferiority gate says yes exactly when there are enough pairs |
| Gates.FreshModelPrimaryIsNotDemoted | src/postrule/core.py:1895-1919 | after a yes for MODEL_PRIMARY the strict drift test on that log says no |
| Gates.StrictGatesRefuseSidesteps | src/postrule/gates.py:214-227 | a strict gate refuses the three upward steps between phases that read one output |
| Gates.EmbeddedDefaultsRefuseSidesteps | src/postrule/defaults.py:37-74 | so do both embedded default sets, and the fall-back for unknown versions |
| Harness.RecommendationIsRejection | src/postrule/autoresearch.py:291-302 | recommend_promote holds exactly when the exact test rejects in the candidate's favour |
| Harness.ReportMeans | src/postrule/autoresearch.py:279-302 | what every number of a report counts, and that the recommendation is b > c with the exact p of b and c below alpha |
| Harness.HarnessContract | src/postrule/autoresearch.py:279-302 | a candidate that is truly no better is recommended with probability at most alpha / 2 |
| Harness.AnotherWinKeepsRecommendation | src/postrule/autoresearch.py:279-302 | an input only the candidate gets right never withdraws a recommendation |
| Harness.CandidateHarness.Register | src/postrule/autoresearch.py:196-218 | an empty or taken name is refused and changes nothing; otherwise the candidate starts with no observations |
| Harness.CandidateHarness.Observe | src/postrule/autoresearch.py:233-263 | every candidate gains one observation, whether production and whether it gave the true label; a raising candidate counts as wrong |
| Harness.CandidateHarness.Evaluate | src/postrule/autoresearch.py:279-302 | the report is the one of that candidate's observations, and its recommendation is the exact rejection |
| Harness.CountsIgnoreOrder | src/postrule/autoresearch.py:294-295 | the discordant counts of permuted observations are equal |
| Harness.BeatsIsAntisymmetric | src/postrule/autoresearch.py:564-596 | no two candidates beat each other |
| Harness.BeatsIff | src/postrule/autoresearch.py:564-596 | a candidate beats another exactly if it alone is right on more inputs than the other alone, by the exact test at alpha |
| Harness.SweepsIff | src/postrule/autoresearch.py:598-608 | a sweeper is a candidate that does so against every other |
| Harness.OneSweeper | src/postrule/autoresearch.py:598-608 | at most one candidate beats every other |
| Harness.SweepIgnoresOrder | src/postrule/autoresearch.py:598-608 | who sweeps depends neither on the registration order nor on the order of the inputs |
| Harness.Tournament.Observe | src/postrule/autoresearch.py:514-534 | every candidate's answer to the input is recorded and scored against the truth, and earlier answers stay |
| Harness.Tournament.Evaluate | src/postrule/autoresearch.py:544-629 | unanimous exactly if there was an input and the candidates agree on every one, and the first registered then wins; otherwise the winner is the candidate that outdoes every other on the inputs by the exact test, and there is none when nobody does |
| Storage.BoundedInMemoryStorage.AppendRecord | src/postrule/storage.py:279-284 | the log stays the newest max_records of everything appended, for every switch |
| Storage.BoundedInMemoryStorage.LoadRecords | src/postrule/storage.py:286-289 | exactly those records, oldest first |
| FileStorage.FileLog.ShiftSegments | src/postrule/storage.py:970-1007 | every segment moves one number up and what passes retention is gone |
| FileStorage.FileLog.Rotate | src/postrule/storage.py:970-1007 | a rotation drops exactly the oldest readable segment and keeps the reading order of the rest |
| FileStorage.FileLog.AppendSync | src/postrule/storage.py:793-834 | the history grows by the batch in order, a rotation happens exactly when the batch would pass the cap, and only then is anything lost, the oldest readable segment |
| FileStorage.FileLog.Compact | src/postrule/storage.py:1065-1077 | a rotation on demand loses exactly the oldest readable segment |
| FileStorage.FileLog.LoadRecords | src/postrule/storage.py:1013-1025 | a suffix of everything appended; all of it before rotation number max_rotated + 1; at most (max_rotated + 1) * max(max_bytes, largest batch) bytes |
| FileStorage.BeyondRetention | src/postrule/storage.py:970-1007 | with a retention of 0 the retired file stays on disk, unread |
| BatchedWrites.RetryAddsOnlyRepeats | src/postrule/storage.py:898-916 | writing a batch again after any prefix of it was written adds only repeats |
| BatchedWrites.BatchedFileStorage.AppendRecord | src/postrule/storage.py:766-786 | the record joins its switch's queue and history; nothing else changes |
| BatchedWrites.BatchedFileStorage.WriteNext | src/postrule/storage.py:906-916 | the write succeeds exactly if no line of it raises; at-least-once in order is kept whatever prefix was written; after a failure the records are back in front of the newer ones, and the other switches of the snapshot are dropped |
| BatchedWrites.BatchedFileStorage.DrainOnce | src/postrule/storage.py:898-916 | a drain whose writes do not raise succeeds and empties the queue; one of a single switch never drops anything |
| BatchedWrites.BatchedFileStorage.LoadRecords | src/postrule/storage.py:1013-1025 | keeping first occurrences, the log of a switch nothing was dropped of is its append history |
| BatchedWrites.FailureSurvivors | src/postrule/storage.py:906-916 | exactly which records are still somewhere after a failed write |
| BatchedWrites.SecondSwitchIsLost | src/postrule/storage.py:906-916 | two switches with one record each, the first write raises, the second record is nowhere |
| ResilientStorage.Resilient.AppendRecord | src/postrule/storage.py:1420-1452 | for every script of failures: a healthy primary that takes the record has it and nothing else moves; otherwise the record spills, and a probe runs exactly when it is due; primary then fallback is an ordered part of the history, stored plus evicted is all of it, evictions come of a full buffer alone, and not degraded means an empty fallback |
| ResilientStorage.Resilient.TryRecover | src/postrule/storage.py:1498-1541 | the drain ends, and recovers exactly when the primary takes every record it is given; then the primary has them all, in order; else each record is still in one of the two stores, in order |
| ResilientStorage.Resilient.DrainSwitch | src/postrule/storage.py:1513-1526 | a record leaves the fallback only after the primary took it |
| ResilientStorage.Resilient.PopFallbackHead | src/postrule/storage.py:1543-1562 | the oldest record of that switch goes, nothing else |
| ResilientStorage.Resilient.Drain | src/postrule/storage.py:1576-1587 | a probe on demand; the count it returns is of all records that ever spilled |
| ResilientStorage.Resilient.LoadRecords | src/postrule/storage.py:1454-1463 | the exact append history without evictions; with them an ordered part of it, short by the evicted |
| Signals.TuplifyUndoesJsonable | src/postrule/signals.py:212-225 | storing and loading brings a value back exactly when it holds no list at any depth |
| Signals.AuditRoundTrip | src/postrule/signals.py:170-194 | a signature survives the audit store exactly when its gate identity is flat and the rest holds no lists |
| Signals.LiveSignaturesSurvive | src/postrule/signals.py:228-256 | every signature of a live switch survives it |
| Signals.SwapIsAChange | src/postrule/signals.py:142-168 | core identities are equal exactly when no component changed, and the gate alone changed exactly when all else is equal |
| Signals.SwapsAreTold | src/postrule/signals.py:228-255 | between two live switches a swap is a new judge, strategy, label set, rule version or gate identity, and nothing else |
| Signals.StrategiesAreTold | src/postrule/signals.py:44-59 | two strategies look alike exactly if class and attributes agree |
| Signals.LabelsAreTold | src/postrule/signals.py:69-87 | two label sets look alike exactly if labels and actions agree |
| Signals.StampsAreKept | src/postrule/signals.py:228-255 | the audit-only stamps are the head's version, if there is a head that has one, and the digest of the rule |
| Signals.ChangedComponents | src/postrule/signals.py:155-168 | the list is empty exactly when there is no swap |
| Signals.GateSwapIsInvisibleIff | src/postrule/signals.py:29-41 | which gate swaps a signature misses: exactly those within one class that agree on the declared alpha and min_paired; margins, volume floors, latencies and inner gates do not show |
| Signals.MarginSwapsAreInvisible | src/postrule/signals.py:29-41 | for two margin gates: a new margin alone never shows |
| Signals.McNemarSwapsAreVisible | src/postrule/signals.py:29-41 | two McNemar gates look alike exactly when alpha and min_paired agree |
| Lifecycle.StepIsLawful | src/postrule/core.py:1976-2012 | one operation keeps phase <= limit, the safety cap and the default gate pinned to its version; only verdicts, batches and advance raise the phase, by one, and only where the gate said yes on that log; an operator's gate is never replaced |
| Lifecycle.AdvanceRaisesIff | src/postrule/core.py:1945-2047 | advance moves exactly when the limit lies above and the gate says yes to the next phase on the whole log: one up, the cooldown restarted, nothing else touched |
| Lifecycle.DemoteIsOneDown | src/postrule/core.py:2059-2109 | a demotion moves one down, restarts the cooldown and touches nothing else |
| Lifecycle.VerdictTouches | src/postrule/core.py:1856-1893 | a verdict adds its record to the log and besides touches the phase and the two counters alone |
| Lifecycle.RowLandsIff | src/postrule/core.py:2220-2242 | a row is recorded exactly if its outcome is a verdict and the storage takes it, with its own fields and no shadow output |
| Lifecycle.RunKeepsInvariant | src/postrule/core.py:525-558 | the same invariant over every run of public calls |
| Lifecycle.SafetyCriticalNeverServesMlPrimary | src/postrule/core.py:1992-2002 | so a safety-critical switch is never at ML_PRIMARY |
| Lifecycle.RowsKeepInvariant | src/postrule/core.py:2220-2242 | inside a batch the phase never rises |
| Lifecycle.SettleDescends | src/postrule/core.py:2784-2828 | the re-justification loop ends at the highest phase, at or below the start, that holds |
| Lifecycle.SettleIsLogged | src/postrule/core.py:2789-2828 | the loop logs one demotion for each phase left behind, from the top down, and a hold exactly if the phase it ends in is held for want of evidence |
| LifecycleRuns.StrictCeiling | src/postrule/gates.py:214-227 | over every run, gates that refuse sidesteps confine a switch below the ceiling of its starting phase |
| LifecycleRuns.DefaultSwitchNeverLeavesRule | src/postrule/defaults.py:37-74 | over every run, a switch that starts at RULE on the library's default gates stays at RULE |
| LifecycleRuns.StrictSwitchNeverLeavesRule | src/postrule/gates.py:239-258 | so does one with a strict gate of the operator's |
| LeavingRule.SidestepIff | src/postrule/gates.py:214-227 | over every gate the library can build: a step between two phases that read one output happens on some log exactly if the gate accepts ties |
| LeavingRule.LeavesRuleIff | src/postrule/core.py:1945-2047 | over all runs of public calls, a switch at RULE can reach MODEL_SHADOW exactly if its limit allows it and its gate, or for a default-managed switch some default set it may migrate to, accepts ties |
| Hysteresis.OneVerdictOneStep | src/postrule/core.py:1856-1893 | a verdict moves the phase by at most one, and a move restarts both counters |
| Hysteresis.AutomaticChangeIff | src/postrule/core.py:1856-1893 | exactly when a verdict demotes and when it advances, drift first |
| Hysteresis.VerdictCounts | src/postrule/core.py:1856-1893 | exactly what a verdict does to the two counters |
| Hysteresis.FirstCheck | src/postrule/core.py:1856-1893 | over every run of verdicts, the automation first acts at the first verdict that finds both counters at their thresholds; before it nothing moves, and at it the phase falls exactly if the drift gate fires and else rises exactly if advance would |
| Hysteresis.ChangeRestartsCooldown | src/postrule/core.py:424-429 | every operation but a batch that changes the phase, be it a verdict, an advance, a demotion, a reconciliation or a migration, restarts the cooldown |
| Hysteresis.CooldownHolds | src/postrule/core.py:424-429 | after any operation changed the phase, and over any run of operations, a verdict changes nothing until phase_cooldown_records verdicts are counted |
| Hysteresis.QuietWhileCooling | src/postrule/core.py:1866-1873 | the same from any state, by the value of its cooldown counter |
| Hysteresis.AutomaticChangesAreSpaced | src/postrule/core.py:1856-1893 | in any run of operations, a verdict that changes the phase comes a cooldown of verdicts after the last change, and an interval after the last change by a verdict |
| Hysteresis.RowsObeyCooldown | src/postrule/core.py:2220-2242 | the rows of a batch obey the cooldown |
| Hysteresis.ProbeIgnoresCooldown | src/postrule/core.py:2243-2256 | the probe at its end does not: one recorded row advances right after a change if the gate says yes |
| Drift.NoDemotionOnTheAdvancingLog | src/postrule/core.py:1895-1919 | right after the advance to MODEL_PRIMARY the strict drift gate does not fire |
| Drift.BuiltRecordFeedsDriftIff | src/postrule/core.py:1737-1807 | a recorded verdict is a point for the rule exactly when the decision was correct, was what the rule said, and the layer said something else on the classification |
| Drift.WinsAreFeeding | src/postrule/gates.py:186-211 | over a log the drift comparison counts exactly those records for the rule, and exactly the countering ones against it |
| Drift.StrictDriftIff | src/postrule/core.py:1895-1919 | some strict drift gate fires on a log exactly when the layer does not read the rule's output and more records feed the drift test than counter it |
| Drift.OnlyFeedingRecordsMatter | src/postrule/core.py:1895-1919 | no strict drift gate fires without a feeding record, and the keenest one fires on a single record exactly when it feeds |
| Drift.OwnDecisionsHideDrift | src/postrule/core.py:1895-1919 | hence none fires on a log of the layer's own decisions |
| BulkLoading.StrictIgnoresDirectVerdicts | src/postrule/core.py:1727-1760 | direct verdicts never change what a strict gate says, on any log |
| BulkLoading.BulkLands | src/postrule/core.py:2199-2257 | whatever the phase does, the recorded rows are logged in order, auto_advance is as before, a probe restarts the interval, and a batch that records nothing changes nothing |
| BulkLoading.BulkRaisesIff | src/postrule/core.py:2199-2257 | on any log, with strict gates, a batch raises the phase exactly if the gate said yes before it, the automatic probe is on and a row was recorded, and no drift alarm that stood before falls due inside it |
| BulkLoading.AnyGateBulkRaisesIff | src/postrule/core.py:2199-2257 | without automatic demotion, for every gate: exactly if it says yes to the log with the rows on it |
| BulkLoading.BulkLoadNeverGraduates | src/postrule/core.py:2199-2257 | on a log of nothing but direct verdicts a strict gate never raises the phase, however many rows are preloaded |
| BulkLoading.TieGateGraduates | src/postrule/core.py:2199-2257 | one row the rule got right takes a switch with a tie-accepting gate out of RULE |
| Reconciliation.ReconciledPhase | src/postrule/core.py:2679-2859 | reconciliation never raises the phase, leaves it alone without a re-grading swap (flag mode, default drift), and otherwise ends at the highest phase that holds |
| Reconciliation.ReconcileIsIdempotent | src/postrule/core.py:2679-2689 | a second call, at any later time, changes nothing |
| Reconciliation.SilentIffInSync | src/postrule/core.py:2690-2768 | a call changes nothing exactly when the stored signature agrees with the present one |
| Reconciliation.NoSpuriousSwaps | src/postrule/core.py:2679-2859 | after one call, no run of other operations makes a later call do anything unless the switch is rewired |
| Reconciliation.GateSwapGoesUnnoticedIff | src/postrule/core.py:2679-2859 | an exchanged operator's gate leaves reconciliation with nothing to do exactly if the two gates look alike |
| Reconciliation.PhaseAwareSwapGoesUnnoticed | src/postrule/core.py:2679-2859 | one phase-aware gate for another goes unnoticed, whatever the gates inside |
| Rejustification.HoldsIff | src/postrule/core.py:2784-2812 | for every gate, custom ones included: short of a yes or an exception a phase above RULE holds exactly if the gate declares a min_paired above the sample it reports, so never for a gate that declares none |
| Rejustification.PairsDecideHold | src/postrule/core.py:2800-2819 | for the three gates that count pairs a phase holds exactly if the window has too few pairs for the gate or the gate says yes |
| Rejustification.UndeclaredDropsToRule | src/postrule/core.py:2789-2828 | under any gate that declares none, a phase the evidence does not carry ends at RULE |
| Rejustification.DeclaresIff | src/postrule/gates.py:284-285 | of the library's gates exactly the three that count pairs declare one |
| Rejustification.ThinEvidenceHoldsIff | src/postrule/core.py:2784-2812 | over every gate the library can build, thin evidence holds a phase, and keeps it settled, exactly if the gate is one of the three that count pairs |
| Rejustification.ThinWindowSettles | src/postrule/core.py:2789-2828 | over a window thin at every step those three keep the phase and every other library gate drops it to RULE |
| Rejustification.ShortWindowSplitsTheDefaults | src/postrule/defaults.py:37-74 | with fewer recent records than min_paired the v1 default keeps every phase and the v2 default drops every phase to RULE |
| Rejustification.VolumeFloorDropsToRule | src/postrule/gates.py:825-867 | the default gate wrapped in a volume floor drops every phase to RULE on such a window |
| Rejustification.EmptyWindowDropsPhaseAware | src/postrule/core.py:2784-2812 | the plainest such input, an empty window |
| Reconciliation.WindowIsRecent | src/postrule/core.py:2581-2594 | on a log in time order the window is a suffix within both limits, and every record left out is too old or one too many |
| Reconciliation.StaleHeadsAreDropped | src/postrule/core.py:2830-2857 | a stored or selected head is dropped exactly when the judge, the strategy or the labels changed; an explicit head stays |
| Reconciliation.SwapIsLogged | src/postrule/core.py:2770-2859 | what a swap leaves in the ledger, entry by entry |
| Reconciliation.AdoptedOrPinned | src/postrule/core.py:2679-2768 | the first signature is adopted and a moved default pinned with one entry each and phase, counters and head left alone |
| Reconciliation.MigrationOutcomes | src/postrule/core.py:2868-2960 | the outcomes of a migration: an earned phase is kept and the new set adopted; an unearned one is reset to RULE with the set adopted, or kept with nothing but a ledger entry, as the operator asks; and nothing at all changes exactly when the new gate raises |
| Reconciliation.LibraryMigrationKeepsIff | src/postrule/core.py:2868-2960 | for default sets of library gates an accepted migration keeps the phase exactly if it is RULE or the new gate says yes to it on the window |
| Reconciliation.RestartRestoresDefaults | src/postrule/core.py:2738-2768 | after a restart with the same wiring reconciliation restores the pinned default set and its gate from the stored signature, whatever it is, and keeps the phase |
| Reconciliation.RestartKeepsPinIff | src/postrule/core.py:2738-2859 | after a restart with any wiring the pin survives exactly when it is the current version or nothing but the version differs; otherwise the switch is on the current defaults |
| Reconciliation.NewJudgeLosesPin | src/postrule/core.py:2770-2859 | a switch on v2 that restarts with another judge comes back on v1 |
| Reconciliation.RetrainsAreNotSwaps | src/postrule/signals.py:142-153 | over any run whose rewirings change no more than the head and the rule's digest, a reconciliation changes neither phase, gate, head nor counters and writes at most an advisory |
| Cascade.FirstUsableIsFirst | src/postrule/core.py:1556-1604 | the chosen tier is usable and every tier before it is not; none is chosen exactly when none is usable |
| Cascade.ShadowsHaveNoSay | src/postrule/core.py:1471-1554 | the decision depends on the rule and the active tiers alone |
| Cascade.ShadowPhases | src/postrule/core.py:1471-1554 | the model in MODEL_SHADOW and the head in ML_SHADOW cannot change the decision |
| Cascade.HigherBarFallsBack | src/postrule/core.py:1556-1604 | a higher threshold never moves the decision to a more trusted tier |
| Cascade.OnlyUsableLabelsAreServed | src/postrule/core.py:593-610 | what is served is the rule's output or a usable answer of an active tier, never a tier's blank label |
| Cascade.HeadDecidesIff | src/postrule/core.py:1556-1640 | the head decides exactly in the two top phases when it says something real, and in ML_WITH_FALLBACK surely enough; what is served is then its label |
| Cascade.ModelDecidesIff | src/postrule/core.py:1645-1705 | the model decides exactly from MODEL_PRIMARY to ML_WITH_FALLBACK when the head does not and it says something real and sure enough |
| Cascade.RuleDecidesIff | src/postrule/core.py:1471-1640 | else the rule does, under its own name exactly when no tier that could decide is configured |
| Cascade.Clamp | src/postrule/core.py:613-630 | a confidence ends up in [0, 1] and is kept if it was there |
| Cascade.BreakerIsOpenSinceAFailure | src/postrule/core.py:1606-1624 | over every history, the breaker is open exactly when a failure (or the start) opened it and no reset came since |
| Cascade.HeadServesIff | src/postrule/core.py:1606-1640 | at ML_PRIMARY the head is called exactly with the breaker closed, served exactly if it is called and says something real, and opens the breaker exactly if it raises |
| Cascade.OpenBreakerServesTheRule | src/postrule/core.py:1606-1624 | from a failure until the next reset every decision is the rule's and the head is not called |
| LearnedSwitch.PostInit | src/postrule/core.py:509-557 | a configuration is accepted exactly when the start is within the limit and the safety cap and the rates are in range; the cap is applied to the limit, and an explicit start beats the old spelling |
| LearnedSwitch.Switch.constructor | src/postrule/core.py:939-955 | a new switch satisfies the lifecycle invariant; without a gate it is pinned to the current default set |
| LearnedSwitch.Switch.Advance | src/postrule/core.py:1945-2047 | the phase rises by one exactly when the limit, the safety cap and a yes of the gate on the whole log allow it; the cooldown restarts with it and nothing else changes, also when the gate raises |
| LearnedSwitch.Switch.Demote | src/postrule/core.py:2059-2109 | one phase down with the cooldown restarted, or nothing at RULE; a blank reason is refused and changes nothing |
| LearnedSwitch.Switch.MaybeAutoDemote | src/postrule/core.py:1895-1919 | demotes exactly when the drift gate prefers the rule |
| LearnedSwitch.Switch.RecordVerdict | src/postrule/core.py:1707-1893 | an unknown outcome or a refused record changes nothing; otherwise the record, with what every tier said on the classification, adjudicated, joins the log and the due checks run, with the state Hysteresis reasons about |
| LearnedSwitch.Switch.BulkRecordVerdicts | src/postrule/core.py:2199-2257 | failed rows are absorbed and counted, no advance happens inside the batch, at most one probe runs at its end, and auto_advance is as before |
| LearnedSwitch.Switch.ReconcileSignals | src/postrule/core.py:2679-2859 | every branch and the loop compute the state whose idempotence, phase and head the Reconciliation lemmas are about |
| LearnedSwitch.Switch.Descend | src/postrule/core.py:2789-2828 | the loop ends, in the settled phase, with exactly the ledger entries of its rounds |
| LearnedSwitch.Switch.MigrateDefaults | src/postrule/core.py:2868-2960 | it reports success exactly when the switch is on the requested version, raises exactly when the new gate does, and leaves the state MigrationOutcomes describes |
| LearnedSwitch.Switch.Classify | src/postrule/core.py:1427-1643 | refuses exactly when a tier is missing or the rule floor is gone, and says which; otherwise decides as the cascade does, at ML_PRIMARY serving the head exactly when the breaker is closed and it says something real, calls exactly the tiers it should, and reports their labels and confidences, each clamped or raw as its phase has it |
| LearnedSwitch.WhoIsAsked | src/postrule/core.py:1471-1640 | exactly which tiers are called in each phase |
| LearnedSwitch.ConfidencesAreTheTiers | src/postrule/core.py:1655-1670 | confidences in range are reported and seen as the tiers gave them, and the rule is sure |
| LearnedSwitch.ConfidenceInRangeIff | src/postrule/core.py:1655-1670 | the reported confidence leaves [0, 1] exactly in ML_SHADOW, or in ML_WITH_FALLBACK without a usable head, when the model is usable with a confidence outside that range |
| LearnedSwitch.OverconfidentModel | src/postrule/core.py:1537-1554 | in ML_SHADOW with a threshold of one half, a model that is 1.5 sure is reported as 1.5 sure |
| LearnedSwitch.Switch.PrimaryDecision | src/postrule/core.py:1645-1705 | the cascade of the model and the rule |
| LearnedSwitch.Switch.WithFallback | src/postrule/core.py:1556-1604 | the cascade of the head, the model and the rule |
| LearnedSwitch.Switch.AtMlPrimary | src/postrule/core.py:1606-1640 | the head alone, behind the breaker: served exactly if the breaker is closed and it says something real, else the rule |
| LearnedSwitch.Switch.ResetCircuitBreaker | src/postrule/core.py:2404-2420 | the breaker is closed |
| LearnedSwitch.ServedAnswersHideDrift | src/postrule/core.py:1761-1788 | a verdict on the layer's own answer leaves nothing for the drift gate |
| ToolSchema.CoercionIsIdempotent | src/postrule/tool_schema.py:52-72 | the result is free of pointers, anyOf and unsupported keys at every depth, and coercing it again returns it |
| ToolSchema.ResolveLeavesNoPointers | src/postrule/tool_schema.py:93-110 | inlining ends on cyclic definitions and leaves no string-valued $ref |
| ToolSchema.InliningMeans | src/postrule/tool_schema.py:93-110 | what inlining gives: pointers are followed from definition to definition until one is unknown or was expanded before; each key comes from the first object on the way that has it, inlined in its turn |
| ToolSchema.PointerIsReplaced | src/postrule/tool_schema.py:98-104 | a pointer to a known definition of pointer-free parts is replaced by the definition, its siblings winning |
| ToolSchema.DanglingPointerIsDropped | src/postrule/tool_schema.py:105-106 | a foreign, unknown or repeated pointer is dropped and its siblings stay |
| ToolSchema.DefinitionsWin | src/postrule/tool_schema.py:75-82 | the lookup table holds the members of both sections, "definitions" winning |
| ToolSchema.PointersName | src/postrule/tool_schema.py:85-90 | a pointer names what follows either prefix |
| ToolSchema.ReferenceIsInlined | src/postrule/tool_schema.py:52-72 | a tool with one parameter that refers to a definition of any accepted type comes back with the parameter of that type |
| ToolSchema.CoerceIsAccepted | src/postrule/tool_schema.py:113-133 | stripping and collapsing lands in the accepted dialect |
| ToolSchema.CoerceStrips | src/postrule/tool_schema.py:113-132 | without an anyOf the unsupported keys go and every other field is coerced in its place |
| ToolSchema.AnyOfMeans | src/postrule/tool_schema.py:117-130 | with one the object gets the keys of the first variant that is not the null type, its own fields winning, and is nullable if a variant was the null type |
| ToolSchema.OptionalBecomesNullable | src/postrule/tool_schema.py:117-130 | an Optional of any accepted type becomes that type, the wrapper's keys on top, and nullable |
| ToolSchema.WellShapedNeverRaises | src/postrule/tool_schema.py:113-133 | schemas whose anyOfs list objects and whose definitions are objects are always coerced |
| ToolSchema.ParametersKept | src/postrule/tool_schema.py:52-72 | whatever a schema refers to, the parameters that come through a successful coercion are exactly those not called by a reserved word or "anyOf", each as the coercion of its own inlined schema |
| ToolSchema.ParameterCalledAnyOf | src/postrule/tool_schema.py:113-127 | a schema that coerces without its parameter "anyOf" coerces with it exactly when that parameter's own schema coerces to something falsy; otherwise the call raises |
| ToolSchema.VanishesIff | src/postrule/tool_schema.py:113-127 | which schemas those are: false, and objects of reserved keys whose anyOf, if any, contributes no key |
| ToolSchema.NamesOfKeys | src/postrule/tool_schema.py:34-47 | which keys some names are, for the inputs below |
| ToolSchema.KeysAreNames | src/postrule/tool_schema.py:32-47 | keys stand for names one to one, the reserved words among them |
| ToolSchema.TitleIsLost | src/postrule/tool_schema.py:52-72 | a tool with the parameters "title" and "unit" of any accepted type keeps "unit" alone |
| ToolSchema.AnyOfRaises | src/postrule/tool_schema.py:52-72 | a tool with a parameter "anyOf" of any non-empty accepted type is not coerced at all |
| Escalation.CalibrateThreshold | src/postrule/escalation.py:93-138 | the errors; an observed confidence that meets the floor and that no real threshold keeping more examples does; or, exactly when no real threshold meets it, a value that escalates every example |
| Escalation.EveryCutIsACandidate | src/postrule/escalation.py:124-134 | every real threshold that keeps anything cuts where an observed confidence does |
| Escalation.WhenTheGateAcceptsIt | src/postrule/escalation.py:65-73 | ConfidenceGate accepts the result exactly when the floor is met or the greatest confidence leaves room above it |
| Escalation.ConfidentAndWrong | src/postrule/escalation.py:137-138 | one certain and wrong example gives a threshold no gate accepts |
| Refresh.ParseUndoesFormat | src/postrule/refresh.py:89-188 | parsing a printed header gives its fields back, whatever stands below it |
| Refresh.ParsedIsWellFormed | src/postrule/refresh.py:136-188 | a text is read as generated only if its first line says so, and what is read is a header that could have been printed |
| Refresh.ReprintedHeaderIsTheSame | src/postrule/refresh.py:89-188 | printing what was read and reading it again gives the same header |
| Refresh.SplitHeaderAndBody | src/postrule/refresh.py:217-233 | the header is the longest run of comment lines and the body is the rest |
| Refresh.BodyIsWholeIff | src/postrule/refresh.py:217-233 | splitting returns a body whole exactly when it does not open with a comment |
| Refresh.DriftIff | src/postrule/refresh.py:236-267 | exactly when each status is reported, and when the call raises |
| Refresh.DriftBelowHeader | src/postrule/refresh.py:236-267 | what is said of any text below a printed header: edited exactly when its body's hash is another, then source drift exactly when the source's is, else up to date |
| Refresh.FreshFileIsUpToDateIff | src/postrule/refresh.py:110-133 | a file just written is up to date exactly when its content does not open with a comment |
| Refresh.EditIsReportedIff | src/postrule/refresh.py:236-267 | which texts below a written header are reported as edited, under an injective hash: all but those that are the written body under any number of comment lines, and all of them if the content opened with a comment |
| Refresh.EditsAreDetected | src/postrule/refresh.py:236-267 | so any other body that does not open with a comment is reported |
| Refresh.InsertedCommentIsMissed | src/postrule/refresh.py:217-233 | a comment line put right under the header by hand is not: the file is up to date |
| Packing.Pack | src/postrule/_packing.py:60-108 | the outcome, each error with its condition |
| Packing.Unpack | src/postrule/_packing.py:110-128 | the call that lists the fields in order |
| Packing.PackUndoesUnpack | src/postrule/_packing.py:110-113 | packing what unpack returns gives the packed value back |
| Packing.ArgumentsAreConserved | src/postrule/_packing.py:60-108 | every positional and keyword argument is bound exactly once, and nothing else is but defaults |
| Packing.PackSucceedsIff | src/postrule/_packing.py:60-108 | when pack succeeds, in terms of the call |
| Packing.PackAgreesWithPythonIff | src/postrule/_packing.py:60-108 | pack and Python agree on a call except exactly when a parameter given twice is its only fault and the function has **kwargs; then pack succeeds and Python raises |
| Packing.DoublyGivenParameterSlips | src/postrule/_packing.py:101-108 | f(1, 2, a=3) packs for f(a, b, **kw) |
| Packing.RepackedCallIsEquallyCallable | src/postrule/_packing.py:110-113 | the unpacked call is one Python accepts exactly when it accepted the original |

## Left out

- Gates.McNemarGateContract: says nothing about more than 50 discordant rows, where the gate uses a normal approximation; that branch is an arbitrary function of |b - c| and b + c here.
- McNemar.RepeatedLooks: bounds the looks by their number; no bound independent of it is stated.
- Evidence.BuiltRecordsAreTruthful: takes the judge as a function of input and label, so a judge that changes its mind between calls is left out.
- White space is the ASCII kind wherever a string may be blank.
- BatchedWrites.BatchedFileStorage.LoadRecords: rotation and its retention are modelled in FileStorage and ignored here; drains are serialized, while the program lets a flusher and a reader overlap.
- FileStorage.FileLog.LoadRecords: assumes whole-line writes without I/O faults; locks, cached descriptors, redaction and corrupt lines are left out, and the sweep beyond retention stops at the one file that can exist.
- ResilientStorage.Resilient.LoadRecords: a primary that cannot be read is left out (the program then returns the fallback alone), as are the hooks.
- Lifecycle.RunKeepsInvariant: rollback and uninstall are left out; they restore the version but not the gate. Log retention and the raising of log reads are left out too: the log is the whole append history.
- Reconciliation.ReconcileIsIdempotent: the state store is reliable here; in the program its faults are swallowed.
- Lifecycle.StepIsLawful: what an advance saves of a trained head, lazy head selection and refits are one operation that rewires the switch arbitrarily.
- LearnedSwitch.Switch.Classify: confidences are numbers; one that cannot be converted, NaN, a rule that raises, dispatch actions, verification on the hot path and telemetry are left out.
- Hysteresis.AutomaticChangesAreSpaced: is about changes that single verdicts make; the probe at the end of a batch ignores both counters, so there is no spacing to state for it.
- Harness.Tournament.Evaluate: the `reason` text, per-pair reports, accuracies and the promotion callback are left out.
- ToolSchema.CoercionIsIdempotent: dictionary order is left out, and the one supported target is assumed.
- Refresh.ParseUndoesFormat: digits, letters and white space are the ASCII ones; every ValueError is one outcome; hashes are functions, injective where a lemma says so.
- Packing.PackUndoesUnpack: the single-parameter passthrough and keyword-only and positional-only parameters are left out.
- Gates.DefaultsSayYesIff: a default set registered under the empty name, which a missing version would then resolve to, and registered sets without a gate are left out.
- Networked adapters, webhooks, human review, media and scikit-learn heads: opaque I/O and libraries.
- SqliteStorage, PostgresStorage and file locking: foreign systems.
- A composite reports the sample size of its first part with a positive one; a part with a statistic but no sample, which no library gate returns, is left out.
- ShadowUnderperformanceGate decides when a shadow is retrained and judge committees decide what a verdict is; neither moves a phase.
- Locks and concurrent callers of one switch: operations are atomic here.
