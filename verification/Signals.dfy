/** Signal signatures: what a phase was earned against, and how it survives the audit store. */
module Signals {
  import opened Evidence
  import opened Gates

  /** The Python values identities are made of. */
  datatype PyValue = Nil | Str(s: string) | Num(n: real) | Tuple(items: seq<PyValue>) | List(items: seq<PyValue>)

  /** _jsonable, which is also what json.dumps and json.loads do to a value: tuples come back as lists. */
  function Jsonable(v: PyValue): PyValue {
    match v
    case Tuple(items) => List(JsonableAll(items))
    case List(items) => List(JsonableAll(items))
    case _ => v
  }

  function JsonableAll(items: seq<PyValue>): (r: seq<PyValue>)
    ensures |r| == |items| && forall i :: 0 <= i < |items| ==> r[i] == Jsonable(items[i])
  {
    if items == [] then [] else [Jsonable(items[0])] + JsonableAll(items[1..])
  }

  /** _tuplify */
  function Tuplify(v: PyValue): PyValue {
    if v.List? then Tuple(TuplifyAll(v.items)) else v
  }

  function TuplifyAll(items: seq<PyValue>): (r: seq<PyValue>)
    ensures |r| == |items| && forall i :: 0 <= i < |items| ==> r[i] == Tuplify(items[i])
  {
    if items == [] then [] else [Tuplify(items[0])] + TuplifyAll(items[1..])
  }

  predicate NoLists(v: PyValue) {
    match v
    case Tuple(items) => forall i | 0 <= i < |items| :: NoLists(items[i])
    case List(_) => false
    case _ => true
  }

  /** Storing and re-tupling brings a value back exactly when it holds no list at any depth. */
  lemma {:induction false} TuplifyUndoesJsonable(v: PyValue)
    ensures Tuplify(Jsonable(v)) == v <==> NoLists(v)
  {
    if v.Tuple? {
      forall i | 0 <= i < |v.items| ensures Tuplify(Jsonable(v.items[i])) == v.items[i] <==> NoLists(v.items[i]) {
        TuplifyUndoesJsonable(v.items[i]);
      }
      var back := TuplifyAll(JsonableAll(v.items));
      assert back == v.items <==> forall i :: 0 <= i < |v.items| ==> back[i] == v.items[i];
    }
  }

  // ---------------------------------------------------------------------------
  // Signatures
  // ---------------------------------------------------------------------------

  datatype Signature = Signature(
    judge: Option<string>,
    gate: seq<PyValue>,
    strategy: Option<PyValue>,
    headVersion: Option<string>,
    labels: Option<PyValue>,
    ruleVersion: Option<string>,
    ruleDigest: Option<string>)

  datatype Component = JudgeChanged | GateChanged | StrategyChanged | LabelsChanged | RuleChanged

  /** core_identity leaves out the head version and the rule digest. */
  predicate SameCore(a: Signature, b: Signature) {
    a.judge == b.judge && a.gate == b.gate && a.strategy == b.strategy && a.labels == b.labels
    && a.ruleVersion == b.ruleVersion
  }

  /** The components marked, in the order of the signature's fields. */
  function Listed(judge: bool, gate: bool, strategy: bool, labels: bool, rule: bool): seq<Component> {
    (if judge then [JudgeChanged] else [])
    + (if gate then [GateChanged] else [])
    + (if strategy then [StrategyChanged] else [])
    + (if labels then [LabelsChanged] else [])
    + (if rule then [RuleChanged] else [])
  }

  lemma ListedHas(judge: bool, gate: bool, strategy: bool, labels: bool, rule: bool)
    ensures var l := Listed(judge, gate, strategy, labels, rule);
            && (JudgeChanged in l <==> judge) && (GateChanged in l <==> gate) && (StrategyChanged in l <==> strategy)
            && (LabelsChanged in l <==> labels) && (RuleChanged in l <==> rule)
            && (l == [] <==> !judge && !gate && !strategy && !labels && !rule)
            && (l == [GateChanged] <==> gate && !judge && !strategy && !labels && !rule)
  {
  }

  /** changed_components */
  function Changed(a: Signature, b: Signature): seq<Component> {
    Listed(a.judge != b.judge, a.gate != b.gate, a.strategy != b.strategy, a.labels != b.labels, a.ruleVersion != b.ruleVersion)
  }

  method ChangedComponents(a: Signature, b: Signature) returns (changed: seq<Component>)
    ensures changed == Changed(a, b)
    ensures changed == [] <==> SameCore(a, b)
  {
    var judge, gate, strategy := a.judge != b.judge, a.gate != b.gate, a.strategy != b.strategy;
    changed := [];
    if judge { changed := changed + [JudgeChanged]; }
    assert changed == Listed(judge, false, false, false, false);
    if gate { changed := changed + [GateChanged]; }
    assert changed == Listed(judge, gate, false, false, false);
    if strategy { changed := changed + [StrategyChanged]; }
    assert changed == Listed(judge, gate, strategy, false, false);
    if a.labels != b.labels { changed := changed + [LabelsChanged]; }
    assert changed == Listed(judge, gate, strategy, a.labels != b.labels, false);
    if a.ruleVersion != b.ruleVersion { changed := changed + [RuleChanged]; }
    SwapIsAChange(a, b);
  }

  lemma SwapIsAChange(a: Signature, b: Signature)
    ensures SameCore(a, b) <==> Changed(a, b) == []
    ensures Changed(a, b) == [GateChanged] <==> SameCore(a.(gate := b.gate), b) && a.gate != b.gate
  {
    ListedHas(a.judge != b.judge, a.gate != b.gate, a.strategy != b.strategy, a.labels != b.labels, a.ruleVersion != b.ruleVersion);
  }

  function StoredOption(v: Option<PyValue>): Option<PyValue> {
    if v.Some? then Some(Jsonable(v.value)) else None
  }

  function LoadedOption(v: Option<PyValue>): Option<PyValue> {
    if v.Some? then Some(Tuplify(v.value)) else None
  }

  /** to_audit, then JSON. */
  function ToAudit(s: Signature): Signature {
    s.(gate := JsonableAll(s.gate), strategy := StoredOption(s.strategy), labels := StoredOption(s.labels))
  }

  /** from_audit: only the top level of the gate identity is a tuple again. */
  function FromAudit(s: Signature): Signature {
    s.(strategy := LoadedOption(s.strategy), labels := LoadedOption(s.labels))
  }

  /** JSON leaves every component as it is: no tuples inside. */
  predicate Flat(items: seq<PyValue>) {
    forall i | 0 <= i < |items| :: Jsonable(items[i]) == items[i]
  }

  predicate Storable(s: Signature) {
    && Flat(s.gate)
    && (s.strategy.Some? ==> NoLists(s.strategy.value))
    && (s.labels.Some? ==> NoLists(s.labels.value))
  }

  /** A signature survives the audit store exactly when its gate identity is flat and the others hold no lists. */
  lemma AuditRoundTrip(s: Signature)
    ensures FromAudit(ToAudit(s)) == s <==> Storable(s)
  {
    assert JsonableAll(s.gate) == s.gate <==> Flat(s.gate);
    if s.strategy.Some? { TuplifyUndoesJsonable(s.strategy.value); }
    if s.labels.Some? { TuplifyUndoesJsonable(s.labels.value); }
  }

  // ---------------------------------------------------------------------------
  // Gate identities
  // ---------------------------------------------------------------------------

  function OptionalNum(n: Option<real>): PyValue {
    if n.Some? then Num(n.value) else Nil
  }

  function ClassName(gate: Gate): string {
    match gate
    case McNemarGate(_, _, _) => "McNemarGate"
    case AccuracyMarginGate(_, _) => "AccuracyMarginGate"
    case CostToleranceGate(_, _) => "CostToleranceGate"
    case ManualGate => "ManualGate"
    case PhaseAwareGate(_, _) => "PhaseAwareGate"
    case MinVolumeGate(_, _) => "MinVolumeGate"
    case LatencyGate(_, _) => "LatencyGate"
    case CompositeGate(_, _) => "CompositeGate"
    case CustomGate(name, _, _, _) => name
  }

  /** _gate_identity: class name, alpha and min_paired, where the gate declares them. */
  function GateIdentity(gate: Gate): seq<PyValue> {
    var alpha := match gate
      case McNemarGate(alpha, _, _) => Some(alpha)
      case CustomGate(_, alpha, _, _) => alpha
      case _ => None;
    var minPaired := match gate
      case McNemarGate(_, n, _) => Some(n as real)
      case AccuracyMarginGate(_, n) => Some(n as real)
      case CostToleranceGate(_, n) => Some(n as real)
      case CustomGate(_, _, n, _) => if n.Some? then Some(n.value as real) else None
      case _ => None;
    [Str(ClassName(gate)), OptionalNum(alpha), OptionalNum(minPaired)]
  }

  function DefaultIdentity(version: Option<string>): seq<PyValue> {
    [Str("__default__"), if version.Some? then Str(version.value) else Nil]
  }

  predicate IsDefaultIdentity(gate: seq<PyValue>) {
    gate != [] && gate[0] == Str("__default__")
  }

  lemma GateIdentitiesAreFlat(gate: Gate, version: Option<string>)
    ensures Flat(GateIdentity(gate)) && Flat(DefaultIdentity(version))
  {
  }

  /** Two gates a signature cannot tell apart. */
  ghost predicate LookAlike(a: Gate, b: Gate) {
    match a
    case McNemarGate(alpha, minPaired, _) => b.McNemarGate? && b.alpha == alpha && b.minPaired == minPaired
    case AccuracyMarginGate(_, minPaired) => b.AccuracyMarginGate? && b.minPaired == minPaired
    case CostToleranceGate(_, minPaired) => b.CostToleranceGate? && b.minPaired == minPaired
    case ManualGate => b.ManualGate?
    case PhaseAwareGate(_, _) => b.PhaseAwareGate?
    case MinVolumeGate(_, _) => b.MinVolumeGate?
    case LatencyGate(_, _) => b.LatencyGate?
    case CompositeGate(_, _) => b.CompositeGate?
    case CustomGate(name, alpha, minPaired, _) =>
      b.CustomGate? && b.name == name && b.declaredAlpha == alpha && b.declaredMinPaired == minPaired
  }

  /** The length and the first letter of a library class's name, which tell the classes apart. */
  function Shape(gate: Gate): (nat, char)
    requires !gate.CustomGate?
  {
    match gate
    case McNemarGate(_, _, _) => (11, 'M')
    case AccuracyMarginGate(_, _) => (18, 'A')
    case CostToleranceGate(_, _) => (17, 'C')
    case ManualGate => (10, 'M')
    case PhaseAwareGate(_, _) => (14, 'P')
    case MinVolumeGate(_, _) => (13, 'M')
    case LatencyGate(_, _) => (11, 'L')
    case CompositeGate(_, _) => (13, 'C')
  }

  lemma ClassNameShape(gate: Gate)
    requires !gate.CustomGate?
    ensures |ClassName(gate)| == Shape(gate).0 && ClassName(gate)[0] == Shape(gate).1
  {
  }

  lemma IdentityParts(a: Gate, b: Gate)
    ensures GateIdentity(a) == GateIdentity(b)
            <==> ClassName(a) == ClassName(b) && GateIdentity(a)[1] == GateIdentity(b)[1] && GateIdentity(a)[2] == GateIdentity(b)[2]
  {
    assert GateIdentity(a)[0] == Str(ClassName(a)) && GateIdentity(b)[0] == Str(ClassName(b));
  }

  /**
   Which gate swaps a signature misses: exactly those between gates of one class that agree on the
   alpha and min_paired they declare.  Margins, volume floors, latencies and inner gates do not show.
   */
  lemma GateSwapIsInvisibleIff(a: Gate, b: Gate)
    requires a.CustomGate? <==> b.CustomGate?
    ensures GateIdentity(a) == GateIdentity(b) <==> LookAlike(a, b)
  {
    IdentityParts(a, b);
    if !a.CustomGate? {
      ClassNameShape(a);
      ClassNameShape(b);
    }
  }

  /** A new margin is invisible, whatever it lets through. */
  lemma MarginSwapsAreInvisible(m: real, m': real, n: int, n': int)
    ensures GateIdentity(AccuracyMarginGate(m, n)) == GateIdentity(AccuracyMarginGate(m', n')) <==> n == n'
    ensures GateIdentity(CostToleranceGate(m, n)) == GateIdentity(CostToleranceGate(m', n')) <==> n == n'
    ensures GateIdentity(AccuracyMarginGate(m, n)) != GateIdentity(CostToleranceGate(m', n'))
  {
    var a, a' := GateIdentity(AccuracyMarginGate(m, n)), GateIdentity(AccuracyMarginGate(m', n'));
    var c, c' := GateIdentity(CostToleranceGate(m, n)), GateIdentity(CostToleranceGate(m', n'));
    assert a[2] == Num(n as real) && a'[2] == Num(n' as real) && c[2] == a[2] && c'[2] == a'[2];
    assert "AccuracyMarginGate"[0] != "CostToleranceGate"[0];
    assert a[0] != c'[0];
  }

  /** Two McNemar gates are told apart by both of their parameters. */
  lemma McNemarSwapsAreVisible(a: Gate, b: Gate)
    requires a.McNemarGate? && b.McNemarGate?
    ensures GateIdentity(a) == GateIdentity(b) <==> a.alpha == b.alpha && a.minPaired == b.minPaired
  {
    assert GateIdentity(a)[1] == Num(a.alpha) && GateIdentity(a)[2] == Num(a.minPaired as real);
    assert GateIdentity(b)[1] == Num(b.alpha) && GateIdentity(b)[2] == Num(b.minPaired as real);
  }

  // ---------------------------------------------------------------------------
  // The signature of a live switch
  // ---------------------------------------------------------------------------

  datatype Scalar = NoneValue | Words(s: string) | Number(n: real)

  /** A head strategy: its class and its scalar attributes, sorted by name. */
  datatype Strategy = Strategy(name: string, attributes: seq<(string, Scalar)>)

  /** A label: its name and the repr of its action, if any. */
  datatype LabelSpec = LabelSpec(name: string, action: Option<string>)

  /** What a switch is wired to; the labels are listed in sorted order. */
  datatype Wiring = Wiring(judge: Option<string>, strategy: Option<Strategy>, labels: seq<LabelSpec>,
                           ruleVersion: Option<string>, ruleDigest: Option<string>)

  datatype Head = NoHead | Head(version: Option<string>)

  function ScalarIdentity(v: Scalar): PyValue {
    match v
    case NoneValue => Nil
    case Words(s) => Str(s)
    case Number(n) => Num(n)
  }

  function StrategyIdentity(s: Strategy): (v: PyValue)
    ensures NoLists(v)
  {
    var attributes := Tuple(seq(|s.attributes|, i requires 0 <= i < |s.attributes| =>
      Tuple([Str(s.attributes[i].0), ScalarIdentity(s.attributes[i].1)])));
    assert NoLists(attributes);
    Tuple([Str(s.name), attributes])
  }

  function LabelsIdentity(labels: seq<LabelSpec>): (v: PyValue)
    ensures NoLists(v)
  {
    Tuple(seq(|labels|, i requires 0 <= i < |labels| =>
      Tuple([Str(labels[i].name), if labels[i].action.Some? then Str(labels[i].action.value) else Nil])))
  }

  /** signal_signature: a default-managed gate is identified by its pinned version. */
  function SignatureOf(w: Wiring, gate: Gate, gateIsDefault: bool, version: Option<string>, head: Head): Signature {
    Signature(w.judge,
              if gateIsDefault then DefaultIdentity(version) else GateIdentity(gate),
              if w.strategy.Some? then Some(StrategyIdentity(w.strategy.value)) else None,
              if head.NoHead? then None else head.version,
              if w.labels == [] then None else Some(LabelsIdentity(w.labels)),
              w.ruleVersion, w.ruleDigest)
  }

  lemma ScalarsAreTold(a: Scalar, b: Scalar)
    ensures ScalarIdentity(a) == ScalarIdentity(b) <==> a == b
  {
  }

  /** Two strategies look alike exactly when they are of one class with the same attributes. */
  lemma StrategiesAreTold(a: Strategy, b: Strategy)
    ensures StrategyIdentity(a) == StrategyIdentity(b) <==> a == b
  {
    var v, w := StrategyIdentity(a), StrategyIdentity(b);
    if v == w {
      var xs, ys := v.items[1].items, w.items[1].items;
      assert v.items[0] == Str(a.name) && w.items[0] == Str(b.name);
      assert |xs| == |a.attributes| && |ys| == |b.attributes|;
      forall i | 0 <= i < |a.attributes| ensures a.attributes[i] == b.attributes[i] {
        assert xs[i].items[0] == Str(a.attributes[i].0) && ys[i].items[0] == Str(b.attributes[i].0);
        assert xs[i].items[1] == ScalarIdentity(a.attributes[i].1) && ys[i].items[1] == ScalarIdentity(b.attributes[i].1);
        ScalarsAreTold(a.attributes[i].1, b.attributes[i].1);
      }
      assert a.attributes == b.attributes;
    }
  }

  /** Two label sets look alike exactly when they hold the same labels with the same actions. */
  lemma LabelsAreTold(a: seq<LabelSpec>, b: seq<LabelSpec>)
    ensures LabelsIdentity(a) == LabelsIdentity(b) <==> a == b
  {
    var v, w := LabelsIdentity(a), LabelsIdentity(b);
    if v == w {
      assert |v.items| == |a| && |w.items| == |b|;
      forall i | 0 <= i < |a| ensures a[i] == b[i] {
        assert v.items[i].items[0] == Str(a[i].name) && w.items[i].items[0] == Str(b[i].name);
        assert v.items[i].items[1] == w.items[i].items[1];
      }
      assert a == b;
    }
  }

  lemma DefaultsAreTold(v: Option<string>, v': Option<string>, gate: Gate)
    ensures DefaultIdentity(v) == DefaultIdentity(v') <==> v == v'
    ensures DefaultIdentity(v) != GateIdentity(gate)
  {
    assert DefaultIdentity(v)[1] == if v.Some? then Str(v.value) else Nil;
    assert DefaultIdentity(v')[1] == if v'.Some? then Str(v'.value) else Nil;
    assert |DefaultIdentity(v)| == 2 && |GateIdentity(gate)| == 3;
  }

  /** The gates two signatures are of cannot be told apart: one pinned version, or the operator's gates of one identity. */
  ghost predicate OneGate(gate: Gate, isDefault: bool, version: Option<string>, gate': Gate, isDefault': bool, version': Option<string>) {
    isDefault == isDefault' && if isDefault then version == version' else GateIdentity(gate) == GateIdentity(gate')
  }

  lemma GateFieldsAreTold(gate: Gate, isDefault: bool, version: Option<string>, gate': Gate, isDefault': bool, version': Option<string>)
    ensures (if isDefault then DefaultIdentity(version) else GateIdentity(gate))
            == (if isDefault' then DefaultIdentity(version') else GateIdentity(gate'))
            <==> OneGate(gate, isDefault, version, gate', isDefault', version')
  {
    DefaultsAreTold(version, version', gate');
    DefaultsAreTold(version', version, gate);
  }

  lemma StrategyFieldsAreTold(a: Option<Strategy>, b: Option<Strategy>)
    ensures (if a.Some? then Some(StrategyIdentity(a.value)) else None) == (if b.Some? then Some(StrategyIdentity(b.value)) else None)
            <==> a == b
  {
    if a.Some? && b.Some? { StrategiesAreTold(a.value, b.value); }
  }

  /**
   What counts as a swap between two live switches: a new judge, strategy, label set, rule version or
   gate identity, and nothing else.  A retrained head or an edited rule body is none.
   */
  lemma SwapsAreTold(w: Wiring, gate: Gate, isDefault: bool, version: Option<string>, head: Head,
                     w': Wiring, gate': Gate, isDefault': bool, version': Option<string>, head': Head)
    ensures SameCore(SignatureOf(w, gate, isDefault, version, head), SignatureOf(w', gate', isDefault', version', head'))
            <==> w.judge == w'.judge && w.strategy == w'.strategy && w.labels == w'.labels && w.ruleVersion == w'.ruleVersion
                 && OneGate(gate, isDefault, version, gate', isDefault', version')
  {
    GateFieldsAreTold(gate, isDefault, version, gate', isDefault', version');
    StrategyFieldsAreTold(w.strategy, w'.strategy);
    LabelsAreTold(w.labels, w'.labels);
  }

  /** The two stamps kept for the audit alone: the version of the head, if there is one, and the digest of the rule. */
  lemma StampsAreKept(w: Wiring, gate: Gate, isDefault: bool, version: Option<string>, head: Head)
    ensures var s := SignatureOf(w, gate, isDefault, version, head);
            && s.ruleDigest == w.ruleDigest
            && (s.headVersion.Some? <==> head.Head? && head.version.Some?)
            && (s.headVersion.Some? ==> s.headVersion == head.version)
  {
  }

  /** Every signature a switch can have survives the audit store. */
  lemma LiveSignaturesSurvive(w: Wiring, gate: Gate, gateIsDefault: bool, version: Option<string>, head: Head)
    ensures var s := SignatureOf(w, gate, gateIsDefault, version, head); FromAudit(ToAudit(s)) == s
  {
    GateIdentitiesAreFlat(gate, version);
    AuditRoundTrip(SignatureOf(w, gate, gateIsDefault, version, head));
  }
}
