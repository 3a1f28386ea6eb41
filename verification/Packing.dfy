/** Packing a multi-argument call into one value, and unpacking it into a call again. */
module Packing {
  import opened Evidence

  type Name = string
  type Value = int

  /** A signature outside the single-parameter fast path, without keyword-only parameters. */
  datatype Signature = Signature(named: seq<Name>, defaults: map<Name, Value>, varPositional: bool, varKeyword: bool)
  {
    predicate Valid() {
      forall i, j | 0 <= i < j < |named| :: named[i] != named[j]
    }
  }

  datatype Call = Call(args: seq<Value>, kwargs: map<Name, Value>)

  /** An instance of the packed class: the named fields, the *args field and the **kwargs field. */
  datatype Packed = Packed(fields: map<Name, Value>, rest: seq<Value>, extra: map<Name, Value>)

  datatype Error = Missing(name: Name) | UnexpectedPositional | UnexpectedKeyword

  datatype Result = Ok(packed: Packed) | Err(error: Error)

  /** The named parameters the positional arguments do not reach. */
  function Unreached(sig: Signature, call: Call): seq<Name> {
    if |call.args| <= |sig.named| then sig.named[|call.args|..] else []
  }

  /** The keywords that do not bind a named parameter. */
  function Leftover(sig: Signature, call: Call): (m: map<Name, Value>)
    ensures forall k :: k in m <==> k in call.kwargs && k !in Unreached(sig, call)
    ensures forall k :: k in m ==> m[k] == call.kwargs[k]
  {
    map k | k in call.kwargs && k !in Unreached(sig, call) :: call.kwargs[k]
  }

  /** What a named parameter is bound to. */
  function Bound(sig: Signature, call: Call, i: nat): Option<Value>
    requires i < |sig.named|
  {
    var name := sig.named[i];
    if i < |call.args| then Some(call.args[i])
    else if name in call.kwargs then Some(call.kwargs[name])
    else if name in sig.defaults then Some(sig.defaults[name])
    else None
  }

  /** The outcome of packing, stated without its loop. */
  ghost predicate Packs(sig: Signature, call: Call, r: Result) {
    match r
    case Ok(p) =>
      && p.fields.Keys == (set i | 0 <= i < |sig.named| :: sig.named[i])
      && (forall i :: 0 <= i < |sig.named| ==> sig.named[i] in p.fields && Bound(sig, call, i) == Some(p.fields[sig.named[i]]))
      && p.rest == (if |call.args| > |sig.named| then call.args[|sig.named|..] else [])
      && p.extra == Leftover(sig, call)
      && (p.rest != [] ==> sig.varPositional) && (p.extra != map[] ==> sig.varKeyword)
    case Err(Missing(name)) =>
      exists i :: 0 <= i < |sig.named| && sig.named[i] == name && Bound(sig, call, i).None?
                  && forall j :: 0 <= j < i ==> Bound(sig, call, j).Some?
    case Err(UnexpectedPositional) =>
      && (forall i :: 0 <= i < |sig.named| ==> Bound(sig, call, i).Some?)
      && !sig.varPositional && |call.args| > |sig.named|
    case Err(UnexpectedKeyword) =>
      && (forall i :: 0 <= i < |sig.named| ==> Bound(sig, call, i).Some?)
      && (sig.varPositional || |call.args| <= |sig.named|)
      && !sig.varKeyword && Leftover(sig, call) != map[]
  }

  /** The first n named parameters are bound as they should be. */
  ghost predicate BoundUpTo(sig: Signature, call: Call, n: nat, fields: map<Name, Value>)
    requires n <= |sig.named|
  {
    && fields.Keys == (set j | 0 <= j < n :: sig.named[j])
    && forall j :: 0 <= j < n ==> sig.named[j] in fields && Bound(sig, call, j) == Some(fields[sig.named[j]])
  }

  /** The keywords not yet used up by the first n named parameters. */
  ghost predicate LeftUpTo(sig: Signature, call: Call, n: nat, kwargs: map<Name, Value>)
    requires n <= |sig.named|
  {
    && (forall k :: k in kwargs <==> k in call.kwargs && !exists j :: |call.args| <= j < n && sig.named[j] == k)
    && forall k :: k in kwargs ==> kwargs[k] == call.kwargs[k]
  }

  lemma BindOne(sig: Signature, call: Call, n: nat, fields: map<Name, Value>, v: Value)
    requires sig.Valid() && n < |sig.named| && BoundUpTo(sig, call, n, fields) && Bound(sig, call, n) == Some(v)
    ensures BoundUpTo(sig, call, n + 1, fields[sig.named[n] := v])
  {
    var fields' := fields[sig.named[n] := v];
    assert forall j :: 0 <= j < n ==> sig.named[j] in fields && sig.named[j] != sig.named[n];
    assert forall k :: k in fields' <==> k in fields || k == sig.named[n];
  }

  /** A named parameter without a positional argument uses up its keyword, if given. */
  lemma LeaveOne(sig: Signature, call: Call, n: nat, kwargs: map<Name, Value>)
    requires sig.Valid() && n < |sig.named| && LeftUpTo(sig, call, n, kwargs)
    ensures sig.named[n] in kwargs <==> sig.named[n] in call.kwargs
    ensures LeftUpTo(sig, call, n + 1, if n < |call.args| then kwargs else kwargs - {sig.named[n]})
  {
    assert forall j :: 0 <= j < n ==> sig.named[j] != sig.named[n];
  }

  lemma LeftAll(sig: Signature, call: Call, kwargs: map<Name, Value>)
    requires sig.Valid() && LeftUpTo(sig, call, |sig.named|, kwargs)
    ensures kwargs == Leftover(sig, call)
  {
    forall k ensures k in Unreached(sig, call) <==> exists j :: |call.args| <= j < |sig.named| && sig.named[j] == k {
      if j :| |call.args| <= j < |sig.named| && sig.named[j] == k {
        assert Unreached(sig, call)[j - |call.args|] == k;
      }
    }
  }

  /** The loop over the named parameters: the fields, the unused keywords, and the parameter left without a value. */
  method BindNamed(sig: Signature, call: Call)
    returns (fields: map<Name, Value>, kwargsIn: map<Name, Value>, consumed: nat, missing: Option<nat>)
    requires sig.Valid()
    ensures match missing
            case None =>
              && BoundUpTo(sig, call, |sig.named|, fields) && LeftUpTo(sig, call, |sig.named|, kwargsIn)
              && consumed == (if |sig.named| <= |call.args| then |sig.named| else |call.args|)
            case Some(i) =>
              i < |sig.named| && Bound(sig, call, i).None? && forall j :: 0 <= j < i ==> Bound(sig, call, j).Some?
  {
    fields, kwargsIn, consumed := map[], call.kwargs, 0;
    for i := 0 to |sig.named|
      invariant consumed == if i <= |call.args| then i else |call.args|
      invariant BoundUpTo(sig, call, i, fields)
      invariant LeftUpTo(sig, call, i, kwargsIn)
    {
      var name := sig.named[i];
      LeaveOne(sig, call, i, kwargsIn);
      var v: Value;
      if consumed < |call.args| {
        v := call.args[consumed];
        consumed := consumed + 1;
      } else if name in kwargsIn {
        v := kwargsIn[name];
        kwargsIn := kwargsIn - {name};
      } else if name in sig.defaults {
        v := sig.defaults[name];
        assert kwargsIn - {name} == kwargsIn;
      } else {
        missing := Some(i);
        return;
      }
      BindOne(sig, call, i, fields, v);
      fields := fields[name := v];
    }
    missing := None;
  }

  /** pack */
  method Pack(sig: Signature, call: Call) returns (r: Result)
    requires sig.Valid()
    ensures Packs(sig, call, r)
  {
    var fields, kwargsIn, consumed, missing := BindNamed(sig, call);
    if missing.Some? { return Err(Missing(sig.named[missing.value])); }
    LeftAll(sig, call, kwargsIn);
    var remaining := call.args[consumed..];
    if !sig.varPositional && remaining != [] { return Err(UnexpectedPositional); }
    if !sig.varKeyword && kwargsIn != map[] { return Err(UnexpectedKeyword); }
    return Ok(Packed(fields, remaining, kwargsIn));
  }

  /** What every packed value of the signature looks like. */
  ghost predicate Shaped(sig: Signature, p: Packed) {
    && p.fields.Keys == (set i | 0 <= i < |sig.named| :: sig.named[i])
    && (forall i :: 0 <= i < |sig.named| ==> sig.named[i] in p.fields)
    && (p.rest != [] ==> sig.varPositional) && (p.extra != map[] ==> sig.varKeyword)
  }

  /** The call unpack returns. */
  ghost function Unpacked(sig: Signature, p: Packed): Call
    requires Shaped(sig, p)
  {
    Call(seq(|sig.named|, i requires 0 <= i < |sig.named| => p.fields[sig.named[i]]) + p.rest, p.extra)
  }

  /** unpack */
  method Unpack(sig: Signature, p: Packed) returns (call: Call)
    requires Shaped(sig, p)
    ensures call == Unpacked(sig, p)
  {
    var args := [];
    for i := 0 to |sig.named|
      invariant |args| == i && forall j :: 0 <= j < i ==> args[j] == p.fields[sig.named[j]]
    {
      args := args + [p.fields[sig.named[i]]];
    }
    args := args + p.rest;
    call := Call(args, if sig.varKeyword then p.extra else map[]);
  }

  // ---------------------------------------------------------------------------
  // Laws
  // ---------------------------------------------------------------------------

  lemma FieldsAreDetermined(sig: Signature, call: Call, p: Packed, p': Packed)
    requires sig.Valid() && Packs(sig, call, Ok(p)) && Packs(sig, call, Ok(p'))
    ensures p.fields == p'.fields
  {
    forall k | k in p.fields ensures p.fields[k] == p'.fields[k] {
      var i :| 0 <= i < |sig.named| && sig.named[i] == k;
      assert Bound(sig, call, i) == Some(p.fields[k]);
    }
  }

  /** Packing has one outcome. */
  lemma PacksIsDeterministic(sig: Signature, call: Call, r: Result, r': Result)
    requires sig.Valid() && Packs(sig, call, r) && Packs(sig, call, r')
    ensures r == r'
  {
    if r.Ok? && r'.Ok? {
      FieldsAreDetermined(sig, call, r.packed, r'.packed);
    }
    if r.Err? && r'.Err? && r.error.Missing? && r'.error.Missing? {
      var i :| 0 <= i < |sig.named| && sig.named[i] == r.error.name && Bound(sig, call, i).None?
               && forall j :: 0 <= j < i ==> Bound(sig, call, j).Some?;
      var i' :| 0 <= i' < |sig.named| && sig.named[i'] == r'.error.name && Bound(sig, call, i').None?
                && forall j :: 0 <= j < i' ==> Bound(sig, call, j).Some?;
      assert i == i';
    }
  }

  /** Packing what unpack returns gives the packed value back. */
  lemma PackUndoesUnpack(sig: Signature, p: Packed, r: Result)
    requires sig.Valid() && Shaped(sig, p) && Packs(sig, Unpacked(sig, p), r)
    ensures r == Ok(p)
  {
    var call := Unpacked(sig, p);
    assert Leftover(sig, call) == p.extra;
    assert call.args[|sig.named|..] == p.rest;
    forall i | 0 <= i < |sig.named| ensures Bound(sig, call, i) == Some(p.fields[sig.named[i]]) {
      assert call.args[i] == p.fields[sig.named[i]];
    }
    PacksIsDeterministic(sig, call, r, Ok(p));
  }

  /** Every argument of a packed call is bound exactly once, and nothing else is but defaults. */
  lemma ArgumentsAreConserved(sig: Signature, call: Call, r: Result)
    requires sig.Valid() && Packs(sig, call, r) && r.Ok?
    ensures var p := r.packed;
            && Shaped(sig, p)
            && (forall i :: 0 <= i < |call.args| ==>
                  if i < |sig.named| then p.fields[sig.named[i]] == call.args[i]
                  else i - |sig.named| < |p.rest| && p.rest[i - |sig.named|] == call.args[i])
            && (forall k :: k in call.kwargs ==>
                  (k in Unreached(sig, call) && p.fields[k] == call.kwargs[k] && k !in p.extra)
                  || (k !in Unreached(sig, call) && k in p.extra && p.extra[k] == call.kwargs[k]))
            && (forall k :: k in Unreached(sig, call) && k !in call.kwargs ==> k in sig.defaults && p.fields[k] == sig.defaults[k])
            && |p.rest| + |sig.named| == |call.args| + |Unreached(sig, call)|
            && p.extra.Keys <= call.kwargs.Keys
  {
    var p := r.packed;
    forall k | k in Unreached(sig, call)
      ensures k in p.fields && p.fields[k] == (if k in call.kwargs then call.kwargs[k] else if k in sig.defaults then sig.defaults[k] else 0)
      ensures k !in call.kwargs ==> k in sig.defaults
    {
      var j :| 0 <= j < |Unreached(sig, call)| && Unreached(sig, call)[j] == k;
      assert sig.named[|call.args| + j] == k;
    }
  }

  // ---------------------------------------------------------------------------
  // Against the language's own binding
  // ---------------------------------------------------------------------------

  /** A keyword names a parameter a positional argument has already filled. */
  predicate Collides(sig: Signature, call: Call) {
    exists i | 0 <= i < |sig.named| :: i < |call.args| && sig.named[i] in call.kwargs
  }

  /** Every named parameter gets a positional argument, a keyword or a default. */
  predicate AllGiven(sig: Signature, call: Call) {
    forall i | 0 <= i < |sig.named| :: i < |call.args| || sig.named[i] in call.kwargs || sig.named[i] in sig.defaults
  }

  /** Python itself accepts fn(*args, **kwargs). */
  predicate Callable(sig: Signature, call: Call) {
    && !Collides(sig, call)
    && (|call.args| <= |sig.named| || sig.varPositional)
    && AllGiven(sig, call)
    && (forall k | k in call.kwargs :: k in sig.named || sig.varKeyword)
  }

  /** A call Python rejects for one reason alone, a parameter given twice, to a function with **kwargs. */
  predicate Slips(sig: Signature, call: Call) {
    && Collides(sig, call) && sig.varKeyword
    && (|call.args| <= |sig.named| || sig.varPositional)
    && AllGiven(sig, call)
  }

  lemma GivenIsBound(sig: Signature, call: Call)
    ensures AllGiven(sig, call) <==> forall i :: 0 <= i < |sig.named| ==> Bound(sig, call, i).Some?
  {
    if AllGiven(sig, call) {
      forall i | 0 <= i < |sig.named| ensures Bound(sig, call, i).Some? {
        var name := sig.named[i];
        assert i < |call.args| || name in call.kwargs || name in sig.defaults;
      }
    }
    if forall i :: 0 <= i < |sig.named| ==> Bound(sig, call, i).Some? {
      forall i | 0 <= i < |sig.named|
        ensures i < |call.args| || sig.named[i] in call.kwargs || sig.named[i] in sig.defaults
      {
        assert Bound(sig, call, i).Some?;
      }
    }
  }

  /** When pack succeeds, in terms of the call. */
  lemma PackSucceedsIff(sig: Signature, call: Call, r: Result)
    requires sig.Valid() && Packs(sig, call, r)
    ensures r.Ok? <==> (|call.args| <= |sig.named| || sig.varPositional) && AllGiven(sig, call)
                       && (sig.varKeyword || forall k :: k in call.kwargs ==> k in Unreached(sig, call))
  {
    GivenIsBound(sig, call);
    assert Leftover(sig, call) == map[] <==> forall k :: k in call.kwargs ==> k in Unreached(sig, call) by {
      if k :| k in call.kwargs && k !in Unreached(sig, call) { assert k in Leftover(sig, call); }
    }
    if r.Err? && r.error.Missing? {
      var i :| 0 <= i < |sig.named| && sig.named[i] == r.error.name && Bound(sig, call, i).None?;
    }
  }

  /** Without a collision the keywords are all used exactly when each names a parameter. */
  lemma UnreachedKeywords(sig: Signature, call: Call)
    requires sig.Valid()
    ensures (forall k :: k in call.kwargs ==> k in Unreached(sig, call))
            <==> !Collides(sig, call) && forall k :: k in call.kwargs ==> k in sig.named
  {
    if Collides(sig, call) {
      var i :| 0 <= i < |sig.named| && i < |call.args| && sig.named[i] in call.kwargs;
      CollidingKeywordIsLeft(sig, call, i);
    } else {
      forall k | k in call.kwargs && k in sig.named ensures k in Unreached(sig, call) {
        NamedKeywordIsUnreached(sig, call, k);
      }
    }
  }

  /**
   pack and Python agree on whether a call is one for the function, except exactly on the calls
   that slip through: there pack succeeds and Python raises.
   */
  lemma PackAgreesWithPythonIff(sig: Signature, call: Call, r: Result)
    requires sig.Valid() && Packs(sig, call, r)
    ensures (r.Ok? <==> Callable(sig, call)) <==> !Slips(sig, call)
    ensures Slips(sig, call) ==> r.Ok? && !Callable(sig, call)
  {
    PackSucceedsIff(sig, call, r);
    UnreachedKeywords(sig, call);
  }

  /** For f(a, b, **kw), the call f(1, 2, a=3) packs, and Python raises a TypeError. */
  lemma DoublyGivenParameterSlips(r: Result)
    requires Packs(Signature(["a", "b"], map[], false, true), Call([1, 2], map["a" := 3]), r)
    ensures r.Ok? && r.packed.extra == map["a" := 3]
    ensures !Callable(Signature(["a", "b"], map[], false, true), Call([1, 2], map["a" := 3]))
  {
    var sig, call := Signature(["a", "b"], map[], false, true), Call([1, 2], map["a" := 3]);
    assert "a"[0] != "b"[0];
    assert sig.named[0] in call.kwargs;
    PackAgreesWithPythonIff(sig, call, r);
    assert Leftover(sig, call) == map["a" := 3];
  }

  lemma NamedKeywordIsUnreached(sig: Signature, call: Call, k: Name)
    requires sig.Valid() && !Collides(sig, call) && k in call.kwargs && k in sig.named
    ensures k in Unreached(sig, call)
  {
    var i :| 0 <= i < |sig.named| && sig.named[i] == k;
    assert i >= |call.args|;
    assert Unreached(sig, call)[i - |call.args|] == k;
  }

  lemma CollidingKeywordIsLeft(sig: Signature, call: Call, i: nat)
    requires sig.Valid() && i < |sig.named| && i < |call.args| && sig.named[i] in call.kwargs
    ensures sig.named[i] in Leftover(sig, call)
  {
  }

  /** The repacked call is one Python accepts exactly when it accepted the original. */
  lemma RepackedCallIsEquallyCallable(sig: Signature, call: Call, r: Result)
    requires sig.Valid() && Packs(sig, call, r) && r.Ok? && Shaped(sig, r.packed)
    ensures Callable(sig, Unpacked(sig, r.packed)) <==> Callable(sig, call)
  {
    PackAgreesWithPythonIff(sig, call, r);
    var again := Unpacked(sig, r.packed);
    if Collides(sig, call) {
      var i :| 0 <= i < |sig.named| && i < |call.args| && sig.named[i] in call.kwargs;
      CollidingKeywordIsLeft(sig, call, i);
      assert sig.named[i] in again.kwargs;
    }
    if Collides(sig, again) {
      var i :| 0 <= i < |sig.named| && i < |again.args| && sig.named[i] in again.kwargs;
      assert sig.named[i] !in Unreached(sig, call);
    }
  }
}
