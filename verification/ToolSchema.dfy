/** Tool-schema coercion: inlining of $ref pointers, stripping of unsupported keys, and Optional types. */
module ToolSchema {
  import opened Evidence

  /** The keys a tool dialect rejects. */
  datatype Rejected = Title | Default | AdditionalProperties | SchemaUri | Defs | Definitions | Examples
                    | ReadOnly | WriteOnly | Discriminator | Id | Comment

  /** A dictionary key, the ones the coercion treats specially told apart. */
  datatype Key = Unsupported(which: Rejected) | AnyOf | Ref | TypeKey | Nullable | Other(name: string)

  datatype Json = Null | Bool(b: bool) | Num(n: real) | Str(s: string) | List(items: seq<Json>) | Obj(fields: map<Key, Json>)

  /** Raising stands for Python's TypeError. */
  type Result = Option<Json>

  function KeyOf(s: string): Key {
    if s == "title" then Unsupported(Title)
    else if s == "default" then Unsupported(Default)
    else if s == "additionalProperties" then Unsupported(AdditionalProperties)
    else if s == "$schema" then Unsupported(SchemaUri)
    else if s == "$defs" then Unsupported(Defs)
    else if s == "definitions" then Unsupported(Definitions)
    else if s == "examples" then Unsupported(Examples)
    else if s == "readOnly" then Unsupported(ReadOnly)
    else if s == "writeOnly" then Unsupported(WriteOnly)
    else if s == "discriminator" then Unsupported(Discriminator)
    else if s == "$id" then Unsupported(Id)
    else if s == "$comment" then Unsupported(Comment)
    else if s == "anyOf" then AnyOf
    else if s == "$ref" then Ref
    else if s == "type" then TypeKey
    else if s == "nullable" then Nullable
    else Other(s)
  }

  type Definitions = map<Key, Json>

  function Section(fields: map<Key, Json>, which: Rejected): Definitions {
    var key := Unsupported(which);
    if key in fields && fields[key].Obj? then fields[key].fields else map[]
  }

  /** _collect_defs: on a clash "definitions" wins. */
  function CollectDefs(fields: map<Key, Json>): Definitions {
    Section(fields, Defs) + Section(fields, Definitions)
  }

  /** _ref_name */
  function RefName(ref: string): Option<Key> {
    if "#/$defs/" <= ref then Some(KeyOf(ref[|"#/$defs/"|..]))
    else if "#/definitions/" <= ref then Some(KeyOf(ref[|"#/definitions/"|..]))
    else None
  }

  predicate IsRef(fields: map<Key, Json>) {
    Ref in fields && fields[Ref].Str?
  }

  /** The definition a pointer leads to and that may still be expanded. */
  function Pointed(fields: map<Key, Json>, defs: Definitions, seen: set<Key>): (r: Option<Key>)
    ensures r.Some? ==> IsRef(fields) && r.value in defs && r.value !in seen
  {
    if !IsRef(fields) then None
    else
      var name := RefName(fields[Ref].s);
      if name.Some? && name.value in defs && name.value !in seen then name else None
  }

  /** _resolve_refs */
  function Resolve(node: Json, defs: Definitions, seen: set<Key>): Result
    decreases |defs.Keys - seen|, node
  {
    match node
    case Obj(fields) =>
      var name := Pointed(fields, defs, seen);
      if name.Some? then
        var target := defs[name.value];
        if !target.Obj? then None
        else
          assert defs.Keys - (seen + {name.value}) == (defs.Keys - seen) - {name.value};
          Resolve(Obj(target.fields + (fields - {Ref})), defs, seen + {name.value})
      else if IsRef(fields) then
        if forall k | k in fields && k != Ref :: Resolve(fields[k], defs, seen).Some? then
          Some(Obj(map k | k in fields && k != Ref :: Resolve(fields[k], defs, seen).value))
        else None
      else if forall k | k in fields :: Resolve(fields[k], defs, seen).Some? then
        Some(Obj(map k | k in fields :: Resolve(fields[k], defs, seen).value))
      else None
    case List(items) =>
      if forall i | 0 <= i < |items| :: Resolve(items[i], defs, seen).Some? then
        Some(List(seq(|items|, i requires 0 <= i < |items| => Resolve(items[i], defs, seen).value)))
      else None
    case _ => Some(node)
  }

  predicate Truthy(v: Json) {
    match v
    case Null => false
    case Bool(b) => b
    case Num(n) => n != 0.0
    case Str(s) => s != ""
    case List(items) => items != []
    case Obj(fields) => fields != map[]
  }

  predicate IsNullType(v: Json) {
    v.Obj? && TypeKey in v.fields && v.fields[TypeKey] == Str("null")
  }

  /** The first variant that is not the null type. */
  function FirstNonNull(variants: seq<Json>): (r: Option<Json>)
    ensures r.Some? ==> r.value in variants && !IsNullType(r.value)
    ensures r.None? ==> forall v :: v in variants ==> IsNullType(v)
  {
    if variants == [] then None
    else if !IsNullType(variants[0]) then Some(variants[0])
    else FirstNonNull(variants[1..])
  }

  /** The anyOf branch of _coerce, on the coerced fields. */
  function Collapse(cleaned: map<Key, Json>): (r: Result)
    requires AnyOf in cleaned
  {
    var rest := cleaned - {AnyOf};
    if !Truthy(cleaned[AnyOf]) then Some(Obj(rest))
    else if !cleaned[AnyOf].List? then None
    else
      var variants := cleaned[AnyOf].items;
      var chosen := FirstNonNull(variants);
      if chosen.Some? && !chosen.value.Obj? then None
      else
        var merged := (if chosen.Some? then chosen.value.fields else map[]) + rest;
        Some(Obj(if exists v :: v in variants && IsNullType(v) then merged[Nullable := Bool(true)] else merged))
  }

  /** _coerce */
  function Coerce(node: Json): Result {
    match node
    case Obj(fields) =>
      if forall k | k in fields && !k.Unsupported? :: Coerce(fields[k]).Some? then
        var cleaned := map k | k in fields && !k.Unsupported? :: Coerce(fields[k]).value;
        if AnyOf in cleaned then Collapse(cleaned) else Some(Obj(cleaned))
      else None
    case List(items) =>
      if forall i | 0 <= i < |items| :: Coerce(items[i]).Some? then
        Some(List(seq(|items|, i requires 0 <= i < |items| => Coerce(items[i]).value)))
      else None
    case _ => Some(node)
  }

  /** coerce_tool_schema, for the one supported target. */
  function CoerceToolSchema(schema: map<Key, Json>): Result {
    var resolved := Resolve(Obj(schema), CollectDefs(schema), {});
    if resolved.None? then None else Coerce(resolved.value)
  }

  // ---------------------------------------------------------------------------
  // Names and definitions
  // ---------------------------------------------------------------------------

  function NameOfRejected(which: Rejected): string {
    match which
    case Title => "title"
    case Default => "default"
    case AdditionalProperties => "additionalProperties"
    case SchemaUri => "$schema"
    case Defs => "$defs"
    case Definitions => "definitions"
    case Examples => "examples"
    case ReadOnly => "readOnly"
    case WriteOnly => "writeOnly"
    case Discriminator => "discriminator"
    case Id => "$id"
    case Comment => "$comment"
  }

  function NameOf(k: Key): string {
    match k
    case Unsupported(which) => NameOfRejected(which)
    case AnyOf => "anyOf"
    case Ref => "$ref"
    case TypeKey => "type"
    case Nullable => "nullable"
    case Other(name) => name
  }

  /** Keys stand for names: no two names share one. */
  lemma KeysAreNames(s: string, t: string)
    ensures NameOf(KeyOf(s)) == s
    ensures KeyOf(s) == KeyOf(t) <==> s == t
  {
    assert NameOf(KeyOf(t)) == t;
  }

  /** The lookup table: the members of both sections that are objects, "definitions" first. */
  lemma DefinitionsWin(fields: map<Key, Json>, k: Key)
    ensures var inDefs := Unsupported(Defs) in fields && fields[Unsupported(Defs)].Obj? && k in fields[Unsupported(Defs)].fields;
            var inDefinitions := Unsupported(Definitions) in fields && fields[Unsupported(Definitions)].Obj?
                                 && k in fields[Unsupported(Definitions)].fields;
            && (k in CollectDefs(fields) <==> inDefs || inDefinitions)
            && (inDefinitions ==> CollectDefs(fields)[k] == fields[Unsupported(Definitions)].fields[k])
            && (inDefs && !inDefinitions ==> CollectDefs(fields)[k] == fields[Unsupported(Defs)].fields[k])
  {
  }

  /** A pointer names what follows either prefix. */
  lemma PointersName(name: string)
    ensures RefName("#/$defs/" + name) == Some(KeyOf(name)) && RefName("#/definitions/" + name) == Some(KeyOf(name))
  {
    assert ("#/$defs/" + name)[|"#/$defs/"|..] == name;
    assert ("#/definitions/" + name)[|"#/definitions/"|..] == name;
    assert ("#/definitions/" + name)[2] == 'd';
  }

  // ---------------------------------------------------------------------------
  // Normal form
  // ---------------------------------------------------------------------------

  /** No string-valued $ref at any depth. */
  predicate NoPointers(node: Json) {
    match node
    case Obj(fields) => !IsRef(fields) && forall k | k in fields :: NoPointers(fields[k])
    case List(items) => forall i | 0 <= i < |items| :: NoPointers(items[i])
    case _ => true
  }

  /** No unsupported key and no anyOf at any depth. */
  predicate Accepted(node: Json) {
    match node
    case Obj(fields) => AnyOf !in fields && forall k | k in fields :: !k.Unsupported? && Accepted(fields[k])
    case List(items) => forall i | 0 <= i < |items| :: Accepted(items[i])
    case _ => true
  }

  /** An expansion uses up the definition it expands. */
  lemma ExpansionShrinks(defs: Definitions, seen: set<Key>, name: Key)
    requires name in defs && name !in seen
    ensures |defs.Keys - (seen + {name})| < |defs.Keys - seen|
  {
    assert defs.Keys - (seen + {name}) == (defs.Keys - seen) - {name};
  }

  /** The fields of an object that is not expanded, each resolved, without a dangling pointer. */
  lemma ResolvedFields(fields: map<Key, Json>, defs: Definitions, seen: set<Key>)
    requires Pointed(fields, defs, seen).None?
    ensures var r := Resolve(Obj(fields), defs, seen);
            r.Some? ==> r.value.Obj? && forall k :: (k in r.value.fields <==> k in fields && !(k == Ref && IsRef(fields)))
                                          && (k in r.value.fields ==> Resolve(fields[k], defs, seen) == Some(r.value.fields[k]))
  {
  }

  /** Inlining leaves no pointer behind, cyclic definitions or not. */
  lemma {:induction false} ResolveLeavesNoPointers(node: Json, defs: Definitions, seen: set<Key>)
    ensures var r := Resolve(node, defs, seen); r.Some? ==> NoPointers(r.value) && (r.value.Str? <==> node.Str?)
    decreases |defs.Keys - seen|, node
  {
    var r := Resolve(node, defs, seen);
    if r.Some? {
      match node
      case Obj(fields) =>
        var name := Pointed(fields, defs, seen);
        if name.Some? {
          ExpansionShrinks(defs, seen, name.value);
          ResolveLeavesNoPointers(Obj(defs[name.value].fields + (fields - {Ref})), defs, seen + {name.value});
        } else {
          ResolvedFields(fields, defs, seen);
          forall k | k in r.value.fields ensures NoPointers(r.value.fields[k]) && (r.value.fields[k].Str? <==> fields[k].Str?) {
            ResolveLeavesNoPointers(fields[k], defs, seen);
          }
        }
      case List(items) =>
        forall i | 0 <= i < |items| ensures NoPointers(r.value.items[i]) {
          ResolveLeavesNoPointers(items[i], defs, seen);
        }
      case _ =>
    }
  }

  /** Without pointers there is nothing to inline, whatever the definitions are. */
  lemma {:induction false} ResolveKeepsPointerFree(node: Json, defs: Definitions, seen: set<Key>)
    requires NoPointers(node)
    ensures Resolve(node, defs, seen) == Some(node)
    decreases node
  {
    match node
    case Obj(fields) =>
      forall k | k in fields ensures Resolve(fields[k], defs, seen) == Some(fields[k]) {
        ResolveKeepsPointerFree(fields[k], defs, seen);
      }
      assert Resolve(node, defs, seen).Some?;
      assert Resolve(node, defs, seen).value.fields == fields;
    case List(items) =>
      forall i | 0 <= i < |items| ensures Resolve(items[i], defs, seen) == Some(items[i]) {
        ResolveKeepsPointerFree(items[i], defs, seen);
      }
      assert seq(|items|, i requires 0 <= i < |items| => Resolve(items[i], defs, seen).value) == items;
    case _ =>
  }

  lemma CollapseIsAccepted(cleaned: map<Key, Json>)
    requires AnyOf in cleaned
    requires forall k :: k in cleaned ==> !k.Unsupported? && Accepted(cleaned[k]) && NoPointers(cleaned[k])
    requires !IsRef(cleaned)
    ensures var r := Collapse(cleaned); r.Some? ==> r.value.Obj? && Accepted(r.value) && NoPointers(r.value)
  {
    var r := Collapse(cleaned);
    if r.Some? && Truthy(cleaned[AnyOf]) {
      var variants := cleaned[AnyOf].items;
      var chosen := FirstNonNull(variants);
      if chosen.Some? {
        var i :| 0 <= i < |variants| && variants[i] == chosen.value;
        assert Accepted(variants[i]) && NoPointers(variants[i]);
      }
    }
  }

  /** Coercion of a pointer-free schema lands in the accepted dialect and brings no pointer in. */
  lemma {:induction false} CoerceIsAccepted(node: Json)
    requires NoPointers(node)
    ensures var r := Coerce(node);
            r.Some? ==> Accepted(r.value) && NoPointers(r.value) && (r.value.Str? <==> node.Str?) && (node.Obj? ==> r.value.Obj?)
  {
    if Coerce(node).Some? {
      match node
      case Obj(fields) =>
        forall k | k in fields && !k.Unsupported?
          ensures var r := Coerce(fields[k]); r.Some? ==> Accepted(r.value) && NoPointers(r.value) && (r.value.Str? <==> fields[k].Str?)
        {
          CoerceIsAccepted(fields[k]);
        }
        var cleaned := map k | k in fields && !k.Unsupported? :: Coerce(fields[k]).value;
        if AnyOf in cleaned { CollapseIsAccepted(cleaned); }
      case List(items) =>
        forall i | 0 <= i < |items| ensures var r := Coerce(items[i]); r.Some? ==> Accepted(r.value) && NoPointers(r.value) {
          CoerceIsAccepted(items[i]);
        }
      case _ =>
    }
  }

  /** A schema already in the dialect is left as it is. */
  lemma {:induction false} CoerceKeepsAccepted(node: Json)
    requires Accepted(node)
    ensures Coerce(node) == Some(node)
  {
    match node
    case Obj(fields) =>
      forall k | k in fields ensures Coerce(fields[k]) == Some(fields[k]) {
        CoerceKeepsAccepted(fields[k]);
      }
      assert Coerce(node).Some?;
      assert Coerce(node).value.fields == fields;
    case List(items) =>
      forall i | 0 <= i < |items| ensures Coerce(items[i]) == Some(items[i]) {
        CoerceKeepsAccepted(items[i]);
      }
      assert seq(|items|, i requires 0 <= i < |items| => Coerce(items[i]).value) == items;
    case _ =>
  }

  /**
   Whatever coerce_tool_schema returns is an object in the accepted dialect, free of pointers,
   and coercing it again returns it unchanged.
   */
  lemma CoercionIsIdempotent(schema: map<Key, Json>)
    ensures var r := CoerceToolSchema(schema);
            r.Some? ==> r.value.Obj? && Accepted(r.value) && NoPointers(r.value)
                        && CoerceToolSchema(r.value.fields) == r
  {
    var defs := CollectDefs(schema);
    ResolveLeavesNoPointers(Obj(schema), defs, {});
    ResolveKeepsObjects(Obj(schema), defs, {});
    var resolved := Resolve(Obj(schema), defs, {});
    if resolved.Some? {
      CoerceIsAccepted(resolved.value);
      var r := Coerce(resolved.value);
      if r.Some? {
        ResolveKeepsPointerFree(r.value, CollectDefs(r.value.fields), {});
        CoerceKeepsAccepted(r.value);
      }
    }
  }

  lemma {:induction false} ResolveKeepsObjects(node: Json, defs: Definitions, seen: set<Key>)
    requires node.Obj?
    ensures var r := Resolve(node, defs, seen); r.Some? ==> r.value.Obj?
    decreases |defs.Keys - seen|
  {
    var name := Pointed(node.fields, defs, seen);
    if name.Some? && defs[name.value].Obj? {
      assert defs.Keys - (seen + {name.value}) == (defs.Keys - seen) - {name.value};
      ResolveKeepsObjects(Obj(defs[name.value].fields + (node.fields - {Ref})), defs, seen + {name.value});
    }
  }

  // ---------------------------------------------------------------------------
  // What inlining puts where a pointer stood
  // ---------------------------------------------------------------------------

  /** The definition an object points to, if its $ref is a local pointer. */
  function RefOf(fields: map<Key, Json>): Option<Key> {
    if IsRef(fields) then RefName(fields[Ref].s) else None
  }

  /** The definitions of these names. */
  function Targets(defs: Definitions, names: seq<Key>): (targets: seq<map<Key, Json>>)
    ensures |targets| == |names|
  {
    seq(|names|, i requires 0 <= i < |names| => if names[i] in defs && defs[names[i]].Obj? then defs[names[i]].fields else map[])
  }

  /** An object and the definitions it refers to, one after the other. */
  function Layers(fields: map<Key, Json>, defs: Definitions, names: seq<Key>): seq<map<Key, Json>> {
    [fields] + Targets(defs, names)
  }

  /** The definitions an object leads to: from pointer to pointer, until there is none, or an unknown one, or one expanded before. */
  predicate IsChain(fields: map<Key, Json>, defs: Definitions, seen: set<Key>, names: seq<Key>)
    decreases |names|
  {
    if names == [] then RefOf(fields).None? || RefOf(fields).value !in defs || RefOf(fields).value in seen
    else
      && RefOf(fields) == Some(names[0]) && names[0] in defs && names[0] !in seen && defs[names[0]].Obj?
      && IsChain(defs[names[0]].fields, defs, seen + {names[0]}, names[1..])
  }

  /** The first of the objects that has the key. */
  function Lookup(layers: seq<map<Key, Json>>, k: Key): Option<Json> {
    if layers == [] then None
    else if k in layers[0] then Some(layers[0][k])
    else Lookup(layers[1..], k)
  }

  function Names(names: seq<Key>): set<Key> {
    set n | n in names
  }

  lemma PointedIsRef(fields: map<Key, Json>, defs: Definitions, seen: set<Key>)
    ensures match Pointed(fields, defs, seen)
            case Some(name) => RefOf(fields) == Some(name)
            case None => RefOf(fields).None? || RefOf(fields).value !in defs || RefOf(fields).value in seen
  {
  }

  lemma SameRef(a: map<Key, Json>, b: map<Key, Json>)
    requires Ref in a <==> Ref in b
    requires Ref in a ==> a[Ref] == b[Ref]
    ensures RefOf(a) == RefOf(b)
  {
  }

  lemma TargetsGrow(defs: Definitions, name: Key, names: seq<Key>)
    requires name in defs && defs[name].Obj?
    ensures Targets(defs, [name] + names) == [defs[name].fields] + Targets(defs, names)
  {
  }

  /** In place of an object with a pointer, the object its pointer is replaced in. */
  lemma ChainGrows(fields: map<Key, Json>, defs: Definitions, seen: set<Key>, name: Key, names: seq<Key>)
    requires RefOf(fields) == Some(name) && name in defs && name !in seen && defs[name].Obj?
    requires IsChain(defs[name].fields + (fields - {Ref}), defs, seen + {name}, names)
    ensures IsChain(fields, defs, seen, [name] + names)
  {
    SameRef(defs[name].fields + (fields - {Ref}), defs[name].fields);
    assert ([name] + names)[1..] == names;
  }

  lemma LookupGrows(fields: map<Key, Json>, target: map<Key, Json>, rest: seq<map<Key, Json>>, k: Key)
    requires k != Ref
    ensures Lookup([fields] + ([target] + rest), k) == Lookup([target + (fields - {Ref})] + rest, k)
  {
    var merged := target + (fields - {Ref});
    assert ([fields] + ([target] + rest))[1..] == [target] + rest;
    assert ([target] + rest)[1..] == rest && ([merged] + rest)[1..] == rest;
  }

  /** The field k of the inlined object, or its absence, is what the layers have under k, inlined in its turn. */
  ghost predicate FieldIs(r: map<Key, Json>, v: Option<Json>, k: Key, defs: Definitions, seen: set<Key>) {
    (k in r <==> v.Some?) && (v.Some? ==> Resolve(v.value, defs, seen) == Some(r[k]))
  }

  ghost predicate FieldsAre(r: map<Key, Json>, layers: seq<map<Key, Json>>, defs: Definitions, seen: set<Key>)
    requires layers != []
  {
    && (forall k :: k != Ref ==> FieldIs(r, Lookup(layers, k), k, defs, seen))
    && (Ref in r <==> Ref in layers[|layers| - 1] && !layers[|layers| - 1][Ref].Str?)
    && (Ref in r ==> Resolve(layers[|layers| - 1][Ref], defs, seen) == Some(r[Ref]))
  }

  /** r is the object with its pointers followed along these definitions: see InliningMeans. */
  ghost predicate Inlines(r: Json, fields: map<Key, Json>, defs: Definitions, seen: set<Key>, names: seq<Key>) {
    && IsChain(fields, defs, seen, names)
    && r.Obj? && FieldsAre(r.fields, Layers(fields, defs, names), defs, seen + Names(names))
  }

  lemma InlinesNothing(fields: map<Key, Json>, defs: Definitions, seen: set<Key>)
    requires Pointed(fields, defs, seen).None? && Resolve(Obj(fields), defs, seen).Some?
    ensures Inlines(Resolve(Obj(fields), defs, seen).value, fields, defs, seen, [])
  {
    PointedIsRef(fields, defs, seen);
    ResolvedFields(fields, defs, seen);
    assert [fields][1..] == [] && Layers(fields, defs, []) == [fields] && seen + Names([]) == seen;
    assert forall k :: Lookup([fields], k) == if k in fields then Some(fields[k]) else None;
  }

  lemma FieldsOfMerged(r: map<Key, Json>, fields: map<Key, Json>, target: map<Key, Json>, rest: seq<map<Key, Json>>,
                       defs: Definitions, seen: set<Key>)
    requires FieldsAre(r, [target + (fields - {Ref})] + rest, defs, seen)
    ensures FieldsAre(r, [fields] + ([target] + rest), defs, seen)
  {
    forall k | k != Ref ensures FieldIs(r, Lookup([fields] + ([target] + rest), k), k, defs, seen) {
      LookupGrows(fields, target, rest, k);
      assert FieldIs(r, Lookup([target + (fields - {Ref})] + rest, k), k, defs, seen);
    }
  }

  lemma SeenGrows(seen: set<Key>, name: Key, names: seq<Key>)
    ensures seen + Names([name] + names) == (seen + {name}) + Names(names)
  {
    assert forall n :: n in [name] + names <==> n == name || n in names;
  }

  lemma InlinesOneMore(r: Json, fields: map<Key, Json>, defs: Definitions, seen: set<Key>, name: Key, names: seq<Key>)
    requires RefOf(fields) == Some(name) && name in defs && name !in seen && defs[name].Obj?
    requires Inlines(r, defs[name].fields + (fields - {Ref}), defs, seen + {name}, names)
    ensures Inlines(r, fields, defs, seen, [name] + names)
  {
    ChainGrows(fields, defs, seen, name, names);
    TargetsGrow(defs, name, names);
    SeenGrows(seen, name, names);
    FieldsOfMerged(r.fields, fields, defs[name].fields, Targets(defs, names), defs, seen + Names([name] + names));
  }

  /**
   What inlining an object gives: the pointers are followed from definition to definition until one
   is unknown or was expanded before; the result has every key some object on the way has, the
   earliest one counting, each inlined in its turn; and a $ref only if the last object's is no string.
   */
  lemma {:induction false} InliningMeans(fields: map<Key, Json>, defs: Definitions, seen: set<Key>) returns (names: seq<Key>)
    requires Resolve(Obj(fields), defs, seen).Some?
    ensures Inlines(Resolve(Obj(fields), defs, seen).value, fields, defs, seen, names)
    decreases |defs.Keys - seen|
  {
    var name := Pointed(fields, defs, seen);
    if name.None? {
      names := [];
      InlinesNothing(fields, defs, seen);
    } else {
      ExpansionShrinks(defs, seen, name.value);
      PointedIsRef(fields, defs, seen);
      var rest := InliningMeans(defs[name.value].fields + (fields - {Ref}), defs, seen + {name.value});
      names := [name.value] + rest;
      InlinesOneMore(Resolve(Obj(fields), defs, seen).value, fields, defs, seen, name.value, rest);
    }
  }

  /** In a list every item is inlined in its place, and anything else than a list or an object stays as it is. */
  lemma ListsAreInlined(node: Json, defs: Definitions, seen: set<Key>)
    requires !node.Obj?
    ensures var r := Resolve(node, defs, seen);
            if node.List? then
              && (r.Some? <==> forall i :: 0 <= i < |node.items| ==> Resolve(node.items[i], defs, seen).Some?)
              && (r.Some? ==> r.value.List? && |r.value.items| == |node.items|
                              && forall i :: 0 <= i < |node.items| ==> Resolve(node.items[i], defs, seen) == Some(r.value.items[i]))
            else r == Some(node)
  {
  }

  /** The plain case: a pointer to a definition not expanded so far, of pointer-free parts, is replaced by it, its siblings winning. */
  lemma PointerIsReplaced(fields: map<Key, Json>, defs: Definitions, seen: set<Key>, name: string)
    requires Ref in fields && (fields[Ref] == Str("#/$defs/" + name) || fields[Ref] == Str("#/definitions/" + name))
    requires KeyOf(name) in defs && KeyOf(name) !in seen && defs[KeyOf(name)].Obj?
    requires NoPointers(defs[KeyOf(name)]) && forall k :: k in fields && k != Ref ==> NoPointers(fields[k])
    ensures Resolve(Obj(fields), defs, seen) == Some(Obj(defs[KeyOf(name)].fields + (fields - {Ref})))
  {
    PointersName(name);
    var merged := defs[KeyOf(name)].fields + (fields - {Ref});
    SameRef(merged, defs[KeyOf(name)].fields);
    ResolveKeepsPointerFree(Obj(merged), defs, seen + {KeyOf(name)});
  }

  /** A pointer that is foreign, unknown or already expanded is dropped, and its siblings are kept. */
  lemma DanglingPointerIsDropped(fields: map<Key, Json>, defs: Definitions, seen: set<Key>)
    requires IsRef(fields) && (RefName(fields[Ref].s).None? || RefName(fields[Ref].s).value !in defs || RefName(fields[Ref].s).value in seen)
    requires forall k :: k in fields && k != Ref ==> NoPointers(fields[k])
    ensures Resolve(Obj(fields), defs, seen) == Some(Obj(fields - {Ref}))
  {
    forall k | k in fields && k != Ref ensures Resolve(fields[k], defs, seen) == Some(fields[k]) {
      ResolveKeepsPointerFree(fields[k], defs, seen);
    }
    assert Resolve(Obj(fields), defs, seen).Some?;
    assert Resolve(Obj(fields), defs, seen).value.fields == fields - {Ref};
  }

  // ---------------------------------------------------------------------------
  // When the coercion cannot raise
  // ---------------------------------------------------------------------------

  predicate AnyOfShaped(v: Json) {
    !Truthy(v) || (v.List? && forall i | 0 <= i < |v.items| :: v.items[i].Obj?)
  }

  /** Every anyOf, at any depth, is falsy or a list of objects. */
  predicate Shaped(node: Json) {
    match node
    case Obj(fields) => (AnyOf in fields ==> AnyOfShaped(fields[AnyOf])) && forall k | k in fields :: Shaped(fields[k])
    case List(items) => forall i | 0 <= i < |items| :: Shaped(items[i])
    case _ => true
  }

  predicate ShapedDefs(defs: Definitions) {
    forall k | k in defs :: defs[k].Obj? && Shaped(defs[k])
  }

  predicate StaysShaped(node: Json, r: Result) {
    r.Some? && Shaped(r.value) && (node.Obj? ==> r.value.Obj?) && (AnyOfShaped(node) ==> AnyOfShaped(r.value))
  }

  lemma MergedIsShaped(target: map<Key, Json>, fields: map<Key, Json>)
    requires Shaped(Obj(target)) && Shaped(Obj(fields))
    ensures Shaped(Obj(target + (fields - {Ref})))
  {
    var merged := target + (fields - {Ref});
    assert forall k :: k in merged ==> merged[k] == if k in fields && k != Ref then fields[k] else target[k];
  }

  lemma FieldsStayShaped(fields: map<Key, Json>, defs: Definitions, seen: set<Key>)
    requires Pointed(fields, defs, seen).None? && Shaped(Obj(fields))
    requires forall k :: k in fields ==> StaysShaped(fields[k], Resolve(fields[k], defs, seen))
    ensures StaysShaped(Obj(fields), Resolve(Obj(fields), defs, seen))
  {
    ResolvedFields(fields, defs, seen);
    assert Resolve(Obj(fields), defs, seen).Some?;
    if fields == map[] { assert Resolve(Obj(fields), defs, seen).value.fields == map[]; }
  }

  /** Resolution of well-shaped parts succeeds, and keeps the shape and the kind of value. */
  lemma {:induction false} ResolveShaped(node: Json, defs: Definitions, seen: set<Key>)
    requires Shaped(node) && ShapedDefs(defs)
    ensures StaysShaped(node, Resolve(node, defs, seen))
    decreases |defs.Keys - seen|, node, 1
  {
    if node.Obj? {
      ResolveShapedObject(node.fields, defs, seen);
    } else if node.List? {
      forall i | 0 <= i < |node.items| ensures StaysShaped(node.items[i], Resolve(node.items[i], defs, seen)) {
        ResolveShaped(node.items[i], defs, seen);
      }
    }
  }

  lemma {:induction false} ResolveShapedObject(fields: map<Key, Json>, defs: Definitions, seen: set<Key>)
    requires Shaped(Obj(fields)) && ShapedDefs(defs)
    ensures StaysShaped(Obj(fields), Resolve(Obj(fields), defs, seen))
    decreases |defs.Keys - seen|, Obj(fields), 0
  {
    var name := Pointed(fields, defs, seen);
    if name.None? {
      forall k | k in fields ensures StaysShaped(fields[k], Resolve(fields[k], defs, seen)) {
        ResolveShaped(fields[k], defs, seen);
      }
      FieldsStayShaped(fields, defs, seen);
    } else {
      var merged := defs[name.value].fields + (fields - {Ref});
      ExpansionShrinks(defs, seen, name.value);
      MergedIsShaped(defs[name.value].fields, fields);
      ResolveShapedObject(merged, defs, seen + {name.value});
    }
  }

  lemma CollapseShaped(cleaned: map<Key, Json>)
    requires AnyOf in cleaned && AnyOfShaped(cleaned[AnyOf])
    ensures Collapse(cleaned).Some? && Collapse(cleaned).value.Obj?
  {
    if Truthy(cleaned[AnyOf]) {
      var variants := cleaned[AnyOf].items;
      var chosen := FirstNonNull(variants);
      if chosen.Some? {
        var i :| 0 <= i < |variants| && variants[i] == chosen.value;
      }
    }
  }

  lemma {:induction false} CoerceShaped(node: Json)
    requires Shaped(node)
    ensures var r := Coerce(node);
            r.Some? && (node.Obj? ==> r.value.Obj?) && (AnyOfShaped(node) ==> AnyOfShaped(r.value))
  {
    match node
    case Obj(fields) =>
      forall k | k in fields
        ensures var r := Coerce(fields[k]); r.Some? && (AnyOfShaped(fields[k]) ==> AnyOfShaped(r.value))
      {
        CoerceShaped(fields[k]);
      }
      var cleaned := map k | k in fields && !k.Unsupported? :: Coerce(fields[k]).value;
      if AnyOf in cleaned {
        CollapseShaped(cleaned);
      } else if !Truthy(node) {
        assert cleaned == map[];
      }
    case List(items) =>
      forall i | 0 <= i < |items| ensures var r := Coerce(items[i]); r.Some? && (items[i].Obj? ==> r.value.Obj?) {
        CoerceShaped(items[i]);
      }
    case _ =>
  }

  /** A schema whose anyOfs list objects and whose definitions are objects is always coerced. */
  lemma WellShapedNeverRaises(schema: map<Key, Json>)
    requires Shaped(Obj(schema)) && ShapedDefs(CollectDefs(schema))
    ensures CoerceToolSchema(schema).Some?
  {
    ResolveShaped(Obj(schema), CollectDefs(schema), {});
    CoerceShaped(Resolve(Obj(schema), CollectDefs(schema), {}).value);
  }

  // ---------------------------------------------------------------------------
  // Which parameters survive
  // ---------------------------------------------------------------------------

  /** The key "properties". */
  const PROPERTIES := Other("properties")

  /** A JSON schema is an object or a boolean. */
  predicate IsSchema(v: Json) {
    v.Obj? || v.Bool?
  }

  /** The schema declares these parameters, each by a schema of its own. */
  predicate Declares(schema: map<Key, Json>, props: map<Key, Json>) {
    && PROPERTIES in schema && schema[PROPERTIES] == Obj(props)
    && forall k | k in props :: IsSchema(props[k])
  }

  lemma ResolveKeepsSchemas(node: Json, defs: Definitions, seen: set<Key>)
    requires IsSchema(node)
    ensures var r := Resolve(node, defs, seen); r.Some? ==> IsSchema(r.value)
  {
    if node.Obj? { ResolveKeepsObjects(node, defs, seen); }
  }

  /**
   Inlining keeps every declared parameter, whatever the schema refers to: each is inlined with the
   definitions the schema itself was expanded by left out.
   */
  lemma ResolveKeepsParameters(schema: map<Key, Json>, props: map<Key, Json>, defs: Definitions, seen: set<Key>)
    returns (resolved: map<Key, Json>, names: seq<Key>)
    requires Declares(schema, props) && Resolve(Obj(schema), defs, seen).Some?
    ensures var r := Resolve(Obj(schema), defs, seen); r.value.Obj? && Declares(r.value.fields, resolved)
    ensures resolved.Keys == props.Keys && IsChain(schema, defs, seen, names)
    ensures forall k :: k in props ==> Resolve(props[k], defs, seen + Names(names)) == Some(resolved[k])
  {
    names := InliningMeans(schema, defs, seen);
    var r, expanded := Resolve(Obj(schema), defs, seen).value, seen + Names(names);
    assert FieldIs(r.fields, Lookup(Layers(schema, defs, names), PROPERTIES), PROPERTIES, defs, expanded);
    assert Resolve(Obj(props), defs, expanded) == Some(r.fields[PROPERTIES]);
    ResolvedFields(props, defs, expanded);
    resolved := r.fields[PROPERTIES].fields;
    forall k | k in resolved ensures IsSchema(resolved[k]) { ResolveKeepsSchemas(props[k], defs, expanded); }
    assert resolved.Keys == props.Keys;
  }

  lemma CoercedSchema(node: Json)
    requires IsSchema(node)
    ensures var r := Coerce(node); r.Some? ==> r.value.Bool? || r.value.Obj?
  {
  }

  /** The coerced parameter list: the unreserved names, and "anyOf" never among them. */
  lemma CoerceParameters(props: map<Key, Json>)
    requires forall k :: k in props ==> IsSchema(props[k])
    ensures var r := Coerce(Obj(props));
            r.Some? ==> r.value.Obj? && forall k :: k in r.value.fields <==> k in props && !k.Unsupported? && k != AnyOf
    ensures var r := Coerce(Obj(props));
            r.Some? ==> forall k :: k in r.value.fields ==> Coerce(props[k]) == Some(r.value.fields[k])
    ensures AnyOf in props && Coerce(Obj(props)).Some? ==>
              Coerce(props[AnyOf]).Some? && !Truthy(Coerce(props[AnyOf]).value)
  {
    if AnyOf in props { CoercedSchema(props[AnyOf]); }
  }

  lemma CoerceKeepsProperties(schema: map<Key, Json>, props: map<Key, Json>)
    requires Declares(schema, props)
    ensures var r, inner := Coerce(Obj(schema)), Coerce(Obj(props));
            r.Some? ==> inner.Some? && r.value.Obj? && PROPERTIES in r.value.fields && r.value.fields[PROPERTIES] == inner.value
  {
  }

  /**
   Which parameters of a tool come through a successful coercion, references and all: exactly those
   whose name is neither a reserved word nor "anyOf", each as the coercion of its own inlined schema.
   */
  lemma ParametersKept(schema: map<Key, Json>, props: map<Key, Json>) returns (names: seq<Key>)
    requires Declares(schema, props)
    ensures var r, defs := CoerceToolSchema(schema), CollectDefs(schema);
            r.Some? ==>
              && r.value.Obj? && PROPERTIES in r.value.fields && r.value.fields[PROPERTIES].Obj?
              && IsChain(schema, defs, {}, names)
              && var kept := r.value.fields[PROPERTIES].fields;
                 forall k :: (k in kept <==> k in props && !k.Unsupported? && k != AnyOf)
                             && (k in kept ==> Resolve(props[k], defs, Names(names)).Some?
                                               && Coerce(Resolve(props[k], defs, Names(names)).value) == Some(kept[k]))
  {
    var defs := CollectDefs(schema);
    var inlined := Resolve(Obj(schema), defs, {});
    names := [];
    if inlined.Some? {
      var resolved;
      resolved, names := ResolveKeepsParameters(schema, props, defs, {});
      assert {} + Names(names) == Names(names);
      CoerceKeepsProperties(inlined.value.fields, resolved);
      CoerceParameters(resolved);
    }
  }

  // ---------------------------------------------------------------------------
  // What coercion makes of an object
  // ---------------------------------------------------------------------------

  /** A key the coercion neither strips nor collapses. */
  predicate Own(fields: map<Key, Json>, k: Key) {
    k in fields && !k.Unsupported? && k != AnyOf
  }

  /** Without an anyOf: the unsupported keys go, and every other field is coerced in its place. */
  lemma CoerceStrips(fields: map<Key, Json>)
    requires AnyOf !in fields
    ensures var r := Coerce(Obj(fields));
            && (r.Some? <==> forall k :: Own(fields, k) ==> Coerce(fields[k]).Some?)
            && (r.Some? ==> r.value.Obj? && forall k :: (k in r.value.fields <==> Own(fields, k))
                                                && (k in r.value.fields ==> Coerce(fields[k]) == Some(r.value.fields[k])))
  {
  }

  /** In a list every item is coerced in its place, and anything else than a list or an object stays as it is. */
  lemma ListsAreCoerced(node: Json)
    requires !node.Obj?
    ensures var r := Coerce(node);
            if node.List? then
              && (r.Some? <==> forall i :: 0 <= i < |node.items| ==> Coerce(node.items[i]).Some?)
              && (r.Some? ==> r.value.List? && |r.value.items| == |node.items|
                              && forall i :: 0 <= i < |node.items| ==> Coerce(node.items[i]) == Some(r.value.items[i]))
            else r == Some(node)
  {
  }

  /** The variant that is taken is the first that is not the null type. */
  lemma {:induction false} FirstNonNullIsFirst(variants: seq<Json>) returns (i: nat)
    ensures i <= |variants| && forall j :: 0 <= j < i ==> IsNullType(variants[j])
    ensures i < |variants| ==> !IsNullType(variants[i])
    ensures FirstNonNull(variants) == if i < |variants| then Some(variants[i]) else None
  {
    i := 0;
    if variants != [] && IsNullType(variants[0]) {
      var rest := variants[1..];
      i := FirstNonNullIsFirst(rest);
      i := i + 1;
      assert forall j :: 0 < j < |variants| ==> variants[j] == rest[j - 1];
    }
  }

  /**
   With an anyOf: the object gets the keys of the first variant that is not the null type, its own
   fields winning, and is marked nullable exactly if one of the variants was the null type.
   */
  lemma AnyOfMeans(fields: map<Key, Json>) returns (i: nat, chosen: map<Key, Json>)
    requires AnyOf in fields && Coerce(Obj(fields)).Some?
    ensures var v, r := Coerce(fields[AnyOf]), Coerce(Obj(fields)).value;
            && v.Some? && r.Obj? && (Truthy(v.value) ==> v.value.List?)
            && var variants := if Truthy(v.value) then v.value.items else [];
               var isNullable := exists j :: 0 <= j < |variants| && IsNullType(variants[j]);
               && i <= |variants| && (forall j :: 0 <= j < i ==> IsNullType(variants[j]))
               && (if i == |variants| then chosen == map[] else !IsNullType(variants[i]) && variants[i] == Obj(chosen))
               && (isNullable ==> Nullable in r.fields && r.fields[Nullable] == Bool(true))
               && forall k :: k != Nullable || !isNullable ==>
                    && (k in r.fields <==> Own(fields, k) || k in chosen)
                    && (Own(fields, k) ==> Coerce(fields[k]) == Some(r.fields[k]))
                    && (!Own(fields, k) && k in chosen ==> r.fields[k] == chosen[k])
  {
    var cleaned := map k | k in fields && !k.Unsupported? :: Coerce(fields[k]).value;
    assert Coerce(Obj(fields)) == Collapse(cleaned);
    i, chosen := 0, map[];
    if Truthy(cleaned[AnyOf]) {
      var variants := cleaned[AnyOf].items;
      i := FirstNonNullIsFirst(variants);
      if i < |variants| { chosen := variants[i].fields; }
      assert (exists v :: v in variants && IsNullType(v)) <==> exists j :: 0 <= j < |variants| && IsNullType(variants[j]);
    }
  }

  lemma CollapseOfCoerced(fields: map<Key, Json>)
    requires AnyOf in fields && forall k :: k in fields ==> !k.Unsupported? && Coerce(fields[k]) == Some(fields[k])
    ensures Coerce(Obj(fields)) == Collapse(fields)
  {
    var cleaned := map k | k in fields && !k.Unsupported? :: Coerce(fields[k]).value;
    assert cleaned == fields;
  }

  lemma CollapseOptional(t: map<Key, Json>, nothing: Json, wrapper: map<Key, Json>)
    requires !IsNullType(Obj(t)) && IsNullType(nothing) && AnyOf !in wrapper
    ensures Collapse(wrapper[AnyOf := List([Obj(t), nothing])]) == Some(Obj((t + wrapper)[Nullable := Bool(true)]))
  {
    var variants := [Obj(t), nothing];
    assert wrapper[AnyOf := List(variants)] - {AnyOf} == wrapper;
    assert FirstNonNull(variants) == Some(Obj(t)) && variants[1] in variants;
  }

  /** An Optional type: the type itself, with the wrapper's own keys on top, and nullable. */
  lemma OptionalBecomesNullable(t: map<Key, Json>, wrapper: map<Key, Json>)
    requires Accepted(Obj(t)) && !IsNullType(Obj(t)) && Accepted(Obj(wrapper))
    ensures Coerce(Obj(wrapper[AnyOf := List([Obj(t), Obj(map[TypeKey := Str("null")])])]))
            == Some(Obj((t + wrapper)[Nullable := Bool(true)]))
  {
    var nothing := Obj(map[TypeKey := Str("null")]);
    var variants := List([Obj(t), nothing]);
    assert Accepted(nothing) && Accepted(variants);
    CoerceKeepsAccepted(variants);
    forall k | k in wrapper ensures Coerce(wrapper[k]) == Some(wrapper[k]) { CoerceKeepsAccepted(wrapper[k]); }
    CollapseOfCoerced(wrapper[AnyOf := variants]);
    CollapseOptional(t, nothing, wrapper);
  }

  /** The object's coercion goes through: every kept field coerces, and the anyOf collapses. */
  predicate Collapses(fields: map<Key, Json>) {
    AnyOf in fields && Coerce(fields[AnyOf]).Some? ==>
      var v := Coerce(fields[AnyOf]).value;
      !Truthy(v) || (v.List? && (FirstNonNull(v.items).Some? ==> FirstNonNull(v.items).value.Obj?))
  }

  lemma CoerceObjectIff(fields: map<Key, Json>)
    ensures Coerce(Obj(fields)).Some?
            <==> (forall k :: k in fields && !k.Unsupported? ==> Coerce(fields[k]).Some?) && Collapses(fields)
  {
  }

  /** A schema that coerces to nothing, so that an anyOf made of it is passed over. */
  predicate Vanishes(v: Json) {
    Coerce(v).Some? && !Truthy(Coerce(v).value)
  }

  /** A coerced anyOf that contributes no key: falsy, or a list without the null type whose first variant is empty. */
  predicate AddsNothing(v: Json) {
    !Truthy(v)
    || (v.List? && v.items[0] == Obj(map[]) && forall i | 0 <= i < |v.items| :: !IsNullType(v.items[i]))
  }

  lemma CollapseIsEmptyIff(cleaned: map<Key, Json>)
    requires AnyOf in cleaned
    ensures Collapse(cleaned) == Some(Obj(map[])) <==> cleaned.Keys == {AnyOf} && AddsNothing(cleaned[AnyOf])
  {
    var rest := cleaned - {AnyOf};
    assert rest == map[] <==> cleaned.Keys == {AnyOf} by {
      assert forall k :: k in cleaned <==> k in rest || k == AnyOf;
    }
    if Truthy(cleaned[AnyOf]) && cleaned[AnyOf].List? {
      var variants := cleaned[AnyOf].items;
      assert (exists v :: v in variants && IsNullType(v)) <==> exists i :: 0 <= i < |variants| && IsNullType(variants[i]);
      var chosen := FirstNonNull(variants);
      assert !IsNullType(variants[0]) ==> chosen == Some(variants[0]);
      assert variants[0] in variants;
      if chosen.None? || chosen.value.Obj? {
        var first := if chosen.Some? then chosen.value.fields else map[];
        var merged := first + rest;
        assert merged == map[] <==> first == map[] && rest == map[] by {
          assert forall k :: k in merged <==> k in first || k in rest;
        }
        assert Nullable in merged[Nullable := Bool(true)];
      }
    }
  }

  lemma CleanedIsEmptyIff(fields: map<Key, Json>, cleaned: map<Key, Json>, spare: set<Key>)
    requires forall k :: k in cleaned <==> k in fields && !k.Unsupported?
    ensures cleaned.Keys <= spare <==> forall k :: k in fields ==> k.Unsupported? || k in spare
  {
    if cleaned.Keys <= spare {
      forall k | k in fields && !k.Unsupported? ensures k in spare { assert k in cleaned.Keys; }
    }
  }

  /** It is false, or all its keys are reserved, but for an anyOf that contributes none. */
  lemma VanishesIff(v: Json)
    requires IsSchema(v)
    ensures Vanishes(v)
            <==> v == Bool(false)
                 || (v.Obj? && (forall k :: k in v.fields ==> k.Unsupported? || k == AnyOf)
                     && (AnyOf in v.fields ==> Coerce(v.fields[AnyOf]).Some? && AddsNothing(Coerce(v.fields[AnyOf]).value)))
  {
    if v.Obj? {
      var fields := v.fields;
      CoerceObjectIff(fields);
      if forall k :: k in fields && !k.Unsupported? ==> Coerce(fields[k]).Some? {
        var cleaned := map k | k in fields && !k.Unsupported? :: Coerce(fields[k]).value;
        CleanedIsEmptyIff(fields, cleaned, {});
        CleanedIsEmptyIff(fields, cleaned, {AnyOf});
        if AnyOf in cleaned {
          CollapseIsEmptyIff(cleaned);
          CoercedSchema(v);
        }
      }
    }
  }

  /** The rest of the schema, with that parameter left out. */
  function WithoutAnyOf(schema: map<Key, Json>, props: map<Key, Json>): map<Key, Json> {
    schema[PROPERTIES := Obj(props - {AnyOf})]
  }

  lemma CoerceWithoutAnyOf(props: map<Key, Json>)
    requires AnyOf in props && IsSchema(props[AnyOf])
    ensures Coerce(Obj(props)).Some? <==> Coerce(Obj(props - {AnyOf})).Some? && Vanishes(props[AnyOf])
  {
    CoercedSchema(props[AnyOf]);
    var rest := props - {AnyOf};
    assert forall k :: k in rest ==> rest[k] == props[k];
    if Coerce(Obj(rest)).Some? && Coerce(props[AnyOf]).Some? {
      assert forall k :: k in props && !k.Unsupported? ==> Coerce(props[k]).Some?;
    }
    if Coerce(Obj(props)).Some? {
      assert forall k :: k in rest && !k.Unsupported? ==> Coerce(rest[k]).Some?;
    }
  }

  /**
   A parameter called "anyOf", references inlined: if the schema coerces without the parameter, then
   with it exactly when the parameter's own schema vanishes, and ParametersKept says it is then
   dropped; otherwise the call raises.
   */
  lemma ParameterCalledAnyOf(schema: map<Key, Json>, inlined: map<Key, Json>, props: map<Key, Json>)
    requires Resolve(Obj(schema), CollectDefs(schema), {}) == Some(Obj(inlined))
    requires Declares(inlined, props) && AnyOf in props
    requires Coerce(Obj(WithoutAnyOf(inlined, props))).Some?
    ensures CoerceToolSchema(schema).Some? <==> Vanishes(props[AnyOf])
  {
    var rest := WithoutAnyOf(inlined, props);
    CoerceWithoutAnyOf(props);
    CoerceObjectIff(inlined);
    CoerceObjectIff(rest);
    assert forall k :: k in inlined && k != PROPERTIES ==> rest[k] == inlined[k];
    assert Coerce(rest[PROPERTIES]).Some?;
    assert Collapses(inlined) <==> Collapses(rest);
    if Coerce(Obj(props)).Some? {
      forall k | k in inlined && !k.Unsupported? ensures Coerce(inlined[k]).Some? {
        if k != PROPERTIES { assert k in rest; }
      }
    }
  }

  /** The names the witnesses below are about. */
  lemma NamesOfKeys()
    ensures KeyOf("title") == Unsupported(Title) && KeyOf("anyOf") == AnyOf && KeyOf("$ref") == Ref
    ensures KeyOf("$defs") == Unsupported(Defs) && KeyOf("properties") == PROPERTIES
  {
  }

  /** An object of which only one field changes under inlining. */
  lemma InlinesField(fields: map<Key, Json>, k: Key, v: Json, defs: Definitions)
    requires k in fields && k != Ref && !IsRef(fields) && Resolve(fields[k], defs, {}) == Some(v)
    requires forall l :: l in fields && l != k ==> NoPointers(fields[l])
    ensures Resolve(Obj(fields), defs, {}) == Some(Obj(fields[k := v]))
  {
    forall l | l in fields && l != k ensures Resolve(fields[l], defs, {}) == Some(fields[l]) {
      ResolveKeepsPointerFree(fields[l], defs, {});
    }
    assert Resolve(Obj(fields), defs, {}).Some?;
    assert Resolve(Obj(fields), defs, {}).value.fields == fields[k := v];
  }

  lemma CoerceDropsDefs(properties: Json, table: Json)
    requires Accepted(properties)
    ensures Coerce(Obj(map[PROPERTIES := properties, Unsupported(Defs) := table])) == Some(Obj(map[PROPERTIES := properties]))
  {
    CoerceKeepsAccepted(properties);
    CoerceStrips(map[PROPERTIES := properties, Unsupported(Defs) := table]);
    var r := Coerce(Obj(map[PROPERTIES := properties, Unsupported(Defs) := table]));
    assert r.value.fields == map[PROPERTIES := properties];
  }

  /** A tool schema of parameters and definitions. */
  function Tool(properties: Json, table: Json): map<Key, Json> {
    map[PROPERTIES := properties, Unsupported(Defs) := table]
  }

  lemma ToolCollects(properties: Json, table: Definitions)
    ensures CollectDefs(Tool(properties, Obj(table))) == table
  {
  }

  lemma ToolFields(properties: Json, table: Json, inlined: Json)
    ensures var schema := Tool(properties, table);
            && PROPERTIES in schema && schema[PROPERTIES] == properties && Ref !in schema
            && (forall l :: l in schema && l != PROPERTIES ==> schema[l] == table)
            && schema[PROPERTIES := inlined] == Tool(inlined, table)
  {
  }

  lemma ToolResolves(schema: map<Key, Json>, properties: Json, inlined: Json, table: Definitions)
    requires schema == Tool(properties, Obj(table))
    requires NoPointers(Obj(table)) && Resolve(properties, table, {}) == Some(inlined)
    ensures Resolve(Obj(schema), table, {}) == Some(Obj(Tool(inlined, Obj(table))))
  {
    ToolFields(properties, Obj(table), inlined);
    InlinesField(schema, PROPERTIES, inlined, table);
  }

  /** A tool that is its parameters and pointer-free definitions is coerced to its parameters, inlined. */
  lemma ToolIsItsParameters(properties: Json, inlined: Json, table: Definitions)
    requires NoPointers(Obj(table)) && Accepted(inlined)
    requires Resolve(properties, table, {}) == Some(inlined)
    ensures CoerceToolSchema(Tool(properties, Obj(table))) == Some(Obj(map[PROPERTIES := inlined]))
  {
    ToolCollects(properties, table);
    ToolResolves(Tool(properties, Obj(table)), properties, inlined, table);
    CoerceDropsDefs(inlined, Obj(table));
  }

  /** A tool with one parameter that is a reference to a definition of any accepted type: the parameter has that type. */
  lemma ReferenceIsInlined(k: Key, name: string, t: map<Key, Json>)
    requires !k.Unsupported? && k != AnyOf && k != Ref && Accepted(Obj(t)) && NoPointers(Obj(t))
    ensures var pointer := Obj(map[Ref := Str("#/$defs/" + name)]);
            CoerceToolSchema(Tool(Obj(map[k := pointer]), Obj(map[KeyOf(name) := Obj(t)])))
            == Some(Obj(map[PROPERTIES := Obj(map[k := Obj(t)])]))
  {
    var pointer, table := map[Ref := Str("#/$defs/" + name)], map[KeyOf(name) := Obj(t)];
    var props, inlined := map[k := Obj(pointer)], map[k := Obj(t)];
    PointerIsReplaced(pointer, table, {}, name);
    assert t + (pointer - {Ref}) == t;
    InlinesField(props, k, Obj(t), table);
    assert props[k := Obj(t)] == inlined;
    ToolIsItsParameters(Obj(props), Obj(inlined), table);
  }

  /** A tool with a parameter "title" of any type: the parameter is gone and its neighbour is there. */
  lemma TitleIsLost(t: map<Key, Json>)
    requires Accepted(Obj(t)) && NoPointers(Obj(t))
    ensures var props := map[Unsupported(Title) := Obj(t), Other("unit") := Obj(t)];
            var r := CoerceToolSchema(map[PROPERTIES := Obj(props)]);
            r.Some? && r.value.Obj? && PROPERTIES in r.value.fields && r.value.fields[PROPERTIES].Obj?
            && r.value.fields[PROPERTIES].fields.Keys == {Other("unit")}
  {
    var title, unit := Unsupported(Title), Other("unit");
    var props := map[title := Obj(t), unit := Obj(t)];
    AcceptedIsShaped(Obj(t));
    assert Shaped(Obj(props));
    WellShapedNeverRaises(map[PROPERTIES := Obj(props)]);
    var _ := ParametersKept(map[PROPERTIES := Obj(props)], props);
  }

  lemma {:induction false} AcceptedIsShaped(node: Json)
    requires Accepted(node)
    ensures Shaped(node)
  {
    match node
    case Obj(fields) => forall k | k in fields ensures Shaped(fields[k]) { AcceptedIsShaped(fields[k]); }
    case List(items) => forall i | 0 <= i < |items| ensures Shaped(items[i]) { AcceptedIsShaped(items[i]); }
    case _ =>
  }

  /** A tool with a parameter "anyOf" of any non-empty type: no coercion at all. */
  lemma AnyOfRaises(t: map<Key, Json>)
    requires t != map[] && Accepted(Obj(t)) && NoPointers(Obj(t))
    ensures CoerceToolSchema(map[PROPERTIES := Obj(map[AnyOf := Obj(t)])]).None?
  {
    var props := map[AnyOf := Obj(t)];
    var schema := map[PROPERTIES := Obj(props)];
    assert NoPointers(Obj(props));
    ResolveKeepsPointerFree(Obj(schema), CollectDefs(schema), {});
    CoerceKeepsProperties(schema, props);
    CoerceParameters(props);
    CoerceKeepsAccepted(Obj(t));
  }
}
