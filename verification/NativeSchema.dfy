/** Derivation of the strict variant of a JSON schema, and the pass that turns an answer
    written against the variant back into an answer to the original schema.

    A schema node holds the draft-07 keywords both sides understand: type, enum, const
    (JSON Schema Validation draft-07, sections 6.1.1 to 6.1.3), items (6.4.1), required,
    properties and additionalProperties (6.5.3, 6.5.4, 6.5.6) and anyOf (6.7.2). */
module NativeSchema {

  // ----- JSON values and schema nodes -----

  datatype Value =
    | Null
    | Bool(b: bool)
    | Num(n: real)
    | Str(s: string)
    | Arr(items: seq<Value>)
    | Obj(fields: map<string, Value>)

  datatype TypeName = NullT | BooleanT | IntegerT | NumberT | StringT | ArrayT | ObjectT

  datatype Types = AnyType | OneType(name: TypeName) | TypeList(names: seq<TypeName>)

  datatype Choices = AnyValue | OneOf(values: seq<Value>)

  datatype Pinned = Free | Const(value: Value)

  datatype Items = AnyItems | EachItem(node: Schema)

  datatype Properties = NoProperties | Named(nodes: map<string, Schema>)

  datatype Additional = AnyAdditional | Closed | EachOther(node: Schema)

  datatype AnyOf = NoBranches | Branches(nodes: seq<Schema>)

  datatype Schema = Schema(
    types: Types,
    choices: Choices,
    pinned: Pinned,
    items: Items,
    properties: Properties,
    required: set<string>,
    additional: Additional,
    anyOf: AnyOf)

  // ----- Validity -----

  predicate HasType(v: Value, t: TypeName)
  {
    match t
    case NullT => v.Null?
    case BooleanT => v.Bool?
    case IntegerT => v.Num? && v.n.Floor as real == v.n
    case NumberT => v.Num?
    case StringT => v.Str?
    case ArrayT => v.Arr?
    case ObjectT => v.Obj?
  }

  predicate TypesAccept(types: Types, v: Value)
  {
    match types
    case AnyType => true
    case OneType(t) => HasType(v, t)
    case TypeList(ts) => exists i :: 0 <= i < |ts| && HasType(v, ts[i])
  }

  predicate ChoicesAccept(choices: Choices, v: Value)
  {
    choices.OneOf? ==> v in choices.values
  }

  predicate ItemsAccept(s: Schema, v: Value)
    decreases s, 1
  {
    s.items.EachItem? && v.Arr? ==> forall i :: 0 <= i < |v.items| ==> Valid(s.items.node, v.items[i])
  }

  predicate FieldAccepts(s: Schema, k: string, field: Value)
    decreases s, 0
  {
    if s.properties.Named? && k in s.properties.nodes then Valid(s.properties.nodes[k], field)
    else match s.additional
         case AnyAdditional => true
         case Closed => false
         case EachOther(node) => Valid(node, field)
  }

  predicate FieldsAccept(s: Schema, v: Value)
    decreases s, 1
  {
    v.Obj? ==> s.required <= v.fields.Keys && forall k :: k in v.fields ==> FieldAccepts(s, k, v.fields[k])
  }

  predicate BranchesAccept(s: Schema, v: Value)
    decreases s, 1
  {
    s.anyOf.Branches? ==> exists i :: 0 <= i < |s.anyOf.nodes| && Valid(s.anyOf.nodes[i], v)
  }

  /** v satisfies every keyword of the node. */
  predicate Valid(s: Schema, v: Value)
    decreases s, 2
  {
    && TypesAccept(s.types, v)
    && ChoicesAccept(s.choices, v)
    && (s.pinned.Const? ==> v == s.pinned.value)
    && ItemsAccept(s, v)
    && FieldsAccept(s, v)
    && BranchesAccept(s, v)
  }

  // ----- The strict variant -----

  const NULL_NODE := Schema(OneType(NullT), AnyValue, Free, AnyItems, NoProperties, {}, AnyAdditional, NoBranches)

  predicate AllowsObject(types: Types)
  {
    types == OneType(ObjectT) || (types.TypeList? && ObjectT in types.names)
  }

  /** Strict mode closes this node: it names properties or may be an object. */
  predicate Closing(s: Schema)
  {
    s.properties.Named? || AllowsObject(s.types)
  }

  function Nodes(properties: Properties): map<string, Schema>
  {
    if properties.Named? then properties.nodes else map[]
  }

  /** The code's reading of "this node takes null"; it looks at anyOf alone when there is one, and never at const. */
  predicate AcceptsNull(s: Schema)
  {
    if s.anyOf.Branches? then exists i :: 0 <= i < |s.anyOf.nodes| && AcceptsNull(s.anyOf.nodes[i])
    else if s.choices.OneOf? && Null !in s.choices.values then false
    else match s.types
         case AnyType => true
         case OneType(t) => t == NullT
         case TypeList(ts) => NullT in ts
  }

  function Nullable(s: Schema): Schema
  {
    if AcceptsNull(s) then s
    else if s.anyOf.Branches? then s.(anyOf := Branches(s.anyOf.nodes + [NULL_NODE]))
    else
      s.(types := match s.types
                  case AnyType => AnyType
                  case OneType(t) => TypeList([t, NullT])
                  case TypeList(ts) => TypeList(ts + [NullT]),
         choices := if s.choices.OneOf? then OneOf(s.choices.values + [Null]) else AnyValue)
  }

  function StrictProperty(s: Schema, name: string): Schema
    requires s.properties.Named? && name in s.properties.nodes
    decreases s, 0
  {
    var property := Strict(s.properties.nodes[name]);
    if name in s.required then property else Nullable(property)
  }

  /** The strict-mode variant of a node and all nodes below it. */
  function Strict(s: Schema): Schema
    decreases s, 1
  {
    Schema(
      s.types,
      if s.pinned.Const? then OneOf([s.pinned.value]) else s.choices,
      Free,
      if s.items.EachItem? then EachItem(Strict(s.items.node)) else AnyItems,
      if !Closing(s) then NoProperties
      else if s.properties.Named? then Named(map k | k in s.properties.nodes :: StrictProperty(s, k))
      else Named(map[]),
      if Closing(s) then Nodes(s.properties).Keys else s.required,
      if Closing(s) then Closed else s.additional,
      if s.anyOf.Branches?
      then Branches(seq(|s.anyOf.nodes|, i requires 0 <= i < |s.anyOf.nodes| => Strict(s.anyOf.nodes[i])))
      else NoBranches)
  }

  /** The rewriting as it runs: keyword after keyword, branch after branch. */
  method StrictNode(s: Schema) returns (out: Schema)
    ensures out == Strict(s)
    decreases s, 1
  {
    out := s.(pinned := Free);
    if s.pinned.Const? {
      out := out.(choices := OneOf([s.pinned.value]));
    }
    if s.items.EachItem? {
      var item := StrictNode(s.items.node);
      out := out.(items := EachItem(item));
    }
    if s.anyOf.Branches? {
      var branches: seq<Schema> := [];
      for i := 0 to |s.anyOf.nodes|
        invariant |branches| == i && forall k :: 0 <= k < i ==> branches[k] == Strict(s.anyOf.nodes[k])
      {
        var branch := StrictNode(s.anyOf.nodes[i]);
        branches := branches + [branch];
      }
      assert branches == Strict(s).anyOf.nodes;
      out := out.(anyOf := Branches(branches));
    }
    if !Closing(s) {
      return;
    }
    var closed := map[];
    if s.properties.Named? {
      closed := StrictProperties(s);
    }
    assert closed == Strict(s).properties.nodes;
    out := out.(properties := Named(closed), required := Nodes(s.properties).Keys, additional := Closed);
  }

  /** The properties of an object, in any order; the ones it does not require may be null. */
  method StrictProperties(s: Schema) returns (closed: map<string, Schema>)
    requires s.properties.Named?
    ensures closed == map k | k in s.properties.nodes :: StrictProperty(s, k)
    decreases s, 0
  {
    closed := map[];
    var rest := s.properties.nodes.Keys;
    while rest != {}
      invariant rest <= s.properties.nodes.Keys && closed.Keys == s.properties.nodes.Keys - rest
      invariant forall k :: k in closed ==> closed[k] == StrictProperty(s, k)
      decreases |rest|
    {
      var name :| name in rest;
      var property := StrictNode(s.properties.nodes[name]);
      if name !in s.required {
        property := Nullable(property);
      }
      closed := closed[name := property];
      rest := rest - {name};
    }
  }

  // ----- Turning an answer back -----

  /** The field is null only because strict mode made the model send it. */
  predicate Rejected(s: Schema, name: string, field: Value)
  {
    && s.properties.Named? && name in s.properties.nodes
    && field.Null? && name !in s.required && !AcceptsNull(s.properties.nodes[name])
  }

  function DropField(s: Schema, name: string, field: Value): Value
    decreases s, 0
  {
    if s.properties.Named? && name in s.properties.nodes then Drop(field, s.properties.nodes[name]) else field
  }

  /** The answer without the rejected nulls, at any depth. */
  function Drop(v: Value, s: Schema): Value
    decreases s, 1
  {
    match v
    case Obj(fields) =>
      Obj(map k | k in fields && !Rejected(s, k, fields[k]) :: DropField(s, k, fields[k]))
    case Arr(items) =>
      if s.items.EachItem?
      then Arr(seq(|items|, i requires 0 <= i < |items| => Drop(items[i], s.items.node)))
      else v
    case _ => v
  }

  /** The pass over a decoded answer: the fields of an object are visited in any order, and the flag
      tells whether anything was removed (if nothing was, the answer is passed on byte for byte). */
  method DropRejectedNulls(v: Value, s: Schema) returns (out: Value, changed: bool)
    ensures out == Drop(v, s)
    ensures changed <==> out != v
    decreases s
  {
    out, changed := v, false;
    match v {
      case Obj(fields) =>
        if s.properties.Named? {
          var kept, rest := fields, fields.Keys;
          while rest != {}
            invariant rest <= fields.Keys
            invariant kept.Keys == set k | k in fields && (k in rest || !Rejected(s, k, fields[k]))
            invariant forall k :: k in kept ==>
              kept[k] == if k in rest then fields[k] else DropField(s, k, fields[k])
            invariant changed <==> kept != fields
            decreases rest
          {
            var name :| name in rest;
            assert name in kept && kept[name] == fields[name];
            if name in s.properties.nodes {
              var property := s.properties.nodes[name];
              if fields[name].Null? && name !in s.required && !AcceptsNull(property) {
                kept := kept - {name};
                assert name in fields && name !in kept;
                changed := true;
              } else {
                var item, itemChanged := DropRejectedNulls(fields[name], property);
                ghost var before := kept;
                kept := kept[name := item];
                assert kept[name] == item;
                assert !itemChanged ==> kept == before;
                changed := itemChanged || changed;
                assert itemChanged ==> kept != fields;
                assert before != fields ==> kept != fields by {
                  if before.Keys == fields.Keys && before != fields {
                    var k :| k in fields && before[k] != fields[k];
                    assert kept[k] == before[k];
                  }
                }
              }
            }
            rest := rest - {name};
          }
          out := Obj(kept);
          assert kept == Drop(v, s).fields;
        } else {
          assert fields == Drop(v, s).fields;
        }
      case Arr(items) =>
        if s.items.EachItem? {
          var done: seq<Value> := [];
          while |done| < |items|
            invariant |done| <= |items|
            invariant forall i :: 0 <= i < |done| ==> done[i] == Drop(items[i], s.items.node)
            invariant changed <==> done != items[..|done|]
          {
            ghost var before := done;
            var item, itemChanged := DropRejectedNulls(items[|done|], s.items.node);
            assert items[..|done| + 1] == items[..|done|] + [items[|done|]];
            done := done + [item];
            assert done[..|before|] == before && done[|before|] == item;
            changed := itemChanged || changed;
            assert before != items[..|before|] ==> done != items[..|done|] by {
              if done == items[..|done|] {
                assert done[..|before|] == items[..|done|][..|before|] == items[..|before|];
              }
            }
          }
          out := Arr(done);
          assert items[..|done|] == items;
          assert done == Drop(v, s).items;
        }
      case _ =>
    }
  }

  // ----- Values the pass leaves alone -----

  lemma {:induction false} OnlyAcceptedNulls(s: Schema)
    requires Valid(s, Null)
    ensures AcceptsNull(s)
    decreases s
  {
    if s.anyOf.Branches? {
      var i :| 0 <= i < |s.anyOf.nodes| && Valid(s.anyOf.nodes[i], Null);
      OnlyAcceptedNulls(s.anyOf.nodes[i]);
    }
  }

  /** A value already valid under the original schema comes back unchanged. */
  lemma {:induction false} DropLeavesValid(s: Schema, v: Value)
    requires Valid(s, v)
    ensures Drop(v, s) == v
    decreases s
  {
    match v {
      case Obj(fields) =>
        forall k | k in fields
          ensures !Rejected(s, k, fields[k]) && DropField(s, k, fields[k]) == fields[k]
        {
          assert FieldAccepts(s, k, fields[k]);
          if s.properties.Named? && k in s.properties.nodes {
            DropLeavesValid(s.properties.nodes[k], fields[k]);
            if fields[k].Null? {
              OnlyAcceptedNulls(s.properties.nodes[k]);
            }
          }
        }
        assert Drop(v, s).fields == fields;
      case Arr(items) =>
        if s.items.EachItem? {
          forall i | 0 <= i < |items|
            ensures Drop(items[i], s.items.node) == items[i]
          {
            DropLeavesValid(s.items.node, items[i]);
          }
          assert Drop(v, s).items == items;
        }
      case _ =>
    }
  }

  lemma DropKeepsNulls(v: Value, s: Schema)
    ensures Drop(v, s).Null? <==> v.Null?
  {
  }

  /** A second pass finds nothing to remove. */
  lemma {:induction false} DropIdempotent(v: Value, s: Schema)
    ensures Drop(Drop(v, s), s) == Drop(v, s)
    decreases s
  {
    match v {
      case Obj(fields) =>
        var once := Drop(Obj(fields), s).fields;
        forall k | k in once
          ensures !Rejected(s, k, once[k]) && DropField(s, k, once[k]) == once[k]
        {
          assert once[k] == DropField(s, k, fields[k]);
          if s.properties.Named? && k in s.properties.nodes {
            assert once[k] == Drop(fields[k], s.properties.nodes[k]);
            DropKeepsNulls(fields[k], s.properties.nodes[k]);
            DropIdempotent(fields[k], s.properties.nodes[k]);
          } else {
            assert once[k] == fields[k];
          }
        }
        assert Drop(Obj(once), s).fields == once;
      case Arr(items) =>
        if s.items.EachItem? {
          var once := Drop(v, s).items;
          forall i | 0 <= i < |items|
            ensures Drop(once[i], s.items.node) == once[i]
          {
            DropIdempotent(items[i], s.items.node);
          }
          assert Drop(Arr(once), s).items == once;
        }
      case _ =>
    }
  }

  // ----- The class of schemas the variant is sound for -----

  predicate Scalar(v: Value)
  {
    !v.Arr? && !v.Obj?
  }

  predicate ScalarValues(s: Schema)
  {
    && (s.choices.OneOf? ==> forall i :: 0 <= i < |s.choices.values| ==> Scalar(s.choices.values[i]))
    && (s.pinned.Const? ==> Scalar(s.pinned.value))
  }

  /** A node that cannot tell two objects apart. */
  predicate ShapeOnly(s: Schema)
  {
    && ScalarValues(s)
    && s.properties.NoProperties? && s.required == {} && s.additional.AnyAdditional?
    && (s.items.EachItem? ==> ShapeOnly(s.items.node))
    && (s.anyOf.Branches? ==> forall i :: 0 <= i < |s.anyOf.nodes| ==> ShapeOnly(s.anyOf.nodes[i]))
  }

  /** The variant lets this property be null, and the pass takes it out when it is. */
  predicate Sheds(s: Schema, name: string)
  {
    && s.properties.Named? && name in s.properties.nodes && name !in s.required
    && !AcceptsNull(s.properties.nodes[name]) && Valid(StrictProperty(s, name), Null)
  }

  /** No property below the node is ever taken out. */
  predicate PassThrough(s: Schema)
  {
    && (s.items.EachItem? ==> PassThrough(s.items.node))
    && (s.properties.Named? ==> forall k :: k in s.properties.nodes ==> !Sheds(s, k) && PassThrough(s.properties.nodes[k]))
  }

  /** The values the variant lists: a constant replaces the enum. */
  function StrictValues(s: Schema): seq<Value>
  {
    if s.pinned.Const? then [s.pinned.value] else if s.choices.OneOf? then s.choices.values else []
  }

  /** What becomes of the value is still one the node lists. */
  predicate ValueKept(s: Schema, v: Value)
  {
    ChoicesAccept(s.choices, Drop(v, s)) && (s.pinned.Const? ==> Drop(v, s) == s.pinned.value)
  }

  predicate ValuesKept(s: Schema)
  {
    forall u :: u in StrictValues(s) && Valid(Strict(s), u) ==> ValueKept(s, u)
  }

  /** A null the pass leaves in place is one the property takes. */
  predicate NullsKept(s: Schema)
  {
    s.properties.Named? ==>
      forall k :: k in s.properties.nodes && k !in s.required && AcceptsNull(s.properties.nodes[k]) && Valid(StrictProperty(s, k), Null)
        ==> Valid(s.properties.nodes[k], Null)
  }

  /** Every required name is one the closed node may carry. */
  predicate RequiredNamed(s: Schema)
  {
    Closing(s) ==> s.required <= Nodes(s.properties).Keys
  }

  /** The pass does not look into branches: there must be nothing to take out below them, nor, unless they are blind to
      the fields of objects, beside them. */
  predicate BranchesKept(s: Schema)
  {
    s.anyOf.Branches? ==>
      && (forall i :: 0 <= i < |s.anyOf.nodes| ==> PassThrough(s.anyOf.nodes[i]))
      && (PassThrough(s) || forall i :: 0 <= i < |s.anyOf.nodes| ==> ShapeOnly(s.anyOf.nodes[i]))
  }

  /** What a caller can check of a schema before relying on its strict variant. */
  predicate Supported(s: Schema)
    decreases s, 1
  {
    RequiredNamed(s) && ValuesKept(s) && SupportedBesides(s)
  }

  /** Supported, apart from the required names and the listed values of the node itself. */
  predicate SupportedBesides(s: Schema)
    decreases s, 0
  {
    && NullsKept(s)
    && BranchesKept(s)
    && (s.items.EachItem? ==> Supported(s.items.node))
    && (s.properties.Named? ==> forall k :: k in s.properties.nodes ==> Supported(s.properties.nodes[k]))
    && (s.anyOf.Branches? ==> forall i :: 0 <= i < |s.anyOf.nodes| ==> Supported(s.anyOf.nodes[i]))
  }

  // ----- Soundness -----

  ghost predicate SameShape(v: Value, w: Value)
  {
    match v
    case Obj(_) => w.Obj?
    case Arr(items) => w.Arr? && |w.items| == |items| && forall i :: 0 <= i < |items| ==> SameShape(items[i], w.items[i])
    case _ => w == v
  }

  lemma {:induction false} ShapeRefl(v: Value)
    ensures SameShape(v, v)
  {
    if v.Arr? {
      forall i | 0 <= i < |v.items| { ShapeRefl(v.items[i]); }
    }
  }

  lemma {:induction false} DropSameShape(v: Value, s: Schema)
    ensures SameShape(v, Drop(v, s))
    decreases s
  {
    if v.Arr? && s.items.EachItem? {
      forall i | 0 <= i < |v.items| { DropSameShape(v.items[i], s.items.node); }
    } else {
      ShapeRefl(v);
    }
  }

  lemma {:induction false} ShapeOnlyBlind(s: Schema, v: Value, w: Value)
    requires ShapeOnly(s) && SameShape(v, w) && Valid(s, v)
    ensures Valid(s, w)
    decreases s
  {
    assert TypesAccept(s.types, w) by {
      if s.types.TypeList? {
        var i :| 0 <= i < |s.types.names| && HasType(v, s.types.names[i]);
        assert HasType(w, s.types.names[i]);
      }
    }
    if s.items.EachItem? && v.Arr? {
      forall i | 0 <= i < |v.items|
        ensures Valid(s.items.node, w.items[i])
      {
        ShapeOnlyBlind(s.items.node, v.items[i], w.items[i]);
      }
    }
    if s.anyOf.Branches? {
      var i :| 0 <= i < |s.anyOf.nodes| && Valid(s.anyOf.nodes[i], v);
      ShapeOnlyBlind(s.anyOf.nodes[i], v, w);
    }
  }

  /** Making a node nullable lets in null and nothing else. */
  lemma NullableAddsOnlyNull(s: Schema, v: Value)
    requires Valid(Nullable(s), v) && !v.Null?
    ensures Valid(s, v)
  {
    var n := Nullable(s);
    if n != s {
      if s.anyOf.Branches? {
        var i :| 0 <= i < |n.anyOf.nodes| && Valid(n.anyOf.nodes[i], v);
        assert i < |s.anyOf.nodes| by {
          assert !TypesAccept(NULL_NODE.types, v);
        }
        assert Valid(s.anyOf.nodes[i], v);
      } else {
        assert TypesAccept(s.types, v) by {
          if s.types.OneType? {
            var i :| 0 <= i < |n.types.names| && HasType(v, n.types.names[i]);
          } else if s.types.TypeList? {
            var i :| 0 <= i < |n.types.names| && HasType(v, n.types.names[i]);
            assert n.types.names[i] == s.types.names[i];
          }
        }
      }
      assert ItemsAccept(s, v) by { assert ItemsAccept(n, v); }
      assert FieldsAccept(s, v) by {
        assert FieldsAccept(n, v);
        if v.Obj? {
          forall k | k in v.fields
            ensures FieldAccepts(s, k, v.fields[k])
          {
            assert FieldAccepts(n, k, v.fields[k]);
          }
        }
      }
    }
  }

  lemma StrictPropertyOf(s: Schema, k: string)
    requires s.properties.Named? && k in s.properties.nodes
    ensures Strict(s).properties.Named? && k in Strict(s).properties.nodes
    ensures Strict(s).properties.nodes[k] == StrictProperty(s, k)
  {
  }

  /** What the variant accepts for a property that is not null is accepted by the property's own variant. */
  lemma PropertyAccepts(s: Schema, k: string, v: Value)
    requires s.properties.Named? && k in s.properties.nodes && v.Obj? && k in v.fields && Valid(Strict(s), v)
    ensures Valid(StrictProperty(s, k), v.fields[k])
    ensures k in s.required || !v.fields[k].Null? ==> Valid(Strict(s.properties.nodes[k]), v.fields[k])
  {
    assert FieldsAccept(Strict(s), v);
    assert FieldAccepts(Strict(s), k, v.fields[k]);
    StrictPropertyOf(s, k);
    if k !in s.required && !v.fields[k].Null? {
      NullableAddsOnlyNull(Strict(s.properties.nodes[k]), v.fields[k]);
    }
  }

  lemma {:induction false} NothingShed(s: Schema, v: Value)
    requires PassThrough(s) && Valid(Strict(s), v)
    ensures Drop(v, s) == v
    decreases s
  {
    match v {
      case Obj(fields) =>
        forall k | k in fields
          ensures !Rejected(s, k, fields[k]) && DropField(s, k, fields[k]) == fields[k]
        {
          if s.properties.Named? && k in s.properties.nodes {
            PropertyAccepts(s, k, v);
            assert !Sheds(s, k);
            if !fields[k].Null? { NothingShed(s.properties.nodes[k], fields[k]); }
          }
        }
        assert Drop(v, s).fields == fields;
      case Arr(items) =>
        if s.items.EachItem? {
          forall i | 0 <= i < |items|
            ensures Drop(items[i], s.items.node) == items[i]
          {
            assert Valid(Strict(s).items.node, items[i]);
            NothingShed(s.items.node, items[i]);
          }
          assert Drop(v, s).items == items;
        }
      case _ =>
    }
  }

  /** Main result: an answer accepted by the strict variant, put through the pass, satisfies the original schema. */
  lemma StrictSound(s: Schema, v: Value)
    requires Supported(s) && Valid(Strict(s), v)
    ensures Valid(s, Drop(v, s))
  {
    ListedKept(s, v);
    AnswerSound(s, v);
  }

  lemma ListedKept(s: Schema, v: Value)
    requires ValuesKept(s) && Valid(Strict(s), v)
    ensures ValueKept(s, v)
  {
    if s.pinned.Const? || s.choices.OneOf? {
      assert ChoicesAccept(Strict(s).choices, v);
      assert v in StrictValues(s);
    }
  }

  /** The same for one answer, with what it needs of the node's required names and listed values. */
  lemma {:induction false} AnswerSound(s: Schema, v: Value)
    requires SupportedBesides(s) && Valid(Strict(s), v)
    requires (v.Obj? ==> RequiredNamed(s)) && ValueKept(s, v)
    ensures Valid(s, Drop(v, s))
    decreases s, 1
  {
    var w := Drop(v, s);
    assert TypesAccept(s.types, w) by {
      if s.types.TypeList? {
        var i :| 0 <= i < |s.types.names| && HasType(v, s.types.names[i]);
        assert HasType(w, s.types.names[i]);
      }
    }
    assert ItemsAccept(s, w) by {
      if s.items.EachItem? && v.Arr? {
        forall i | 0 <= i < |v.items|
          ensures Valid(s.items.node, w.items[i])
        {
          assert Valid(Strict(s).items.node, v.items[i]);
          ListedKept(s.items.node, v.items[i]);
          AnswerSound(s.items.node, v.items[i]);
        }
      }
    }
    assert FieldsAccept(s, w) by { SoundFields(s, v); }
    assert BranchesAccept(s, w) by {
      if s.anyOf.Branches? { SoundBranches(s, v); }
    }
  }

  lemma {:induction false} SoundFields(s: Schema, v: Value)
    requires SupportedBesides(s) && (v.Obj? ==> RequiredNamed(s)) && Valid(Strict(s), v)
    ensures FieldsAccept(s, Drop(v, s))
    decreases s, 0
  {
    if v.Obj? {
      assert FieldsAccept(Strict(s), v);
      forall k | k in Drop(v, s).fields
        ensures FieldAccepts(s, k, Drop(v, s).fields[k])
      {
        assert FieldAccepts(Strict(s), k, v.fields[k]);
        if Closing(s) {
          assert k in s.properties.nodes;
          SoundField(s, k, v);
        }
      }
    }
  }

  lemma {:induction false} SoundField(s: Schema, k: string, v: Value)
    requires SupportedBesides(s) && Valid(Strict(s), v) && v.Obj? && k in v.fields
    requires s.properties.Named? && k in s.properties.nodes && !Rejected(s, k, v.fields[k])
    ensures Valid(s.properties.nodes[k], Drop(v.fields[k], s.properties.nodes[k]))
    decreases s, 0, 0
  {
    PropertyAccepts(s, k, v);
    if k in s.required || !v.fields[k].Null? {
      ListedKept(s.properties.nodes[k], v.fields[k]);
      AnswerSound(s.properties.nodes[k], v.fields[k]);
    }
  }

  lemma {:induction false} SoundBranches(s: Schema, v: Value)
    requires SupportedBesides(s) && Valid(Strict(s), v) && s.anyOf.Branches?
    ensures BranchesAccept(s, Drop(v, s))
    decreases s, 0
  {
    var strict := Strict(s);
    assert BranchesAccept(strict, v);
    var i :| 0 <= i < |strict.anyOf.nodes| && Valid(strict.anyOf.nodes[i], v);
    var branch := s.anyOf.nodes[i];
    ListedKept(branch, v);
    AnswerSound(branch, v);
    NothingShed(branch, v);
    if PassThrough(s) {
      NothingShed(s, v);
    } else {
      DropSameShape(v, s);
      ShapeOnlyBlind(branch, v, Drop(v, s));
    }
    assert Valid(s.anyOf.nodes[i], Drop(v, s));
  }

  // ----- Where soundness fails, and exactly when -----

  /** For a node supported otherwise, an answer comes back valid exactly when its required names are all named and what
      becomes of it is still listed. */
  lemma AnswerExact(s: Schema, v: Value)
    requires SupportedBesides(s) && Valid(Strict(s), v)
    ensures Valid(s, Drop(v, s)) <==> (v.Obj? ==> RequiredNamed(s)) && ValueKept(s, v)
  {
    if v.Obj? && !RequiredNamed(s) {
      var k :| k in s.required && k !in Nodes(s.properties);
      assert k !in v.fields by {
        assert forall j :: j in v.fields ==> FieldAccepts(Strict(s), j, v.fields[j]);
      }
      assert k !in Drop(v, s).fields;
    } else if ValueKept(s, v) {
      AnswerSound(s, v);
    }
  }

  /** A closed node that requires a name it does not list has no sound variant for objects, whatever else holds. */
  lemma RequiredExact(s: Schema, v: Value)
    requires SupportedBesides(s) && ValuesKept(s) && Valid(Strict(s), v)
    ensures Valid(s, Drop(v, s)) <==> (v.Obj? ==> RequiredNamed(s))
  {
    ListedKept(s, v);
    AnswerExact(s, v);
  }

  /** Every answer comes back valid. */
  ghost predicate AllComeBack(s: Schema)
  {
    forall v :: Valid(Strict(s), v) ==> Valid(s, Drop(v, s))
  }

  /** Enums and constants: for a node supported otherwise, every answer comes back valid if and only if every listed
      value the variant accepts becomes a listed value, the constant staying itself. */
  lemma ValuesExact(s: Schema)
    requires SupportedBesides(s) && RequiredNamed(s)
    ensures AllComeBack(s) <==> ValuesKept(s)
  {
    if ValuesKept(s) {
      forall v | Valid(Strict(s), v) { StrictSound(s, v); }
    }
    if AllComeBack(s) {
      forall u | u in StrictValues(s) && Valid(Strict(s), u)
        ensures ValueKept(s, u)
      {
        assert Valid(s, Drop(u, s));
      }
    }
  }

  /** In particular, a constant that its own variant accepts and the pass leaves alone must be in the enum beside it,
      because the variant gives that enum up. */
  lemma ConstOutsideEnum(s: Schema)
    requires SupportedBesides(s) && RequiredNamed(s)
    requires s.pinned.Const? && Valid(Strict(s), s.pinned.value) && Drop(s.pinned.value, s) == s.pinned.value
    ensures AllComeBack(s) <==> ChoicesAccept(s.choices, s.pinned.value)
  {
    ValuesExact(s);
    assert StrictValues(s)[0] == s.pinned.value;
  }

  /** A null sent for an optional pinned property is dealt with exactly when the property does not claim to take
      null or is pinned to null; a property that claims it wrongly does get such answers. */
  lemma PinnedNullExact(s: Schema, name: string)
    requires s.properties.Named? && name in s.properties.nodes && name !in s.required
    requires s.properties.nodes[name].pinned.Const? && s.properties.nodes[name].anyOf.NoBranches?
    ensures var p := s.properties.nodes[name];
      var wrong := AcceptsNull(p) && !p.pinned.value.Null?;
      && (Rejected(s, name, Null) || Valid(p, Null) <==> !wrong)
      && (wrong ==> Valid(StrictProperty(s, name), Null))
  {
    var p := s.properties.nodes[name];
    var n := Nullable(Strict(p));
    if AcceptsNull(p) {
      assert TypesAccept(p.types, Null);
      if p.pinned.value.Null? {
        assert FieldsAccept(p, Null) && BranchesAccept(p, Null);
        assert Valid(p, Null);
      } else {
        assert n.choices.values[1] == Null;
        assert TypesAccept(n.types, Null) by {
          match p.types
          case AnyType =>
          case OneType(t) => assert HasType(Null, n.types.names[1]);
          case TypeList(ts) => assert HasType(Null, n.types.names[|ts|]);
        }
        assert FieldsAccept(n, Null) && BranchesAccept(n, Null);
        assert Valid(n, Null);
      }
    }
  }

  /** A pinned value agrees with what the code reads off enum and type. */
  predicate ConstAgrees(s: Schema)
  {
    s.pinned.Const? ==>
      && ChoicesAccept(s.choices, s.pinned.value)
      && (s.anyOf.NoBranches? && AcceptsNull(s) ==> s.pinned.value.Null?)
  }

  lemma AgreeingConstKeepsNull(s: Schema, name: string)
    requires s.properties.Named? && name in s.properties.nodes && name !in s.required
    requires s.properties.nodes[name].pinned.Const? && s.properties.nodes[name].anyOf.NoBranches?
    requires ConstAgrees(s.properties.nodes[name])
    ensures AcceptsNull(s.properties.nodes[name]) ==> Valid(s.properties.nodes[name], Null)
  {
    PinnedNullExact(s, name);
  }

  // ----- Branches, exactly -----

  /** A node that is nothing but one alternative. */
  function Only(branch: Schema): Schema
  {
    Schema(AnyType, AnyValue, Free, AnyItems, NoProperties, {}, AnyAdditional, Branches([branch]))
  }

  lemma OnlyMeans(branch: Schema, v: Value)
    ensures Valid(Only(branch), v) <==> Valid(branch, v)
    ensures Valid(Strict(Only(branch)), v) <==> Valid(Strict(branch), v)
    ensures Drop(v, Only(branch)) == v
  {
    var s := Only(branch);
    assert s.anyOf.nodes[0] == branch;
    assert Strict(s).anyOf.nodes[0] == Strict(branch);
    assert FieldsAccept(s, v) && FieldsAccept(Strict(s), v);
    if v.Obj? {
      assert Drop(v, s).fields == v.fields;
    }
    assert BranchesAccept(s, v) <==> Valid(branch, v);
    assert BranchesAccept(Strict(s), v) <==> Valid(Strict(branch), v);
  }

  /** The pass, had it looked into the branch, would have found nothing to take out of any answer. */
  ghost predicate NeverSheds(branch: Schema)
  {
    forall v :: Valid(Strict(branch), v) ==> Drop(v, branch) == v
  }

  /** For a single supported branch, every answer comes back valid if and only if the pass overlooks nothing in it. */
  lemma BranchExact(branch: Schema)
    requires Supported(branch)
    ensures AllComeBack(Only(branch)) <==> NeverSheds(branch)
  {
    if AllComeBack(Only(branch)) {
      forall v | Valid(Strict(branch), v)
        ensures Drop(v, branch) == v
      {
        OnlyMeans(branch, v);
        assert Valid(Only(branch), Drop(v, Only(branch)));
        DropLeavesValid(branch, v);
      }
    }
    if NeverSheds(branch) {
      forall v | Valid(Strict(Only(branch)), v)
        ensures Valid(Only(branch), Drop(v, Only(branch)))
      {
        OnlyMeans(branch, v);
        assert Drop(v, branch) == v;
        StrictSound(branch, v);
      }
    }
  }

  /** Nothing but its type and properties restricts the node. */
  predicate Open(s: Schema)
  {
    s.choices.AnyValue? && s.pinned.Free? && s.anyOf.NoBranches?
  }

  /** The value has a property, at some depth, that may be null and would then be taken out. */
  predicate Touches(s: Schema, v: Value)
  {
    && Open(s)
    && match v
       case Obj(fields) =>
         s.properties.Named? &&
         exists k :: k in s.properties.nodes && k in fields && (Sheds(s, k) || Touches(s.properties.nodes[k], fields[k]))
       case Arr(items) => s.items.EachItem? && exists i :: 0 <= i < |items| && Touches(s.items.node, items[i])
       case _ => false
  }

  lemma {:induction false} SomethingShed(s: Schema, v: Value) returns (w: Value)
    requires Valid(Strict(s), v) && Touches(s, v)
    ensures Valid(Strict(s), w) && Drop(w, s) != w && !w.Null?
    decreases s
  {
    match v {
      case Obj(fields) =>
        var k :| k in s.properties.nodes && k in fields && (Sheds(s, k) || Touches(s.properties.nodes[k], fields[k]));
        PropertyAccepts(s, k, v);
        var field := Null;
        if !Sheds(s, k) {
          field := SomethingShed(s.properties.nodes[k], fields[k]);
          if k !in s.required { NullableKeeps(Strict(s.properties.nodes[k]), field); }
        }
        w := Obj(fields[k := field]);
        ReplacedField(s, fields, k, field);
        assert w.fields[k] == field;
        assert k !in Drop(w, s).fields || Drop(w, s).fields[k] == Drop(field, s.properties.nodes[k]);
        assert field.Null? ==> Rejected(s, k, field);
      case Arr(items) =>
        var i :| 0 <= i < |items| && Touches(s.items.node, items[i]);
        assert Valid(Strict(s).items.node, items[i]);
        var item := SomethingShed(s.items.node, items[i]);
        w := Arr(items[i := item]);
        ReplacedItem(s, items, i, item);
        assert w.items[i] == item && Drop(w, s).items[i] == Drop(item, s.items.node);
    }
  }

  lemma ReplacedField(s: Schema, fields: map<string, Value>, k: string, field: Value)
    requires Open(s) && Valid(Strict(s), Obj(fields)) && s.properties.Named? && k in s.properties.nodes && k in fields
    requires Valid(StrictProperty(s, k), field)
    ensures Valid(Strict(s), Obj(fields[k := field]))
  {
    var v, w, strict := Obj(fields), Obj(fields[k := field]), Strict(s);
    SameTypeAccepted(s.types, v, w);
    assert strict.properties.nodes[k] == StrictProperty(s, k);
    forall j | j in w.fields
      ensures FieldAccepts(strict, j, w.fields[j])
    {
      assert FieldAccepts(strict, j, v.fields[j]);
    }
  }

  lemma ReplacedItem(s: Schema, items: seq<Value>, i: nat, item: Value)
    requires Open(s) && Valid(Strict(s), Arr(items)) && s.items.EachItem? && i < |items|
    requires Valid(Strict(s.items.node), item)
    ensures Valid(Strict(s), Arr(items[i := item]))
  {
    var v, w, strict := Arr(items), Arr(items[i := item]), Strict(s);
    SameTypeAccepted(s.types, v, w);
    assert ItemsAccept(strict, v);
    assert ItemsAccept(strict, w);
  }

  lemma SameTypeAccepted(types: Types, v: Value, w: Value)
    requires TypesAccept(types, v) && ((v.Obj? && w.Obj?) || (v.Arr? && w.Arr?))
    ensures TypesAccept(types, w)
  {
    if types.TypeList? {
      var i :| 0 <= i < |types.names| && HasType(v, types.names[i]);
      assert HasType(w, types.names[i]);
    }
  }

  /** Nulls the pass leaves in place: if the node accepts an object at all, every answer comes back valid if and only if
      each optional property that the code reads as taking null, and whose variant does, takes null itself. */
  lemma NullsExact(s: Schema, fields: map<string, Value>)
    requires Open(s) && s.properties.Named? && RequiredNamed(s) && Valid(Strict(s), Obj(fields))
    requires (s.items.EachItem? ==> Supported(s.items.node)) && forall k :: k in s.properties.nodes ==> Supported(s.properties.nodes[k])
    ensures AllComeBack(s) <==> NullsKept(s)
  {
    if NullsKept(s) {
      forall v | Valid(Strict(s), v) { StrictSound(s, v); }
    } else {
      var k :| k in s.properties.nodes && k !in s.required && AcceptsNull(s.properties.nodes[k])
        && Valid(StrictProperty(s, k), Null) && !Valid(s.properties.nodes[k], Null);
      assert k in fields by {
        assert FieldsAccept(Strict(s), Obj(fields));
      }
      ReplacedField(s, fields, k, Null);
      NullStays(s, fields[k := Null], k);
    }
  }

  lemma NullStays(s: Schema, fields: map<string, Value>, k: string)
    requires s.properties.Named? && k in s.properties.nodes && AcceptsNull(s.properties.nodes[k]) && !Valid(s.properties.nodes[k], Null)
    requires k in fields && fields[k] == Null
    ensures !Valid(s, Drop(Obj(fields), s))
  {
    var w := Drop(Obj(fields), s);
    assert !Rejected(s, k, Null) && DropField(s, k, Null) == Null;
    assert k in w.fields && w.fields[k] == Null;
    assert !FieldAccepts(s, k, w.fields[k]);
    assert !FieldsAccept(s, w);
  }

  /** If what can be taken out of a branch is within reach of an answer, then every answer comes back valid if and only
      if nothing can be: every property below the branch is required, or takes null, or cannot be null. */
  lemma BranchPropertiesExact(branch: Schema)
    requires Supported(branch)
    requires PassThrough(branch) || exists v :: Valid(Strict(branch), v) && Touches(branch, v)
    ensures AllComeBack(Only(branch)) <==> PassThrough(branch)
  {
    BranchExact(branch);
    if PassThrough(branch) {
      forall v | Valid(Strict(branch), v) { NothingShed(branch, v); }
    } else {
      var v :| Valid(Strict(branch), v) && Touches(branch, v);
      var w := SomethingShed(branch, v);
    }
  }

  /** A branch that only asks for names. */
  function Requiring(names: set<string>): Schema
  {
    Schema(AnyType, AnyValue, Free, AnyItems, NoProperties, names, AnyAdditional, NoBranches)
  }

  predicate BranchesRequire(s: Schema)
  {
    s.anyOf.Branches? && forall i :: 0 <= i < |s.anyOf.nodes| ==> s.anyOf.nodes[i] == Requiring(s.anyOf.nodes[i].required)
  }

  function Unbranched(s: Schema): Schema
  {
    s.(anyOf := NoBranches)
  }

  lemma RequiringMeans(names: set<string>, v: Value)
    ensures Valid(Requiring(names), v) <==> (v.Obj? ==> names <= v.fields.Keys)
    ensures Strict(Requiring(names)) == Requiring(names)
  {
    var s := Requiring(names);
    assert v.Obj? ==> forall k :: k in v.fields ==> FieldAccepts(s, k, v.fields[k]);
    assert FieldsAccept(s, v) <==> (v.Obj? ==> names <= v.fields.Keys);
  }

  lemma UnbranchedMeans(s: Schema, v: Value)
    ensures Drop(v, Unbranched(s)) == Drop(v, s)
    ensures Valid(s, v) <==> Valid(Unbranched(s), v) && BranchesAccept(s, v)
  {
    var u := Unbranched(s);
    match v {
      case Obj(fields) =>
        assert forall k :: k in fields ==> (Rejected(s, k, fields[k]) <==> Rejected(u, k, fields[k]));
        assert forall k :: k in fields ==> DropField(s, k, fields[k]) == DropField(u, k, fields[k]);
        assert Drop(v, u).fields == Drop(v, s).fields;
        assert forall k :: k in fields ==> (FieldAccepts(s, k, fields[k]) <==> FieldAccepts(u, k, fields[k]));
      case _ =>
    }
    assert FieldsAccept(s, v) <==> FieldsAccept(u, v);
    assert ItemsAccept(s, v) <==> ItemsAccept(u, v);
  }

  lemma StrictUnbranched(s: Schema)
    ensures Strict(Unbranched(s)) == Unbranched(Strict(s))
  {
    var u := Unbranched(s);
    if s.properties.Named? {
      forall k | k in s.properties.nodes
        ensures StrictProperty(u, k) == StrictProperty(s, k)
      {
      }
      assert Strict(u).properties.nodes == Strict(s).properties.nodes;
    }
  }

  /** The answer with every property set to null that would then be taken out. */
  function Emptied(s: Schema, fields: map<string, Value>): map<string, Value>
  {
    map k | k in fields :: if Sheds(s, k) then Null else fields[k]
  }

  lemma EmptiedAccepted(s: Schema, fields: map<string, Value>)
    requires s.properties.Named? && BranchesRequire(s) && s.choices.AnyValue? && s.pinned.Free?
    requires Valid(Strict(s), Obj(fields))
    ensures Valid(Strict(s), Obj(Emptied(s, fields)))
  {
    var v, w, strict := Obj(fields), Obj(Emptied(s, fields)), Strict(s);
    SameTypeAccepted(s.types, v, w);
    assert w.fields.Keys == v.fields.Keys;
    forall k | k in w.fields
      ensures FieldAccepts(strict, k, w.fields[k])
    {
      assert FieldAccepts(strict, k, v.fields[k]);
      assert k in s.properties.nodes && strict.properties.nodes[k] == StrictProperty(s, k);
    }
    assert FieldsAccept(strict, w);
    var i :| 0 <= i < |strict.anyOf.nodes| && Valid(strict.anyOf.nodes[i], v);
    RequiringMeans(s.anyOf.nodes[i].required, v);
    RequiringMeans(s.anyOf.nodes[i].required, w);
    assert Valid(strict.anyOf.nodes[i], w);
  }

  /** Some branch asks only for names that are never taken out. */
  predicate BranchAlwaysMet(s: Schema)
    requires s.anyOf.Branches?
  {
    exists i :: 0 <= i < |s.anyOf.nodes| && RequiresKept(s, s.anyOf.nodes[i].required)
  }

  predicate RequiresKept(s: Schema, names: set<string>)
  {
    forall k :: k in names ==> k in Nodes(s.properties) && !Sheds(s, k)
  }

  /** Branches that ask for names: if the node accepts an object at all, every answer comes back valid if and only if
      some branch asks only for properties that are never taken out. */
  lemma BranchRequiredExact(s: Schema, fields: map<string, Value>)
    requires s.properties.Named? && BranchesRequire(s) && s.choices.AnyValue? && s.pinned.Free?
    requires Supported(Unbranched(s)) && Valid(Strict(s), Obj(fields))
    ensures AllComeBack(s) <==> BranchAlwaysMet(s)
  {
    if BranchAlwaysMet(s) {
      forall v | Valid(Strict(s), v)
        ensures Valid(s, Drop(v, s))
      {
        MetComesBack(s, v);
      }
    } else {
      EmptiedAccepted(s, fields);
      EmptiedFails(s, fields);
    }
  }

  lemma MetComesBack(s: Schema, v: Value)
    requires s.properties.Named? && BranchesRequire(s) && Supported(Unbranched(s)) && Valid(Strict(s), v) && BranchAlwaysMet(s)
    ensures Valid(s, Drop(v, s))
  {
    StrictUnbranched(s);
    UnbranchedMeans(Strict(s), v);
    StrictSound(Unbranched(s), v);
    UnbranchedMeans(s, v);
    UnbranchedMeans(s, Drop(v, s));
    var i :| 0 <= i < |s.anyOf.nodes| && RequiresKept(s, s.anyOf.nodes[i].required);
    var names := s.anyOf.nodes[i].required;
    if v.Obj? {
      assert FieldsAccept(Strict(s), v);
      forall k | k in names
        ensures k in Drop(v, s).fields
      {
        assert !Sheds(s, k) && k in v.fields;
        PropertyAccepts(s, k, v);
      }
    }
    RequiringMeans(names, Drop(v, s));
    assert Valid(s.anyOf.nodes[i], Drop(v, s));
  }

  lemma EmptiedFails(s: Schema, fields: map<string, Value>)
    requires s.properties.Named? && BranchesRequire(s) && !BranchAlwaysMet(s)
    requires Valid(Strict(s), Obj(Emptied(s, fields)))
    ensures !AllComeBack(s)
  {
    var v := Obj(Emptied(s, fields));
    var w := Drop(v, s);
    forall i | 0 <= i < |s.anyOf.nodes|
      ensures !Valid(s.anyOf.nodes[i], w)
    {
      var names := s.anyOf.nodes[i].required;
      assert !RequiresKept(s, names);
      var k :| k in names && !(k in Nodes(s.properties) && !Sheds(s, k));
      assert k in v.fields ==> FieldAccepts(Strict(s), k, v.fields[k]);
      assert k !in w.fields;
      RequiringMeans(names, w);
    }
    assert !BranchesAccept(s, w);
  }

  function Leaf(t: TypeName): Schema
  {
    Schema(OneType(t), AnyValue, Free, AnyItems, NoProperties, {}, AnyAdditional, NoBranches)
  }

  function Record(properties: map<string, Schema>): Schema
  {
    Schema(OneType(ObjectT), AnyValue, Free, AnyItems, Named(properties), {}, AnyAdditional, NoBranches)
  }

  /** The variant makes properties of an anyOf branch nullable, but the pass does not look into branches. */
  lemma BranchPropertiesFail(name: string) returns (s: Schema, v: Value)
    ensures s.anyOf.Branches? && s.anyOf.nodes == [Record(map[name := Leaf(StringT)])]
    ensures Valid(Strict(s), v) && !Valid(s, Drop(v, s))
  {
    var branch := Record(map[name := Leaf(StringT)]);
    s := Only(branch);
    v := Obj(map[name := Null]);
    NullPropertyAccepted(branch, name);
    assert Strict(s).anyOf.nodes[0] == Strict(branch);
    assert Valid(Strict(s).anyOf.nodes[0], v);
    OnlyMeans(branch, v);
    assert !Valid(Leaf(StringT), Null) by { assert !TypesAccept(OneType(StringT), Null); }
    assert !FieldAccepts(branch, name, v.fields[name]);
    assert !Valid(branch, v);
  }

  lemma LeafNullable(t: TypeName)
    requires t != NullT
    ensures Valid(Nullable(Strict(Leaf(t))), Null)
  {
    assert Strict(Leaf(t)).types == OneType(t);
    var n := Nullable(Strict(Leaf(t)));
    assert n.types == TypeList([t, NullT]);
    assert HasType(Null, n.types.names[1]);
  }

  lemma NullPropertyAccepted(s: Schema, name: string)
    requires s == Record(map[name := Leaf(StringT)])
    ensures Valid(Strict(s), Obj(map[name := Null]))
  {
    LeafNullable(StringT);
    assert StrictProperty(s, name) == Nullable(Strict(Leaf(StringT)));
    var v := Obj(map[name := Null]);
    forall k | k in v.fields
      ensures FieldAccepts(Strict(s), k, v.fields[k])
    {
    }
  }

  /** An enum of objects may list the very form the pass takes apart. */
  lemma ObjectEnumFails(name: string) returns (s: Schema, v: Value)
    ensures s == Record(map[name := Leaf(StringT)]).(choices := OneOf([Obj(map[name := Null])]))
    ensures Valid(Strict(s), v) && !Valid(s, Drop(v, s))
  {
    s := Record(map[name := Leaf(StringT)]).(choices := OneOf([Obj(map[name := Null])]));
    v := Obj(map[name := Null]);
    var plain := Record(map[name := Leaf(StringT)]);
    NullPropertyAccepted(plain, name);
    assert StrictProperty(s, name) == StrictProperty(plain, name);
    assert Strict(s).properties == Strict(plain).properties;
    assert FieldAccepts(Strict(plain), name, Null);
    forall k | k in v.fields
      ensures FieldAccepts(Strict(s), k, v.fields[k])
    {
    }
    assert FieldsAccept(Strict(s), v) && BranchesAccept(Strict(s), v);
    assert Valid(Strict(s), v);
    assert Rejected(s, name, Null);
    assert name !in Drop(v, s).fields && name in v.fields;
  }

  // ----- Completeness: the variant shuts out no answer -----

  /** The answer with every property strict mode asks for; null stands for an absent one. */
  function Fill(v: Value, s: Schema): Value
    decreases s
  {
    match v
    case Obj(fields) =>
      if !Closing(s) then v
      else if s.properties.NoProperties? then Obj(map[])
      else Obj(map k | k in s.properties.nodes ::
                 if k in fields then Fill(fields[k], s.properties.nodes[k]) else Null)
    case Arr(items) =>
      if s.items.EachItem?
      then Arr(seq(|items|, i requires 0 <= i < |items| => Fill(items[i], s.items.node)))
      else v
    case _ => v
  }

  /** Every property is required, at every depth the pass looks at. */
  predicate AllRequired(s: Schema)
  {
    && (s.items.EachItem? ==> AllRequired(s.items.node))
    && (s.properties.Named? ==> forall k :: k in s.properties.nodes ==> k in s.required && AllRequired(s.properties.nodes[k]))
  }

  /** A listed value, filled in, is still one the variant lists. */
  predicate ValuesFilled(s: Schema)
  {
    forall u :: u in StrictValues(s) && Valid(s, u) ==> Fill(u, s) in StrictValues(s)
  }

  /** The variant has a way to leave out each optional property. */
  predicate NullsTaken(s: Schema)
  {
    s.properties.Named? ==>
      forall k :: k in s.properties.nodes && k !in s.required ==> Valid(StrictProperty(s, k), Null)
  }

  predicate Expressible(s: Schema)
  {
    && ValuesFilled(s) && NullsTaken(s)
    && (s.anyOf.Branches? ==>
          AllRequired(s) && forall i :: 0 <= i < |s.anyOf.nodes| ==> AllRequired(s.anyOf.nodes[i]) && Expressible(s.anyOf.nodes[i]))
    && (s.items.EachItem? ==> Expressible(s.items.node))
    && (s.properties.Named? ==> forall k :: k in s.properties.nodes ==> Expressible(s.properties.nodes[k]))
  }

  /** Where the variant closes an object, the value has only fields the schema names. */
  predicate Carries(s: Schema, v: Value)
    decreases s, 1
  {
    && (match v
        case Obj(fields) =>
          Closing(s) ==> forall k :: k in fields ==> k in Nodes(s.properties) && CarriesField(s, k, fields[k])
        case Arr(items) => s.items.EachItem? ==> forall i :: 0 <= i < |items| ==> Carries(s.items.node, items[i])
        case _ => true)
    && (s.anyOf.Branches? ==>
          exists i :: 0 <= i < |s.anyOf.nodes| && Valid(s.anyOf.nodes[i], v) && Carries(s.anyOf.nodes[i], v))
  }

  predicate CarriesField(s: Schema, k: string, field: Value)
    decreases s, 0
  {
    s.properties.Named? && k in s.properties.nodes ==> Carries(s.properties.nodes[k], field)
  }

  lemma NullableKeeps(s: Schema, v: Value)
    requires Valid(s, v)
    ensures Valid(Nullable(s), v)
  {
    var n := Nullable(s);
    if n != s {
      if s.anyOf.Branches? {
        var i :| 0 <= i < |s.anyOf.nodes| && Valid(s.anyOf.nodes[i], v);
        assert Valid(n.anyOf.nodes[i], v);
      } else if s.types.OneType? {
        assert HasType(v, n.types.names[0]);
      } else if s.types.TypeList? {
        var i :| 0 <= i < |s.types.names| && HasType(v, s.types.names[i]);
        assert HasType(v, n.types.names[i]);
      }
      assert ItemsAccept(n, v);
      if v.Obj? {
        forall k | k in v.fields
          ensures FieldAccepts(n, k, v.fields[k])
        {
          assert FieldAccepts(s, k, v.fields[k]);
        }
      }
    }
  }

  lemma {:induction false} FillChangesNothing(s: Schema, v: Value)
    requires AllRequired(s) && Valid(s, v) && Carries(s, v)
    ensures Fill(v, s) == v
    decreases s
  {
    match v {
      case Obj(fields) =>
        if Closing(s) {
          forall k | k in fields && s.properties.Named?
            ensures Fill(fields[k], s.properties.nodes[k]) == fields[k]
          {
            assert CarriesField(s, k, fields[k]) && FieldAccepts(s, k, fields[k]);
            FillChangesNothing(s.properties.nodes[k], fields[k]);
          }
          assert Fill(v, s).fields == fields;
        }
      case Arr(items) =>
        if s.items.EachItem? {
          forall i | 0 <= i < |items|
            ensures Fill(items[i], s.items.node) == items[i]
          {
            FillChangesNothing(s.items.node, items[i]);
          }
          assert Fill(v, s).items == items;
        }
      case _ =>
    }
  }

  /** Every answer to the original schema that has only named fields has a form the strict variant takes. */
  lemma {:induction false} StrictComplete(s: Schema, v: Value)
    requires Expressible(s) && Valid(s, v) && Carries(s, v)
    ensures Valid(Strict(s), Fill(v, s))
    decreases s, 1
  {
    var w, strict := Fill(v, s), Strict(s);
    assert TypesAccept(s.types, w) by {
      if s.types.TypeList? {
        var i :| 0 <= i < |s.types.names| && HasType(v, s.types.names[i]);
        assert HasType(w, s.types.names[i]);
      }
    }
    assert ChoicesAccept(strict.choices, w) by {
      if s.pinned.Const? || s.choices.OneOf? {
        assert v in StrictValues(s);
      }
    }
    assert ItemsAccept(strict, w) by {
      if s.items.EachItem? && v.Arr? {
        forall i | 0 <= i < |v.items|
          ensures Valid(strict.items.node, w.items[i])
        {
          StrictComplete(s.items.node, v.items[i]);
        }
      }
    }
    assert FieldsAccept(strict, w) by { CompleteFields(s, v); }
    assert BranchesAccept(strict, w) by {
      if s.anyOf.Branches? {
        var i :| 0 <= i < |s.anyOf.nodes| && Valid(s.anyOf.nodes[i], v) && Carries(s.anyOf.nodes[i], v);
        StrictComplete(s.anyOf.nodes[i], v);
        FillChangesNothing(s.anyOf.nodes[i], v);
        FillChangesNothing(s, v);
        assert Valid(strict.anyOf.nodes[i], w);
      }
    }
  }

  lemma {:induction false} CompleteFields(s: Schema, v: Value)
    requires Expressible(s) && Valid(s, v) && Carries(s, v)
    ensures FieldsAccept(Strict(s), Fill(v, s))
    decreases s, 0
  {
    if v.Obj? {
      var strict := Strict(s);
      var w := Fill(v, s);
      forall k | k in w.fields
        ensures FieldAccepts(strict, k, w.fields[k])
      {
        if Closing(s) {
          var property := s.properties.nodes[k];
          assert strict.properties.nodes[k] == StrictProperty(s, k);
          if k in v.fields {
            assert FieldAccepts(s, k, v.fields[k]) && CarriesField(s, k, v.fields[k]);
            StrictComplete(property, v.fields[k]);
            NullableKeeps(Strict(property), w.fields[k]);
          } else {
            assert FieldsAccept(s, v);
          }
        } else {
          assert FieldAccepts(s, k, v.fields[k]);
        }
      }
    }
  }

  /** No optional property takes null, so an absent one and a null one are never confused. */
  predicate NullMeansAbsent(s: Schema)
  {
    && (s.items.EachItem? ==> NullMeansAbsent(s.items.node))
    && (s.properties.Named? ==>
          forall k :: k in s.properties.nodes ==>
            && (k !in s.required ==> !AcceptsNull(s.properties.nodes[k]))
            && NullMeansAbsent(s.properties.nodes[k]))
  }

  /** The pass undoes Fill. */
  lemma {:induction false} FillRoundTrip(s: Schema, v: Value)
    requires NullMeansAbsent(s) && Valid(s, v) && Carries(s, v)
    ensures Drop(Fill(v, s), s) == v
    decreases s
  {
    match v {
      case Obj(fields) =>
        if Closing(s) && s.properties.Named? {
          var w := Fill(v, s);
          forall k | k in s.properties.nodes
            ensures k in fields ==> !Rejected(s, k, w.fields[k]) && DropField(s, k, w.fields[k]) == fields[k]
            ensures k !in fields ==> Rejected(s, k, w.fields[k])
          {
            if k in fields {
              assert FieldAccepts(s, k, fields[k]) && CarriesField(s, k, fields[k]);
              FillRoundTrip(s.properties.nodes[k], fields[k]);
              if fields[k].Null? { OnlyAcceptedNulls(s.properties.nodes[k]); }
            } else {
              assert FieldsAccept(s, v);
            }
          }
          assert Drop(w, s).fields == fields;
        } else {
          assert Fill(v, s).Obj? && Fill(v, s).fields == fields;
          assert Drop(v, s).fields == fields;
        }
      case Arr(items) =>
        if s.items.EachItem? {
          forall i | 0 <= i < |items|
            ensures Drop(Fill(items[i], s.items.node), s.items.node) == items[i]
          {
            FillRoundTrip(s.items.node, items[i]);
          }
          assert Drop(Fill(v, s), s).items == items;
        }
      case _ =>
    }
  }

  lemma {:induction false} RequiredPassThrough(s: Schema)
    requires AllRequired(s)
    ensures PassThrough(s)
    decreases s
  {
    if s.items.EachItem? {
      RequiredPassThrough(s.items.node);
    }
    if s.properties.Named? {
      forall k | k in s.properties.nodes { RequiredPassThrough(s.properties.nodes[k]); }
    }
  }

  /** What comes back has only named fields where the variant closes an object. */
  lemma {:induction false} ComesBackCarried(s: Schema, w: Value)
    requires Supported(s) && Expressible(s) && Valid(Strict(s), w)
    ensures Carries(s, Drop(w, s))
    decreases s
  {
    var v := Drop(w, s);
    if w.Obj? && Closing(s) {
      forall k | k in v.fields
        ensures k in Nodes(s.properties) && CarriesField(s, k, v.fields[k])
      {
        assert FieldsAccept(Strict(s), w);
        assert FieldAccepts(Strict(s), k, w.fields[k]);
        PropertyAccepts(s, k, w);
        assert v.fields[k] == DropField(s, k, w.fields[k]);
        assert v.fields[k] == Drop(w.fields[k], s.properties.nodes[k]);
        if w.fields[k].Null? {
          if k in s.required {
            ComesBackCarried(s.properties.nodes[k], Null);
          } else {
            NullCarried(s.properties.nodes[k]);
          }
        } else {
          ComesBackCarried(s.properties.nodes[k], w.fields[k]);
        }
      }
    }
    if w.Arr? && s.items.EachItem? {
      forall i | 0 <= i < |v.items|
        ensures Carries(s.items.node, v.items[i])
      {
        assert Valid(Strict(s).items.node, w.items[i]);
        ComesBackCarried(s.items.node, w.items[i]);
      }
    }
    if s.anyOf.Branches? {
      RequiredPassThrough(s);
      NothingShed(s, w);
      assert BranchesAccept(Strict(s), w);
      var i :| 0 <= i < |s.anyOf.nodes| && Valid(Strict(s).anyOf.nodes[i], w);
      RequiredPassThrough(s.anyOf.nodes[i]);
      NothingShed(s.anyOf.nodes[i], w);
      StrictSound(s.anyOf.nodes[i], w);
      ComesBackCarried(s.anyOf.nodes[i], w);
    }
  }

  lemma {:induction false} NullCarried(s: Schema)
    requires Valid(s, Null)
    ensures Carries(s, Null)
    decreases s
  {
    if s.anyOf.Branches? {
      var i :| 0 <= i < |s.anyOf.nodes| && Valid(s.anyOf.nodes[i], Null);
      NullCarried(s.anyOf.nodes[i]);
    }
  }

  /** Main result: the answers that come back are exactly the valid values that have only named fields where the variant
      closes an object. */
  lemma AnswersExact(s: Schema, v: Value)
    requires Supported(s) && Expressible(s) && NullMeansAbsent(s)
    ensures (exists w :: Valid(Strict(s), w) && Drop(w, s) == v) <==> Valid(s, v) && Carries(s, v)
  {
    if Valid(s, v) && Carries(s, v) {
      StrictComplete(s, v);
      FillRoundTrip(s, v);
    }
    if w :| Valid(Strict(s), w) && Drop(w, s) == v {
      StrictSound(s, w);
      ComesBackCarried(s, w);
    }
  }

  // ----- Typing const and enum -----

  function ScalarType(v: Value): Types
  {
    match v
    case Str(_) => OneType(StringT)
    case Bool(_) => OneType(BooleanT)
    case Num(n) => OneType(if n.Floor as real == n then IntegerT else NumberT)
    case _ => AnyType
  }

  function PinnedValues(s: Schema): seq<Value>
  {
    (if s.choices.OneOf? then s.choices.values else []) + (if s.pinned.Const? then [s.pinned.value] else [])
  }

  predicate AllOfType(values: seq<Value>, t: Types)
  {
    forall i :: 0 <= i < |values| ==> ScalarType(values[i]) == t
  }

  /** The type all pinned values share: none unless every one is a scalar of that same type. */
  method SharedValueType(s: Schema) returns (t: Types)
    ensures t.OneType? ==> PinnedValues(s) != [] && AllOfType(PinnedValues(s), t)
    ensures !t.OneType? ==> t.AnyType? && forall u: Types :: u.OneType? && PinnedValues(s) != [] ==> !AllOfType(PinnedValues(s), u)
    ensures t == SharedType(s)
  {
    var values := PinnedValues(s);
    t := AnyType;
    for i := 0 to |values|
      invariant i > 0 ==> t.OneType? && AllOfType(values[..i], t)
      invariant i == 0 ==> t.AnyType?
    {
      var valueType := ScalarType(values[i]);
      if valueType.AnyType? || (i > 0 && valueType != t) {
        assert i > 0 ==> ScalarType(values[0]) == t by {
          if i > 0 { assert values[..i][0] == values[0]; }
        }
        return AnyType;
      }
      t := valueType;
      assert values[..i + 1] == values[..i] + [values[i]];
    }
    assert values[..|values|] == values;
  }

  function SharedType(s: Schema): Types
  {
    var values := PinnedValues(s);
    if values != [] && AllOfType(values, ScalarType(values[0])) then ScalarType(values[0]) else AnyType
  }

  /** The node with its pinned values typed, at every depth. */
  function Typed(s: Schema): Schema
  {
    Schema(
      if s.types.AnyType? then SharedType(s) else s.types,
      s.choices,
      s.pinned,
      if s.items.EachItem? then EachItem(Typed(s.items.node)) else AnyItems,
      if s.properties.Named? then Named(map k | k in s.properties.nodes :: Typed(s.properties.nodes[k])) else NoProperties,
      s.required,
      if s.additional.EachOther? then EachOther(Typed(s.additional.node)) else s.additional,
      if s.anyOf.Branches?
      then Branches(seq(|s.anyOf.nodes|, i requires 0 <= i < |s.anyOf.nodes| => Typed(s.anyOf.nodes[i])))
      else NoBranches)
  }

  /** Typing takes nothing away from a schema and lets nothing in. */
  lemma {:induction false} TypedKeepsMeaning(s: Schema, v: Value)
    ensures Valid(Typed(s), v) <==> Valid(s, v)
    decreases s
  {
    var t := Typed(s);
    if s.types.AnyType? && ChoicesAccept(s.choices, v) && (s.pinned.Const? ==> v == s.pinned.value) {
      if SharedType(s).OneType? {
        assert v in PinnedValues(s);
        assert HasType(v, SharedType(s).name);
      }
    }
    assert ItemsAccept(t, v) <==> ItemsAccept(s, v) by {
      if s.items.EachItem? && v.Arr? {
        forall i | 0 <= i < |v.items| { TypedKeepsMeaning(s.items.node, v.items[i]); }
      }
    }
    assert FieldsAccept(t, v) <==> FieldsAccept(s, v) by {
      if v.Obj? {
        forall k | k in v.fields
          ensures FieldAccepts(t, k, v.fields[k]) <==> FieldAccepts(s, k, v.fields[k])
        {
          if s.properties.Named? && k in s.properties.nodes {
            TypedKeepsMeaning(s.properties.nodes[k], v.fields[k]);
          } else if s.additional.EachOther? {
            TypedKeepsMeaning(s.additional.node, v.fields[k]);
          }
        }
      }
    }
    assert BranchesAccept(t, v) <==> BranchesAccept(s, v) by {
      if s.anyOf.Branches? {
        forall i | 0 <= i < |s.anyOf.nodes| { TypedKeepsMeaning(s.anyOf.nodes[i], v); }
        assert forall i :: 0 <= i < |s.anyOf.nodes| ==> t.anyOf.nodes[i] == Typed(s.anyOf.nodes[i]);
      }
    }
  }

  /** A scalar const without a type becomes one the strict variant handles. */
  lemma TypedConstAgrees(s: Schema)
    requires s.pinned.Const? && Scalar(s.pinned.value) && s.choices.AnyValue? && s.types.AnyType?
    ensures ConstAgrees(Typed(s))
  {
    assert PinnedValues(s)[0] == s.pinned.value;
  }

  /** The whole way of a native answer: typed schema, strict variant, answer, pass. */
  lemma NativeAnswerValid(s: Schema, v: Value)
    requires Supported(Typed(s)) && Valid(Strict(Typed(s)), v)
    ensures Valid(s, Drop(v, Typed(s)))
    ensures Drop(Drop(v, Typed(s)), Typed(s)) == Drop(v, Typed(s))
  {
    StrictSound(Typed(s), v);
    TypedKeepsMeaning(s, Drop(v, Typed(s)));
    DropIdempotent(v, Typed(s));
  }

  /** An answer written against the original schema passes through untouched. */
  lemma ContractAnswerUntouched(s: Schema, v: Value)
    requires Valid(s, v)
    ensures Drop(v, Typed(s)) == v
  {
    TypedKeepsMeaning(s, v);
    DropLeavesValid(Typed(s), v);
  }
}
