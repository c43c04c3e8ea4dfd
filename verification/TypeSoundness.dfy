/** Rendered types hold the instances of their schemas, where the schema can be put as a type. */
module TypeSoundness {
  import opened Json
  import opened References
  import opened JsonSchema
  import opened RenderedTypes
  import SupportedSchemas
  import P = ValidationPlan

  // ----- What a type holds -----

  /** Names are read by `env`. */
  type Environment = (string, Value) -> bool

  predicate OfPrimitive(name: string, v: Value) {
    match v
    case Null => name == "null"
    case Bool(_) => name == "boolean"
    case Num(_) => name == "number"
    case Str(_) => name == "string"
    case _ => false
  }

  /** Records are open, an index signature binds every key, declared ones included, and a record with
      neither properties nor an index signature is rendered as one without any keys. */
  predicate Inhabits(env: Environment, t: Type, v: Value) {
    match t
    case Unknown => true
    case Never => false
    case Named(name) => env(name, v)
    case Primitive(name) => OfPrimitive(name, v)
    case Literal(value) => v == value
    case ArrayOf(element) => v.Arr? && forall i :: 0 <= i < |v.items| ==> Inhabits(env, element, v.items[i])
    case TupleOf(members, rest) =>
      && v.Arr? && |members| <= |v.items| && (rest.NoRest? ==> |v.items| == |members|)
      && (forall i :: 0 <= i < |members| ==> Inhabits(env, members[i], v.items[i]))
      && (rest.Rest? ==> forall i :: |members| <= i < |v.items| ==> Inhabits(env, rest.element, v.items[i]))
    case ObjectOf(properties, index) =>
      && v.Obj? && (properties == [] && index.NoRest? ==> v.fields == [])
      && (forall i :: 0 <= i < |properties| ==>
                        var at := IndexOf(v.fields, properties[i].name);
                        if at < |v.fields| then Inhabits(env, properties[i].value, v.fields[at].value)
                        else properties[i].optional)
      && (index.Rest? ==> forall i :: 0 <= i < |v.fields| ==> Inhabits(env, index.element, v.fields[i].value))
    case UnionOf(members) => exists i :: 0 <= i < |members| && Inhabits(env, members[i], v)
    case IntersectionOf(members) => forall i :: 0 <= i < |members| ==> Inhabits(env, members[i], v)
  }

  ghost predicate AnyOf(env: Environment, types: seq<Type>, v: Value) {
    exists t :: t in types && Inhabits(env, t, v)
  }

  ghost predicate AllOf(env: Environment, types: seq<Type>, v: Value) {
    forall t :: t in types ==> Inhabits(env, t, v)
  }

  /** A union of nothing but `never` is rendered as `unknown`. */
  lemma UniteMeans(env: Environment, types: seq<Type>, v: Value)
    ensures Inhabits(env, Unite(types), v) <==> AnyOf(env, types, v) || (forall t :: t in types ==> t == Never)
  {
    var values := Less(Once(types), Never);
    assert forall t :: t in values <==> t in types && t != Never;
    if Unknown in values {
      assert Inhabits(env, Unknown, v);
    } else {
      AnyOfMeans(env, values, v);
      assert values != [] ==> values[0] in types && values[0] != Never;
      assert !Inhabits(env, Never, v);
    }
  }

  lemma AnyOfMeans(env: Environment, values: seq<Type>, v: Value)
    ensures values != [] ==>
              (Inhabits(env, if |values| == 1 then values[0] else UnionOf(values), v) <==> AnyOf(env, values, v))
  {
    if t :| t in values && Inhabits(env, t, v) {
      var i :| 0 <= i < |values| && values[i] == t;
    } else {
      assert forall i :: 0 <= i < |values| ==> values[i] in values;
    }
  }

  lemma IntersectMeans(env: Environment, types: seq<Type>, v: Value)
    ensures Inhabits(env, Intersect(types), v) <==> AllOf(env, types, v)
  {
    if Never in types {
      assert !Inhabits(env, Never, v);
    } else {
      var values := Less(Once(types), Unknown);
      assert forall t :: t in values <==> t in types && t != Unknown;
      AllOfMeans(env, values, v);
    }
  }

  lemma AllOfMeans(env: Environment, values: seq<Type>, v: Value)
    ensures values != [] ==>
              (Inhabits(env, if |values| == 1 then values[0] else IntersectionOf(values), v) <==> AllOf(env, values, v))
  {
    if AllOf(env, values, v) {
      assert forall i :: 0 <= i < |values| ==> values[i] in values;
    } else {
      var t :| t in values && !Inhabits(env, t, v);
      var i :| 0 <= i < |values| && values[i] == t;
    }
  }

  // ----- Schemas that can be put as types -----

  /** Each array that the schema accepts has a length that its tuple has. */
  predicate TupleShape(k: Keywords) {
    k.prefixItems.Branches? ==>
      && (k.prefixItems.list != [] ==> k.minItems.Some? && |k.prefixItems.list| <= k.minItems.value)
      && (k.items.None? ==> k.maxItems.Some? && k.maxItems.value <= |k.prefixItems.list|)
  }

  /** The record names a property or says what other keys hold. */
  predicate RecordShape(k: Keywords) {
    MemberList(k.properties) != [] || k.additional.Some?
  }

  /** The part of the type that comes from the type keyword holds every instance. */
  predicate Shape(k: Keywords) {
    k.constant.Some? || k.enumeration.Some? ||
    (&& ("array" in k.types ==> TupleShape(k))
     && ("object" in k.types ==> RecordShape(k))
     && (k.types == [] ==>
           k.properties.NoProperties? && k.additional.None? && k.items.None? && k.prefixItems.NoBranches?))
  }

  predicate Expressible(s: Schema)
    decreases s
  {
    s.Boolean? ||
    (&& Shape(s.k) && PartsExpressible(s.k)
     && BranchesExpressible(s.k.anyOf) && BranchesExpressible(s.k.oneOf) && BranchesExpressible(s.k.allOf))
  }

  predicate BranchesExpressible(branches: Branches)
    decreases branches
  {
    branches.Branches? ==> AllExpressible(branches.list)
  }

  predicate AllExpressible(schemas: seq<Schema>)
    decreases schemas
  {
    forall i :: 0 <= i < |schemas| ==> Expressible(schemas[i])
  }

  /** What is rendered from the items and properties. */
  predicate PartsExpressible(k: Keywords)
    decreases k, 1
  {
    k.constant.Some? || k.enumeration.Some? ||
    (("array" in k.types ==> ItemsExpressible(k)) && ("object" in k.types ==> FieldsExpressible(k)))
  }

  predicate ItemsExpressible(k: Keywords)
    decreases k, 0
  {
    (k.items.Some? ==> Expressible(k.items.value)) && BranchesExpressible(k.prefixItems)
  }

  predicate FieldsExpressible(k: Keywords)
    decreases k, 0
  {
    && (k.properties.Properties? ==>
          forall i :: 0 <= i < |k.properties.members| ==> Expressible(k.properties.members[i].schema))
    && (k.additional.Some? && MemberList(k.properties) == [] ==> Expressible(k.additional.value))
  }

  // ----- Soundness -----

  datatype Reading = Reading(contract: Contract, resolve: Resolver, env: Environment)

  predicate Holds(r: Reading, s: Schema, v: Value) {
    Inhabits(r.env, Render(r.resolve, s), v)
  }

  function Target(c: Contract, p: Pointer): Option<Schema> {
    match p
    case Dangling => None
    case Root => Some(c.root)
    case Definition(name) => if name in c.definitions then Some(c.definitions[name]) else None
  }

  /** Each name that a reference resolves to holds at least what the type of its definition holds.
      The least such environment is the meaning of the recursive type aliases. */
  ghost predicate Closed(r: Reading) {
    forall reference: string, v: Value :: ClosedAt(r, reference, v)
  }

  ghost predicate ClosedAt(r: Reading, reference: string, v: Value) {
    var target := Target(r.contract, Resolve(r.contract.host, reference));
    target.Some? && Holds(r, target.value, v) ==> r.env(r.resolve(reference), v)
  }

  predicate ExpressibleContract(c: Contract) {
    Expressible(c.root) && forall name :: name in c.definitions ==> Expressible(c.definitions[name])
  }

  ghost predicate Ready(r: Reading, b: P.Budget) {
    Closed(r) && ExpressibleContract(r.contract) && !b.Oracle?
  }

  /** Every valid instance inhabits the rendered type. */
  lemma {:induction false} TypesAreSound(r: Reading, b: P.Budget, s: Schema, v: Value)
    requires Ready(r, b) && Expressible(s) && Valid(r.contract, b, s, v)
    ensures Holds(r, s, v)
    decreases P.Level(b), v, P.Room(Names(r.contract), b), 1, s
  {
    match s
    case Boolean(_) =>
    case Object(k) =>
      if !(k.nullable && v.Null?) {
        PartsAreSound(r, b, k, v);
      }
      PartsHold(r, k, v);
  }

  lemma PartsHold(r: Reading, k: Keywords, v: Value)
    requires AllOf(r.env, RenderParts(r.resolve, k), v) || (k.nullable && v.Null?)
    ensures Holds(r, Object(k), v)
  {
    var rendered := Intersect(RenderParts(r.resolve, k));
    IntersectMeans(r.env, RenderParts(r.resolve, k), v);
    UniteMeans(r.env, [rendered, Primitive("null")], v);
    assert rendered in [rendered, Primitive("null")] && Primitive("null") in [rendered, Primitive("null")];
    assert v.Null? ==> Inhabits(r.env, Primitive("null"), v);
  }

  lemma {:induction false} PartsAreSound(r: Reading, b: P.Budget, k: Keywords, v: Value)
    requires Ready(r, b) && Expressible(Object(k))
    requires Assertions(r.contract, k, v) && Applicators(r.contract, b, k, v) && JsonSchema.Members(r.contract, b, k, v)
    ensures AllOf(r.env, RenderParts(r.resolve, k), v)
    decreases P.Level(b), v, P.Room(Names(r.contract), b), 1, k, 1
  {
    var c := r.contract;
    if k.ref.Some? {
      ReferenceIsSound(r, b, k.ref.value, v);
    }
    ValuesAreSound(r, k, v);
    OneIsSome(c, b, k.oneOf, v);
    UnionIsSound(r, b, k.anyOf, v);
    UnionIsSound(r, b, k.oneOf, v);
    IntersectionIsSound(r, b, k.allOf, v);
    TypeKeywordIsSound(r, b, k, v);
  }

  lemma OneIsSome(c: Contract, b: P.Budget, branches: Branches, v: Value)
    requires OneValid(c, b, branches, v)
    ensures SomeValid(c, b, branches, v)
  {
    if branches.Branches? {
      var i :| 0 <= i < |branches.list| && OnlyValid(c, b, branches.list, i, v);
      assert Valid(c, b, branches.list[i], v);
    }
  }

  lemma {:induction false} UnionIsSound(r: Reading, b: P.Budget, branches: Branches, v: Value)
    requires Ready(r, b) && BranchesExpressible(branches) && SomeValid(r.contract, b, branches, v)
    ensures AllOf(r.env, RenderUnion(r.resolve, branches), v)
    decreases P.Level(b), v, P.Room(Names(r.contract), b), 1, branches
  {
    if branches.Branches? {
      var i :| 0 <= i < |branches.list| && Valid(r.contract, b, branches.list[i], v);
      assert AllExpressible(branches.list);
      TypesAreSound(r, b, branches.list[i], v);
      UnionHolds(r, branches.list, i, v);
    }
  }

  lemma {:induction false} IntersectionIsSound(r: Reading, b: P.Budget, branches: Branches, v: Value)
    requires Ready(r, b) && BranchesExpressible(branches) && EveryValid(r.contract, b, branches, v)
    ensures AllOf(r.env, RenderIntersection(r.resolve, branches), v)
    decreases P.Level(b), v, P.Room(Names(r.contract), b), 1, branches
  {
    if branches.Branches? {
      assert AllExpressible(branches.list);
      forall i | 0 <= i < |branches.list| ensures Holds(r, branches.list[i], v) {
        TypesAreSound(r, b, branches.list[i], v);
      }
      IntersectionHolds(r, branches.list, v);
    }
  }

  lemma {:induction false} RenderedAt(resolve: Resolver, schemas: seq<Schema>, i: nat)
    requires i < |schemas|
    ensures RenderAll(resolve, schemas)[i] == Render(resolve, schemas[i])
    decreases i
  {
    if i > 0 {
      RenderedAt(resolve, schemas[1..], i - 1);
    }
  }

  lemma UnionHolds(r: Reading, schemas: seq<Schema>, i: nat, v: Value)
    requires i < |schemas| && Holds(r, schemas[i], v)
    ensures Inhabits(r.env, Unite(RenderAll(r.resolve, schemas)), v)
  {
    RenderedAt(r.resolve, schemas, i);
    UniteMeans(r.env, RenderAll(r.resolve, schemas), v);
    assert RenderAll(r.resolve, schemas)[i] in RenderAll(r.resolve, schemas);
  }

  lemma IntersectionHolds(r: Reading, schemas: seq<Schema>, v: Value)
    requires forall i :: 0 <= i < |schemas| ==> Holds(r, schemas[i], v)
    ensures Inhabits(r.env, Intersect(RenderAll(r.resolve, schemas)), v)
  {
    forall t | t in RenderAll(r.resolve, schemas) ensures Inhabits(r.env, t, v) {
      var i :| 0 <= i < |schemas| && RenderAll(r.resolve, schemas)[i] == t;
      RenderedAt(r.resolve, schemas, i);
    }
    IntersectMeans(r.env, RenderAll(r.resolve, schemas), v);
  }

  lemma {:induction false} ReferenceIsSound(r: Reading, b: P.Budget, reference: string, v: Value)
    requires Ready(r, b) && Referenced(r.contract, b, Resolve(r.contract.host, reference), v)
    ensures Inhabits(r.env, Named(r.resolve(reference)), v)
    decreases P.Level(b), v, P.Room(Names(r.contract), b), 0
  {
    var c, p := r.contract, Resolve(r.contract.host, reference);
    var name := if p.Root? then "#" else p.name;
    P.FollowShrinks(Names(c), b, name);
    TypesAreSound(r, P.Follow(b, name), Target(c, p).value, v);
    assert ClosedAt(r, reference, v);
  }

  lemma {:induction false} LiteralsHold(values: seq<Value>, v: Value)
    ensures v in values ==> Literal(v) in Literals(values)
  {
    if values != [] {
      LiteralsHold(values[1..], v);
    }
  }

  lemma ValuesAreSound(r: Reading, k: Keywords, v: Value)
    requires Assertions(r.contract, k, v)
    ensures AllOf(r.env, RenderValues(k), v)
  {
    if k.constant.None? && k.enumeration.Some? {
      LiteralsHold(k.enumeration.value, v);
      UniteMeans(r.env, Literals(k.enumeration.value), v);
      assert Inhabits(r.env, Literal(v), v);
    }
  }

  /** The name under which the type of an instance is listed. */
  function TypeName(types: seq<string>, v: Value): (name: string)
    requires HasType(types, v)
    ensures name in types
  {
    match v
    case Null => "null"
    case Bool(_) => "boolean"
    case Num(_) => if "number" in types then "number" else "integer"
    case Str(_) => "string"
    case Arr(_) => "array"
    case Obj(_) => "object"
  }

  lemma {:induction false} TypeKeywordIsSound(r: Reading, b: P.Budget, k: Keywords, v: Value)
    requires Ready(r, b) && Shape(k) && PartsExpressible(k)
    requires Assertions(r.contract, k, v) && JsonSchema.Members(r.contract, b, k, v)
    ensures AllOf(r.env, RenderTypes(r.resolve, k), v)
    decreases P.Level(b), v, P.Room(Names(r.contract), b), 1, k, 0
  {
    if k.constant.None? && k.enumeration.None? && k.types != [] {
      TypeIsSound(r, b, k, TypeName(k.types, v), v);
      TypeListed(r, k, TypeName(k.types, v), v);
    }
  }

  lemma {:induction false} TypeIsSound(r: Reading, b: P.Budget, k: Keywords, name: string, v: Value)
    requires Ready(r, b) && Shape(k) && PartsExpressible(k) && k.constant.None? && k.enumeration.None?
    requires HasType(k.types, v) && name == TypeName(k.types, v)
    requires Assertions(r.contract, k, v) && JsonSchema.Members(r.contract, b, k, v)
    ensures Inhabits(r.env, RenderType(r.resolve, k, name), v)
    decreases P.Level(b), v, 0, 0, 3
  {
    if v.Arr? {
      ArrayIsSound(r, b, k, v);
    } else if v.Obj? {
      ObjectIsSound(r, b, k, v);
    }
  }

  lemma {:induction false} EachRendered(resolve: Resolver, k: Keywords, types: seq<string>, name: string)
    requires name in types
    ensures RenderType(resolve, k, name) in RenderEach(resolve, k, types)
    decreases types
  {
    if types[0] != name {
      EachRendered(resolve, k, types[1..], name);
    }
  }

  lemma TypeListed(r: Reading, k: Keywords, name: string, v: Value)
    requires name in k.types && Inhabits(r.env, RenderType(r.resolve, k, name), v)
    requires k.constant.None? && k.enumeration.None?
    ensures AllOf(r.env, RenderTypes(r.resolve, k), v)
  {
    EachRendered(r.resolve, k, k.types, name);
    UniteMeans(r.env, RenderEach(r.resolve, k, k.types), v);
    assert RenderTypes(r.resolve, k) == [Unite(RenderEach(r.resolve, k, k.types))];
  }

  // ----- Arrays and objects -----

  lemma {:induction false} ArrayIsSound(r: Reading, b: P.Budget, k: Keywords, v: Value)
    requires Ready(r, b) && v.Arr? && TupleShape(k) && ItemsExpressible(k)
    requires P.AtLeast(k.minItems, |v.items|) && P.AtMost(k.maxItems, |v.items|)
    requires JsonSchema.Members(r.contract, b, k, v)
    ensures Inhabits(r.env, RenderArray(r.resolve, k), v)
    decreases P.Level(b), v, 0, 0, 2
  {
    ItemsHold(r, b, k, v);
    ArrayHolds(r, k, v);
  }

  ghost predicate ItemsHeld(r: Reading, k: Keywords, v: Value)
    requires v.Arr?
  {
    && (forall i :: 0 <= i < |v.items| && i < |List(k.prefixItems)| ==> Holds(r, List(k.prefixItems)[i], v.items[i]))
    && (k.items.Some? ==> forall i :: |List(k.prefixItems)| <= i < |v.items| ==> Holds(r, k.items.value, v.items[i]))
  }

  lemma {:induction false} ItemsHold(r: Reading, b: P.Budget, k: Keywords, v: Value)
    requires Ready(r, b) && v.Arr? && ItemsExpressible(k) && JsonSchema.Members(r.contract, b, k, v)
    ensures ItemsHeld(r, k, v)
    decreases P.Level(b), v, 0, 0, 1
  {
    var prefix := List(k.prefixItems);
    assert AllExpressible(prefix);
    forall i | 0 <= i < |v.items| && i < |prefix| ensures Holds(r, prefix[i], v.items[i]) {
      TypesAreSound(r, P.Descend(b), prefix[i], v.items[i]);
    }
    if k.items.Some? {
      forall i | |prefix| <= i < |v.items| ensures Holds(r, k.items.value, v.items[i]) {
        TypesAreSound(r, P.Descend(b), k.items.value, v.items[i]);
      }
    }
  }

  /** An array whose items hold inhabits its type exactly if it is as long as the tuple. */
  lemma ArrayHolds(r: Reading, k: Keywords, v: Value)
    requires v.Arr? && ItemsHeld(r, k, v)
    ensures Inhabits(r.env, RenderArray(r.resolve, k), v) <==> FitsTuple(k, v)
  {
    var prefix := List(k.prefixItems);
    forall i | 0 <= i < |prefix| ensures RenderAll(r.resolve, prefix)[i] == Render(r.resolve, prefix[i]) {
      RenderedAt(r.resolve, prefix, i);
    }
    assert k.items.Some? && |prefix| < |v.items| ==> Holds(r, k.items.value, v.items[|prefix|]);
  }

  predicate FitsTuple(k: Keywords, v: Value)
    requires v.Arr?
  {
    k.prefixItems.Branches? ==>
      |k.prefixItems.list| <= |v.items| && (k.items.None? ==> |v.items| <= |k.prefixItems.list|)
  }

  lemma {:induction false} ObjectIsSound(r: Reading, b: P.Budget, k: Keywords, v: Value)
    requires Ready(r, b) && v.Obj? && RecordShape(k) && FieldsExpressible(k)
    requires Assertions(r.contract, k, v) && JsonSchema.Members(r.contract, b, k, v)
    ensures Inhabits(r.env, RenderObject(r.resolve, k), v)
    decreases P.Level(b), v, 0, 0, 1
  {
    var members := MemberList(k.properties);
    forall i | 0 <= i < |members| && Has(v.fields, members[i].name)
      ensures Holds(r, members[i].schema, v.fields[IndexOf(v.fields, members[i].name)].value)
    {
      TypesAreSound(r, P.Descend(b), members[i].schema, v.fields[IndexOf(v.fields, members[i].name)].value);
    }
    if k.additional.Some? && members == [] {
      forall i | 0 <= i < |v.fields| ensures Holds(r, k.additional.value, v.fields[i].value) {
        TypesAreSound(r, P.Descend(b), k.additional.value, v.fields[i].value);
      }
    }
    ObjectHolds(r, k, v);
  }

  /** An object whose properties hold inhabits its type exactly if the record is not rendered as an
      empty one. */
  lemma ObjectHolds(r: Reading, k: Keywords, v: Value)
    requires v.Obj? && forall i :: 0 <= i < |Required(k)| ==> Has(v.fields, Required(k)[i])
    requires forall i :: 0 <= i < |MemberList(k.properties)| && Has(v.fields, MemberList(k.properties)[i].name) ==>
                           Holds(r, MemberList(k.properties)[i].schema,
                                 v.fields[IndexOf(v.fields, MemberList(k.properties)[i].name)].value)
    requires k.additional.Some? && MemberList(k.properties) == [] ==>
               forall i :: 0 <= i < |v.fields| ==> Holds(r, k.additional.value, v.fields[i].value)
    ensures Inhabits(r.env, RenderObject(r.resolve, k), v) <==> RecordShape(k) || v.fields == []
  {
    var members := MemberList(k.properties);
    var rendered := RenderMembers(r.resolve, Required(k), members);
    forall i | 0 <= i < |members|
      ensures rendered[i] == Property(members[i].name, members[i].name !in Required(k),
                                      Render(r.resolve, members[i].schema))
    {
      MemberRendered(r.resolve, Required(k), members, i);
    }
    assert k.additional.Some? && members == [] && v.fields != [] ==> Holds(r, k.additional.value, v.fields[0].value);
  }

  lemma {:induction false} MemberRendered(resolve: Resolver, required: seq<string>, members: seq<Member>, i: nat)
    requires i < |members|
    ensures RenderMembers(resolve, required, members)[i] ==
            Property(members[i].name, members[i].name !in required, Render(resolve, members[i].schema))
    decreases i
  {
    if i > 0 {
      MemberRendered(resolve, required, members[1..], i - 1);
    }
  }

  // ----- Exactly these -----

  /** Nothing but the type keyword and the keywords of its types. */
  predicate Bare(k: Keywords) {
    && k.ref.None? && k.constant.None? && k.enumeration.None? && !k.nullable
    && k.anyOf.NoBranches? && k.oneOf.NoBranches? && k.allOf.NoBranches?
    && forall i :: 0 <= i < |k.types| ==> k.types[i] in SupportedSchemas.Types
  }

  ghost predicate Satisfiable(c: Contract, b: P.Budget, s: Schema) {
    exists v :: Valid(c, b, s, v)
  }

  /** Arrays of every length within the bounds are accepted. */
  ghost predicate AnyLength(c: Contract, b: P.Budget, k: Keywords) {
    && SupportedSchemas.InOrder(k.minItems, k.maxItems)
    && (forall i :: 0 <= i < |List(k.prefixItems)| ==> Satisfiable(c, P.Descend(b), List(k.prefixItems)[i]))
    && (k.items.Some? ==> Satisfiable(c, P.Descend(b), k.items.value))
  }

  ghost predicate RendersSoundly(r: Reading, b: P.Budget, s: Schema) {
    forall v :: Valid(r.contract, b, s, v) ==> Holds(r, s, v)
  }

  /** Of the schemas with a type keyword alone, those of this shape are the ones whose type holds all
      their instances. */
  lemma ShapeIsExact(r: Reading, b: P.Budget, k: Keywords)
    requires Ready(r, b) && Bare(k) && PartsExpressible(k) && ("array" in k.types ==> AnyLength(r.contract, b, k))
    ensures RendersSoundly(r, b, Object(k)) <==> Shape(k)
  {
    if Shape(k) {
      forall v | Valid(r.contract, b, Object(k), v) ensures Holds(r, Object(k), v) {
        TypesAreSound(r, b, Object(k), v);
      }
    } else {
      var v := Misfit(r, b, k);
    }
  }

  /** A valid instance that its type does not hold. */
  lemma Misfit(r: Reading, b: P.Budget, k: Keywords) returns (v: Value)
    requires Ready(r, b) && Bare(k) && PartsExpressible(k) && ("array" in k.types ==> AnyLength(r.contract, b, k))
    requires !Shape(k)
    ensures Valid(r.contract, b, Object(k), v) && !Holds(r, Object(k), v)
  {
    if "object" in k.types && !RecordShape(k) {
      v := MisfitRecord(r, b, k);
    } else if "array" in k.types && !TupleShape(k) {
      v := MisfitTuple(r, b, k);
    } else {
      v := Null;
      NullMisfits(r, b, k);
    }
  }

  lemma NullMisfits(r: Reading, b: P.Budget, k: Keywords)
    requires Bare(k) && k.types == [] && !Shape(k)
    ensures Valid(r.contract, b, Object(k), Null) && !Holds(r, Object(k), Null)
  {
    var types := RenderTypes(r.resolve, k);
    assert types == [RenderObject(r.resolve, k)] || types == [RenderArray(r.resolve, k)];
    assert types[0] in types && !Inhabits(r.env, types[0], Null);
    OnlyTypes(r, k, Null);
    BareApplies(r.contract, b, k, Null);
    assert Assertions(r.contract, k, Null) && JsonSchema.Members(r.contract, b, k, Null);
  }

  lemma OnlyTypes(r: Reading, k: Keywords, v: Value)
    requires Bare(k)
    ensures Holds(r, Object(k), v) <==> AllOf(r.env, RenderTypes(r.resolve, k), v)
  {
    assert RenderParts(r.resolve, k) == RenderTypes(r.resolve, k);
    IntersectMeans(r.env, RenderTypes(r.resolve, k), v);
  }

  lemma {:induction false} RenderedFrom(resolve: Resolver, k: Keywords, types: seq<string>, t: Type)
    requires t in RenderEach(resolve, k, types)
    ensures exists name :: name in types && t == RenderType(resolve, k, name)
    decreases types
  {
    if t == RenderType(resolve, k, types[0]) {
      assert types[0] in types;
    } else {
      RenderedFrom(resolve, k, types[1..], t);
      var name :| name in types[1..] && t == RenderType(resolve, k, name);
      assert name in types;
    }
  }

  /** No listed type holds the instance. */
  lemma NoTypeHolds(r: Reading, k: Keywords, v: Value)
    requires Bare(k) && k.types != []
    requires forall name :: name in k.types ==> !Inhabits(r.env, RenderType(r.resolve, k, name), v)
    ensures !Holds(r, Object(k), v)
  {
    var each := RenderEach(r.resolve, k, k.types);
    forall t | t in each ensures !Inhabits(r.env, t, v) && t != Never {
      RenderedFrom(r.resolve, k, k.types, t);
    }
    assert each[0] in each;
    UniteMeans(r.env, each, v);
    OnlyTypes(r, k, v);
    assert RenderTypes(r.resolve, k) == [Unite(each)] && Unite(each) in RenderTypes(r.resolve, k);
  }

  function RequiredFields(required: seq<string>): (fields: seq<Field>)
    ensures |fields| == |required| && forall i :: 0 <= i < |required| ==> Has(fields, required[i])
  {
    if required == [] then []
    else
      var last := required[|required| - 1];
      var init := RequiredFields(required[..|required| - 1]);
      HasMore(init, Field(last, Null));
      init + [Field(last, Null)]
  }

  lemma HasMore(fields: seq<Field>, field: Field)
    ensures forall key :: Has(fields, key) || key == field.key ==> Has(fields + [field], key)
  {
    forall key | Has(fields, key) || key == field.key ensures Has(fields + [field], key) {
      var at := if Has(fields, key) then IndexOf(fields, key) else |fields|;
      assert (fields + [field])[at].key == key;
    }
  }

  lemma BareApplies(c: Contract, b: P.Budget, k: Keywords, v: Value)
    requires Bare(k)
    ensures Applicators(c, b, k, v)
  {
    assert SomeValid(c, b, k.anyOf, v) && OneValid(c, b, k.oneOf, v) && EveryValid(c, b, k.allOf, v);
  }

  lemma MisfitRecord(r: Reading, b: P.Budget, k: Keywords) returns (v: Value)
    requires Bare(k) && "object" in k.types && !RecordShape(k)
    ensures Valid(r.contract, b, Object(k), v) && !Holds(r, Object(k), v)
  {
    v := Obj(if Required(k) == [] then [Field("a", Null)] else RequiredFields(Required(k)));
    ObjectMisfits(r, k, v);
    BareApplies(r.contract, b, k, v);
    assert HasType(k.types, v) && Assertions(r.contract, k, v);
    assert JsonSchema.Members(r.contract, b, k, v);
  }

  lemma ObjectMisfits(r: Reading, k: Keywords, v: Value)
    requires Bare(k) && "object" in k.types && !RecordShape(k) && v.Obj? && v.fields != []
    requires forall i :: 0 <= i < |Required(k)| ==> Has(v.fields, Required(k)[i])
    ensures !Holds(r, Object(k), v)
  {
    ObjectHolds(r, k, v);
    forall name | name in k.types ensures !Inhabits(r.env, RenderType(r.resolve, k, name), v) {
      if name == "array" {
        assert !Inhabits(r.env, RenderArray(r.resolve, k), v);
      }
    }
    NoTypeHolds(r, k, v);
  }

  lemma {:induction false} ArrayOfLength(c: Contract, b: P.Budget, k: Keywords, n: nat) returns (items: seq<Value>)
    requires AnyLength(c, b, k)
    ensures |items| == n
    ensures forall i :: 0 <= i < n && i < |List(k.prefixItems)| ==>
              Valid(c, P.Descend(b), List(k.prefixItems)[i], items[i])
    ensures k.items.Some? ==> forall i :: |List(k.prefixItems)| <= i < n ==>
              Valid(c, P.Descend(b), k.items.value, items[i])
  {
    items := [];
    if n > 0 {
      var init := ArrayOfLength(c, b, k, n - 1);
      var last := Null;
      if n - 1 < |List(k.prefixItems)| {
        last :| Valid(c, P.Descend(b), List(k.prefixItems)[n - 1], last);
      } else if k.items.Some? {
        last :| Valid(c, P.Descend(b), k.items.value, last);
      }
      items := init + [last];
    }
  }

  lemma MisfitTuple(r: Reading, b: P.Budget, k: Keywords) returns (v: Value)
    requires Ready(r, b) && Bare(k) && "array" in k.types && ItemsExpressible(k) && AnyLength(r.contract, b, k)
    requires !TupleShape(k)
    ensures Valid(r.contract, b, Object(k), v) && !Holds(r, Object(k), v)
  {
    var prefix := k.prefixItems.list;
    var least := if k.minItems.Some? then k.minItems.value else 0;
    var n := if least < |prefix| || k.items.Some? then least else if least > |prefix| then least else |prefix| + 1;
    var items := ArrayOfLength(r.contract, b, k, n);
    v := Arr(items);
    BareApplies(r.contract, b, k, v);
    assert Assertions(r.contract, k, v) && JsonSchema.Members(r.contract, b, k, v);
    assert !FitsTuple(k, v);
    forall name | name in k.types ensures !Inhabits(r.env, RenderType(r.resolve, k, name), v) {
      if name == "array" {
        ItemsHold(r, b, k, v);
        ArrayHolds(r, k, v);
      }
    }
    NoTypeHolds(r, k, v);
  }

  // ----- Concrete schemas -----

  function Typed(types: seq<string>): Keywords {
    Keywords(None, None, None, NoBranches, NoBranches, NoBranches, types, false, P.StringLimits(None, None, None, None),
             P.NumberRange(None, None, None, None, None), None, NoBranches, None, None, NoProperties, None, None)
  }

  /** `{type: object}` accepts `{a: null}`, and its type is a record without keys. */
  lemma OpenRecordIsRefused(c: Contract, b: P.Budget, resolve: Resolver, env: Environment)
    ensures Valid(c, b, Object(Typed(["object"])), Obj([Field("a", Null)]))
    ensures !Inhabits(env, Render(resolve, Object(Typed(["object"]))), Obj([Field("a", Null)]))
  {
    var r, k, v := Reading(c, resolve, env), Typed(["object"]), Obj([Field("a", Null)]);
    BareApplies(c, b, k, v);
    assert "object" in k.types;
    assert Assertions(c, k, v) && JsonSchema.Members(c, b, k, v);
    ObjectHolds(r, k, v);
    NoTypeHolds(r, k, v);
  }

  /** A prefix does not ask for items, and its tuple does. */
  lemma ShortArrayIsRefused(c: Contract, b: P.Budget, resolve: Resolver, env: Environment)
    ensures var s := Object(Typed(["array"]).(prefixItems := Branches([Boolean(true)])));
            Valid(c, b, s, Arr([])) && !Inhabits(env, Render(resolve, s), Arr([]))
  {
    var r, k, v := Reading(c, resolve, env), Typed(["array"]).(prefixItems := Branches([Boolean(true)])), Arr([]);
    BareApplies(c, b, k, v);
    assert "array" in k.types;
    assert Assertions(c, k, v) && JsonSchema.Members(c, b, k, v);
    ArrayHolds(r, k, v);
    NoTypeHolds(r, k, v);
  }

  lemma NumbersAreNotStrings(r: Reading, n: real)
    ensures Holds(r, Object(Typed(["number"])), Num(n)) && !Holds(r, Object(Typed(["string"])), Num(n))
  {
    var numbers, strings := Typed(["number"]), Typed(["string"]);
    TypeListed(r, numbers, "number", Num(n));
    OnlyTypes(r, numbers, Num(n));
    NoTypeHolds(r, strings, Num(n));
  }

  /** Numbers under `count` and strings under any other key. */
  function CountAndStrings(): Keywords {
    Typed(["object"]).(properties := Properties([Member("count", Object(Typed(["number"])))]),
                       additional := Some(Object(Typed(["string"]))))
  }

  /** An index signature for strings would bind `count` too and lose the instance, so the one that is
      rendered is for `unknown`. */
  lemma IndexIsLoose(r: Reading, n: real)
    ensures var v := Obj([Field("count", Num(n))]);
            && Inhabits(r.env, RenderObject(r.resolve, CountAndStrings()), v)
            && forall properties :: !Inhabits(r.env,
                                              ObjectOf(properties,
                                                       Rest(Render(r.resolve, Object(Typed(["string"]))))), v)
  {
    NumbersAreNotStrings(r, n);
    CountHolds(r, n);
    forall properties
      ensures !Inhabits(r.env, ObjectOf(properties, Rest(Render(r.resolve, Object(Typed(["string"]))))),
                        Obj([Field("count", Num(n))]))
    {
      IndexBinds(r.env, properties, Render(r.resolve, Object(Typed(["string"]))), Field("count", Num(n)));
    }
  }

  lemma IndexBinds(env: Environment, properties: seq<RenderedTypes.Property>, t: Type, field: Field)
    requires !Inhabits(env, t, field.value)
    ensures !Inhabits(env, ObjectOf(properties, Rest(t)), Obj([field]))
  {
    assert Obj([field]).fields[0].value == field.value;
  }

  lemma CountHolds(r: Reading, n: real)
    requires Holds(r, Object(Typed(["number"])), Num(n))
    ensures Inhabits(r.env, RenderObject(r.resolve, CountAndStrings()), Obj([Field("count", Num(n))]))
  {
    var k, v := CountAndStrings(), Obj([Field("count", Num(n))]);
    assert MemberList(k.properties) == [Member("count", Object(Typed(["number"])))] && RecordShape(k);
    ObjectHolds(r, k, v);
  }
}
