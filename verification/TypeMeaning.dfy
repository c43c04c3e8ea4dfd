/** What a rendered type says, in terms of the keywords it comes from: exactly as much of the schema as
    types can tell. */
module TypeMeaning {
  import opened Json
  import opened JsonSchema
  import opened RenderedTypes
  import opened TypeSoundness

  // ----- As far as types can tell -----

  /** The schema is rendered as `never`: it is `false`, or a conjunct of it is. */
  predicate IsNever(s: Schema)
    decreases s
  {
    match s
    case Boolean(accept) => !accept
    case Object(k) => !k.nullable && SomeNever(k.allOf)
  }

  predicate SomeNever(branches: Branches)
    decreases branches
  {
    branches.Branches? && exists i :: 0 <= i < |branches.list| && IsNever(branches.list[i])
  }

  /** Bounds, patterns and formats are dropped, an integer counts as a number, `oneOf` as `anyOf`, and
      where properties are named nothing is asked of other keys. Definitions are read by `r.env`. */
  predicate Fits(r: Reading, s: Schema, v: Value)
    decreases s
  {
    match s
    case Boolean(accept) => accept
    case Object(k) => (k.nullable && v.Null?) || KeywordsFit(r, k, v)
  }

  predicate KeywordsFit(r: Reading, k: Keywords, v: Value)
    decreases k, 3
  {
    && (k.ref.Some? ==> r.env(r.resolve(k.ref.value), v))
    && (k.constant.Some? ==> v == k.constant.value)
    && (k.constant.None? && k.enumeration.Some? && k.enumeration.value != [] ==> v in k.enumeration.value)
    && SomeFits(r, k.anyOf, v) && SomeFits(r, k.oneOf, v) && EachFits(r, k.allOf, v)
    && (k.constant.None? && k.enumeration.None? ==> TypeFits(r, k, v))
  }

  /** Alternatives that are all `never` are rendered as `unknown`. */
  predicate SomeFits(r: Reading, branches: Branches, v: Value)
    decreases branches
  {
    branches.Branches? ==>
      || (exists i :: 0 <= i < |branches.list| && Fits(r, branches.list[i], v))
      || (forall i :: 0 <= i < |branches.list| ==> IsNever(branches.list[i]))
  }

  predicate EachFits(r: Reading, branches: Branches, v: Value)
    decreases branches
  {
    branches.Branches? ==> forall i :: 0 <= i < |branches.list| ==> Fits(r, branches.list[i], v)
  }

  predicate TypeFits(r: Reading, k: Keywords, v: Value)
    decreases k, 2
  {
    if k.types != [] then exists i :: 0 <= i < |k.types| && NameFits(r, k, k.types[i], v)
    else if k.properties.Properties? || k.additional.Some? then RecordFits(r, k, v)
    else (k.items.Some? || k.prefixItems.Branches? ==> ArrayFits(r, k, v))
  }

  predicate NameFits(r: Reading, k: Keywords, name: string, v: Value)
    decreases k, 1
  {
    match name
    case "null" => v.Null?
    case "boolean" => v.Bool?
    case "string" => v.Str?
    case "integer" => v.Num?
    case "number" => v.Num?
    case "array" => ArrayFits(r, k, v)
    case "object" => RecordFits(r, k, v)
    case _ => true
  }

  predicate ArrayFits(r: Reading, k: Keywords, v: Value)
    decreases k, 0
  {
    && v.Arr? && FitsTuple(k, v)
    && (k.prefixItems.Branches? ==>
          forall i :: 0 <= i < |v.items| && i < |k.prefixItems.list| ==> Fits(r, k.prefixItems.list[i], v.items[i]))
    && (k.items.Some? ==>
          forall i :: |List(k.prefixItems)| <= i < |v.items| ==> Fits(r, k.items.value, v.items[i]))
  }

  predicate RecordFits(r: Reading, k: Keywords, v: Value)
    decreases k, 0
  {
    v.Obj? && MembersFit(r, k, v) && (RecordShape(k) || v.fields == []) && FieldsFit(r, k, v)
  }

  predicate MembersFit(r: Reading, k: Keywords, v: Value)
    requires v.Obj?
    decreases k, 0, 0
  {
    k.properties.Properties? ==>
      forall i :: 0 <= i < |k.properties.members| ==>
                    var at := IndexOf(v.fields, k.properties.members[i].name);
                    if at < |v.fields| then Fits(r, k.properties.members[i].schema, v.fields[at].value)
                    else k.properties.members[i].name !in Required(k)
  }

  predicate FieldsFit(r: Reading, k: Keywords, v: Value)
    requires v.Obj?
    decreases k, 0, 0
  {
    k.additional.Some? && MemberList(k.properties) == [] ==>
      forall i :: 0 <= i < |v.fields| ==> Fits(r, k.additional.value, v.fields[i].value)
  }

  // ----- Rendered as `never` -----

  lemma AllRendered(resolve: Resolver, schemas: seq<Schema>)
    ensures forall i :: 0 <= i < |schemas| ==> RenderAll(resolve, schemas)[i] == Render(resolve, schemas[i])
  {
    forall i | 0 <= i < |schemas| ensures RenderAll(resolve, schemas)[i] == Render(resolve, schemas[i]) {
      RenderedAt(resolve, schemas, i);
    }
  }

  lemma UnitedIsSome(types: seq<Type>)
    ensures Unite(types) != Never
  {
    var values := Less(Once(types), Never);
    assert values != [] ==> values[0] in values;
  }

  lemma IntersectedIsNever(types: seq<Type>)
    ensures Intersect(types) == Never <==> Never in types
  {
    var values := Less(Once(types), Unknown);
    assert values != [] ==> values[0] in values;
  }

  lemma {:induction false} NeverMeans(resolve: Resolver, s: Schema)
    ensures Render(resolve, s) == Never <==> IsNever(s)
    decreases s
  {
    if s.Object? {
      var k, parts := s.k, RenderParts(resolve, s.k);
      IntersectedIsNever(parts);
      UnitedIsSome([Intersect(parts), Primitive("null")]);
      OthersAreSome(resolve, k);
      if k.allOf.Branches? {
        NeverAmong(resolve, k.allOf.list);
        IntersectedIsNever(RenderAll(resolve, k.allOf.list));
        assert RenderIntersection(resolve, k.allOf) == [Intersect(RenderAll(resolve, k.allOf.list))];
      }
    }
  }

  lemma {:induction false} NeverAmong(resolve: Resolver, schemas: seq<Schema>)
    ensures Never in RenderAll(resolve, schemas) <==> exists i :: 0 <= i < |schemas| && IsNever(schemas[i])
    ensures (forall t :: t in RenderAll(resolve, schemas) ==> t == Never)
            <==> forall i :: 0 <= i < |schemas| ==> IsNever(schemas[i])
    decreases schemas
  {
    AllRendered(resolve, schemas);
    var types := RenderAll(resolve, schemas);
    forall i | 0 <= i < |schemas| ensures types[i] == Never <==> IsNever(schemas[i]) {
      NeverMeans(resolve, schemas[i]);
    }
    assert forall i :: 0 <= i < |types| ==> types[i] in types;
  }

  lemma OthersAreSome(resolve: Resolver, k: Keywords)
    ensures Never in RenderParts(resolve, k) <==> Never in RenderIntersection(resolve, k.allOf)
  {
    if k.anyOf.Branches? {
      UnitedIsSome(RenderAll(resolve, k.anyOf.list));
    }
    if k.oneOf.Branches? {
      UnitedIsSome(RenderAll(resolve, k.oneOf.list));
    }
    if k.enumeration.Some? {
      UnitedIsSome(Literals(k.enumeration.value));
    }
    if k.types != [] {
      UnitedIsSome(RenderEach(resolve, k, k.types));
    }
    assert Never !in RenderUnion(resolve, k.anyOf) && Never !in RenderUnion(resolve, k.oneOf);
    assert Never !in RenderValues(k) && Never !in RenderTypes(resolve, k);
  }

  // ----- Exactly this -----

  /** An instance inhabits the rendered type if and only if it fits the schema as far as types can tell. */
  lemma {:induction false} TypesMean(r: Reading, s: Schema, v: Value)
    ensures Holds(r, s, v) <==> Fits(r, s, v)
    decreases s
  {
    match s
    case Boolean(_) =>
    case Object(k) =>
      KeywordsMean(r, k, v);
      var parts := RenderParts(r.resolve, k);
      var rendered := Intersect(parts);
      IntersectMeans(r.env, parts, v);
      if k.nullable {
        NullableMeans(r.env, rendered, v);
      }
  }

  lemma NullableMeans(env: Environment, t: Type, v: Value)
    ensures Inhabits(env, Unite([t, Primitive("null")]), v) <==> v.Null? || Inhabits(env, t, v)
  {
    var types := [t, Primitive("null")];
    UniteMeans(env, types, v);
    assert types[0] in types && types[1] in types;
    assert Inhabits(env, Primitive("null"), v) <==> v.Null?;
  }

  lemma {:induction false} KeywordsMean(r: Reading, k: Keywords, v: Value)
    ensures AllOf(r.env, RenderParts(r.resolve, k), v) <==> KeywordsFit(r, k, v)
    decreases k, 4
  {
    var named := if k.ref.Some? then [Named(r.resolve(k.ref.value))] else [];
    assert AllOf(r.env, named, v) <==> (k.ref.Some? ==> r.env(r.resolve(k.ref.value), v)) by {
      assert k.ref.Some? ==> named[0] in named;
    }
    ValuesMean(r, k, v);
    UnionMeans(r, k.anyOf, v);
    UnionMeans(r, k.oneOf, v);
    IntersectionMeans(r, k.allOf, v);
    TypeKeywordMeans(r, k, v);
    PartsMean(r, k, v, named);
  }

  lemma PartsMean(r: Reading, k: Keywords, v: Value, named: seq<Type>)
    requires named == if k.ref.Some? then [Named(r.resolve(k.ref.value))] else []
    ensures AllOf(r.env, RenderParts(r.resolve, k), v) <==>
            && AllOf(r.env, named, v) && AllOf(r.env, RenderValues(k), v)
            && AllOf(r.env, RenderUnion(r.resolve, k.anyOf), v) && AllOf(r.env, RenderUnion(r.resolve, k.oneOf), v)
            && AllOf(r.env, RenderIntersection(r.resolve, k.allOf), v) && AllOf(r.env, RenderTypes(r.resolve, k), v)
  {
    EveryConcat(r.env, named, RenderValues(k), v);
    EveryConcat(r.env, named + RenderValues(k), RenderUnion(r.resolve, k.anyOf), v);
    var three := named + RenderValues(k) + RenderUnion(r.resolve, k.anyOf);
    EveryConcat(r.env, three, RenderUnion(r.resolve, k.oneOf), v);
    EveryConcat(r.env, three + RenderUnion(r.resolve, k.oneOf), RenderIntersection(r.resolve, k.allOf), v);
    var five := three + RenderUnion(r.resolve, k.oneOf) + RenderIntersection(r.resolve, k.allOf);
    EveryConcat(r.env, five, RenderTypes(r.resolve, k), v);
  }

  lemma EveryConcat(env: Environment, x: seq<Type>, y: seq<Type>, v: Value)
    ensures AllOf(env, x + y, v) <==> AllOf(env, x, v) && AllOf(env, y, v)
  {
    assert forall t :: t in x + y <==> t in x || t in y;
  }

  lemma EveryOne(env: Environment, t: Type, v: Value)
    ensures AllOf(env, [t], v) <==> Inhabits(env, t, v)
  {
    assert t in [t];
  }

  lemma {:induction false} LiteralsMean(values: seq<Value>, t: Type)
    ensures t in Literals(values) <==> t.Literal? && t.value in values
  {
    if values != [] {
      LiteralsMean(values[1..], t);
    }
  }

  lemma ValuesMean(r: Reading, k: Keywords, v: Value)
    ensures AllOf(r.env, RenderValues(k), v) <==>
            && (k.constant.Some? ==> v == k.constant.value)
            && (k.constant.None? && k.enumeration.Some? && k.enumeration.value != [] ==> v in k.enumeration.value)
  {
    if k.constant.Some? {
      EveryOne(r.env, Literal(k.constant.value), v);
    } else if k.enumeration.Some? {
      EveryOne(r.env, Unite(Literals(k.enumeration.value)), v);
      EnumerationMeans(r.env, k.enumeration.value, v);
    }
  }

  lemma EnumerationMeans(env: Environment, values: seq<Value>, v: Value)
    ensures Inhabits(env, Unite(Literals(values)), v) <==> values == [] || v in values
  {
    var types := Literals(values);
    UniteMeans(env, types, v);
    forall t ensures t in types <==> t.Literal? && t.value in values {
      LiteralsMean(values, t);
    }
    assert Inhabits(env, Literal(v), v);
    assert AnyOf(env, types, v) <==> Literal(v) in types;
    assert values != [] ==> Literal(values[0]) in types;
  }

  lemma {:induction false} UnionMeans(r: Reading, branches: Branches, v: Value)
    ensures AllOf(r.env, RenderUnion(r.resolve, branches), v) <==> SomeFits(r, branches, v)
    decreases branches
  {
    if branches.Branches? {
      var list, types := branches.list, RenderAll(r.resolve, branches.list);
      AllRendered(r.resolve, list);
      forall i | 0 <= i < |list| ensures Inhabits(r.env, types[i], v) <==> Fits(r, list[i], v) {
        TypesMean(r, list[i], v);
      }
      NeverAmong(r.resolve, list);
      UnionOfFitting(r, list, v);
      assert RenderUnion(r.resolve, branches) == [Unite(types)];
    }
  }

  lemma UnionOfFitting(r: Reading, list: seq<Schema>, v: Value)
    requires var types := RenderAll(r.resolve, list);
             && (forall i :: 0 <= i < |list| ==> (Inhabits(r.env, types[i], v) <==> Fits(r, list[i], v)))
             && ((forall t :: t in types ==> t == Never) <==> forall i :: 0 <= i < |list| ==> IsNever(list[i]))
    ensures AllOf(r.env, [Unite(RenderAll(r.resolve, list))], v) <==> SomeFits(r, Branches(list), v)
  {
    var types := RenderAll(r.resolve, list);
    AnyOfList(r.env, types, v);
    if i :| 0 <= i < |list| && Fits(r, list[i], v) {
      assert Inhabits(r.env, types[i], v);
    }
  }

  lemma AnyOfList(env: Environment, types: seq<Type>, v: Value)
    ensures AllOf(env, [Unite(types)], v) <==>
            || (exists i :: 0 <= i < |types| && Inhabits(env, types[i], v))
            || (forall t :: t in types ==> t == Never)
  {
    EveryOne(env, Unite(types), v);
    UniteMeans(env, types, v);
    SomeAt(env, types, v);
  }

  lemma SomeAt(env: Environment, types: seq<Type>, v: Value)
    ensures AnyOf(env, types, v) <==> exists i :: 0 <= i < |types| && Inhabits(env, types[i], v)
  {
    if t :| t in types && Inhabits(env, t, v) {
      var i :| 0 <= i < |types| && types[i] == t;
    }
    if i :| 0 <= i < |types| && Inhabits(env, types[i], v) {
      assert types[i] in types;
    }
  }

  lemma {:induction false} IntersectionMeans(r: Reading, branches: Branches, v: Value)
    ensures AllOf(r.env, RenderIntersection(r.resolve, branches), v) <==> EachFits(r, branches, v)
    decreases branches
  {
    if branches.Branches? {
      var list, types := branches.list, RenderAll(r.resolve, branches.list);
      EveryOne(r.env, Intersect(types), v);
      IntersectMeans(r.env, types, v);
      AllRendered(r.resolve, list);
      forall i | 0 <= i < |list| ensures Inhabits(r.env, types[i], v) <==> Fits(r, list[i], v) {
        TypesMean(r, list[i], v);
      }
      assert forall i :: 0 <= i < |types| ==> types[i] in types;
    }
  }

  lemma {:induction false} TypeKeywordMeans(r: Reading, k: Keywords, v: Value)
    ensures AllOf(r.env, RenderTypes(r.resolve, k), v) <==>
            (k.constant.None? && k.enumeration.None? ==> TypeFits(r, k, v))
    decreases k, 3
  {
    if k.constant.None? && k.enumeration.None? {
      if k.types != [] {
        EveryOne(r.env, Unite(RenderEach(r.resolve, k, k.types)), v);
        ListedMeans(r, k, v);
      } else if k.properties.Properties? || k.additional.Some? {
        EveryOne(r.env, RenderObject(r.resolve, k), v);
        RecordMeans(r, k, v);
      } else if k.items.Some? || k.prefixItems.Branches? {
        EveryOne(r.env, RenderArray(r.resolve, k), v);
        ArrayMeans(r, k, v);
      }
    }
  }

  lemma {:induction false} ListedMeans(r: Reading, k: Keywords, v: Value)
    requires k.types != []
    ensures Inhabits(r.env, Unite(RenderEach(r.resolve, k, k.types)), v) <==>
            exists i :: 0 <= i < |k.types| && NameFits(r, k, k.types[i], v)
    decreases k, 2
  {
    var each := RenderEach(r.resolve, k, k.types);
    UniteMeans(r.env, each, v);
    SomeAt(r.env, each, v);
    forall i | 0 <= i < |k.types|
      ensures each[i] != Never && (Inhabits(r.env, each[i], v) <==> NameFits(r, k, k.types[i], v))
    {
      EachAt(r.resolve, k, k.types, i);
      NameMeans(r, k, k.types[i], v);
    }
    assert each[0] in each;
  }

  lemma {:induction false} EachAt(resolve: Resolver, k: Keywords, types: seq<string>, i: nat)
    requires i < |types|
    ensures RenderEach(resolve, k, types)[i] == RenderType(resolve, k, types[i])
    decreases i
  {
    if i > 0 {
      EachAt(resolve, k, types[1..], i - 1);
    }
  }

  lemma {:induction false} NameMeans(r: Reading, k: Keywords, name: string, v: Value)
    ensures Inhabits(r.env, RenderType(r.resolve, k, name), v) <==> NameFits(r, k, name, v)
    decreases k, 1
  {
    if name == "array" {
      ArrayMeans(r, k, v);
    } else if name == "object" {
      RecordMeans(r, k, v);
    }
  }

  lemma {:induction false} ArrayMeans(r: Reading, k: Keywords, v: Value)
    ensures Inhabits(r.env, RenderArray(r.resolve, k), v) <==> ArrayFits(r, k, v)
    decreases k, 0
  {
    if v.Arr? {
      var prefix := List(k.prefixItems);
      forall i | 0 <= i < |v.items| && i < |prefix| ensures Holds(r, prefix[i], v.items[i]) <==>
          Fits(r, prefix[i], v.items[i]) {
        TypesMean(r, prefix[i], v.items[i]);
      }
      if k.items.Some? {
        forall i | 0 <= i < |v.items| ensures Holds(r, k.items.value, v.items[i]) <==>
            Fits(r, k.items.value, v.items[i]) {
          TypesMean(r, k.items.value, v.items[i]);
        }
      }
      assert ArrayFits(r, k, v) <==> ItemsHeld(r, k, v) && FitsTuple(k, v);
      if ItemsHeld(r, k, v) {
        ArrayHolds(r, k, v);
      } else if Inhabits(r.env, RenderArray(r.resolve, k), v) {
        ItemsOfType(r, k, v);
      }
    }
  }

  /** What inhabits the rendered array has items that hold. */
  lemma ItemsOfType(r: Reading, k: Keywords, v: Value)
    requires v.Arr? && Inhabits(r.env, RenderArray(r.resolve, k), v)
    ensures ItemsHeld(r, k, v)
  {
    var prefix := List(k.prefixItems);
    AllRendered(r.resolve, prefix);
    if k.prefixItems.Branches? {
      forall i | 0 <= i < |v.items| && i < |prefix| ensures Holds(r, prefix[i], v.items[i]) {
        assert Inhabits(r.env, RenderAll(r.resolve, prefix)[i], v.items[i]);
      }
    }
  }

  lemma {:induction false} RecordMeans(r: Reading, k: Keywords, v: Value)
    ensures Inhabits(r.env, RenderObject(r.resolve, k), v) <==> RecordFits(r, k, v)
    decreases k, 0
  {
    if v.Obj? {
      var members := MemberList(k.properties);
      forall i | 0 <= i < |members| && Has(v.fields, members[i].name)
        ensures var field := v.fields[IndexOf(v.fields, members[i].name)].value;
                Holds(r, members[i].schema, field) <==> Fits(r, members[i].schema, field)
      {
        TypesMean(r, members[i].schema, v.fields[IndexOf(v.fields, members[i].name)].value);
      }
      if k.additional.Some? {
        forall i | 0 <= i < |v.fields|
          ensures Holds(r, k.additional.value, v.fields[i].value) <==> Fits(r, k.additional.value, v.fields[i].value)
        {
          TypesMean(r, k.additional.value, v.fields[i].value);
        }
      }
      PropertiesMean(r, k, v);
      IndexMeans(r, k, v);
      RecordInhabits(r, k, v);
    }
  }

  predicate MembersInhabit(env: Environment, properties: seq<RenderedTypes.Property>, v: Value)
    requires v.Obj?
  {
    forall i :: 0 <= i < |properties| ==>
                  var at := IndexOf(v.fields, properties[i].name);
                  if at < |v.fields| then Inhabits(env, properties[i].value, v.fields[at].value)
                  else properties[i].optional
  }

  lemma RecordInhabits(r: Reading, k: Keywords, v: Value)
    requires v.Obj?
    ensures var members := MemberList(k.properties);
            Inhabits(r.env, RenderObject(r.resolve, k), v) <==>
            && MembersInhabit(r.env, RenderMembers(r.resolve, Required(k), members), v)
            && IndexInhabits(r.env, members != [], RenderIndex(r.resolve, k, members != []), v)
  {
    var members := MemberList(k.properties);
    var rendered, index := RenderMembers(r.resolve, Required(k), members), RenderIndex(r.resolve, k, members != []);
    assert RenderObject(r.resolve, k) == ObjectOf(rendered, index);
    ObjectOfMeans(r.env, rendered, index, v);
  }

  lemma ObjectOfMeans(env: Environment, properties: seq<RenderedTypes.Property>, index: Rest, v: Value)
    requires v.Obj?
    ensures Inhabits(env, ObjectOf(properties, index), v) <==>
            MembersInhabit(env, properties, v) && IndexInhabits(env, properties != [], index, v)
  {
  }

  lemma PropertiesMean(r: Reading, k: Keywords, v: Value)
    requires v.Obj?
    requires forall i :: 0 <= i < |MemberList(k.properties)| && Has(v.fields, MemberList(k.properties)[i].name) ==>
                           var field := v.fields[IndexOf(v.fields, MemberList(k.properties)[i].name)].value;
                           Holds(r, MemberList(k.properties)[i].schema, field)
                           <==> Fits(r, MemberList(k.properties)[i].schema, field)
    ensures MembersInhabit(r.env, RenderMembers(r.resolve, Required(k), MemberList(k.properties)), v)
            <==> MembersFit(r, k, v)
  {
    var members := MemberList(k.properties);
    var rendered := RenderMembers(r.resolve, Required(k), members);
    forall i | 0 <= i < |members|
      ensures rendered[i]
              == Property(members[i].name, members[i].name !in Required(k), Render(r.resolve, members[i].schema))
    {
      MemberRendered(r.resolve, Required(k), members, i);
    }
    if MembersInhabit(r.env, rendered, v) {
      forall i | 0 <= i < |members|
        ensures var at := IndexOf(v.fields, members[i].name);
                if at < |v.fields| then Fits(r, members[i].schema, v.fields[at].value)
                else members[i].name !in Required(k)
      {
        assert rendered[i].name == members[i].name;
      }
    }
  }

  predicate IndexInhabits(env: Environment, named: bool, index: Rest, v: Value)
    requires v.Obj?
  {
    && (!named && index.NoRest? ==> v.fields == [])
    && (index.Rest? ==> forall i :: 0 <= i < |v.fields| ==> Inhabits(env, index.element, v.fields[i].value))
  }

  lemma IndexMeans(r: Reading, k: Keywords, v: Value)
    requires v.Obj?
    requires k.additional.Some? ==>
               forall i :: 0 <= i < |v.fields| ==>
                             (Holds(r, k.additional.value, v.fields[i].value)
                              <==> Fits(r, k.additional.value, v.fields[i].value))
    ensures var named := MemberList(k.properties) != [];
            IndexInhabits(r.env, named, RenderIndex(r.resolve, k, named), v)
            <==> (RecordShape(k) || v.fields == []) && FieldsFit(r, k, v)
  {
    if k.additional.Some? {
      var s := k.additional.value;
      assert MemberList(k.properties) == [] && v.fields != [] ==>
          (Holds(r, s, v.fields[0].value) <==> Fits(r, s, v.fields[0].value));
      if s.Boolean? && s.accept {
        assert forall i :: 0 <= i < |v.fields| ==> Fits(r, s, v.fields[i].value);
      }
    }
  }
}
