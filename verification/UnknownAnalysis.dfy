/** The analysis of `unknown` in a schema agrees with the type rendered from it. */
module UnknownAnalysis {
  import opened Json
  import opened JsonSchema
  import opened RenderedTypes

  function Summaries(types: seq<Type>): (r: seq<Analysis>)
    ensures |r| == |types|
  {
    if types == [] then [] else [Summary(types[0])] + Summaries(types[1..])
  }

  // ----- Lists of types -----

  lemma {:induction false} SomeUnknownMeans(types: seq<Type>)
    ensures SomeUnknown(types) <==> exists t :: t in types && HasUnknown(t)
  {
    if types != [] {
      SomeUnknownMeans(types[1..]);
      assert types[0] in types;
      assert forall t :: t in types <==> t == types[0] || t in types[1..];
      if t :| t in types && HasUnknown(t) {
        assert t == types[0] || t in types[1..];
      }
    }
  }

  lemma {:induction false} AllMentionsMeans(types: seq<Type>, name: string)
    ensures name in AllMentions(types) <==> exists t :: t in types && name in Mentions(t)
  {
    if types != [] {
      AllMentionsMeans(types[1..], name);
      assert types[0] in types;
      assert forall t :: t in types <==> t == types[0] || t in types[1..];
      if t :| t in types && name in Mentions(t) {
        assert t == types[0] || t in types[1..];
      }
    }
  }

  lemma SameElements(a: seq<Type>, b: seq<Type>)
    requires forall t :: t in a <==> t in b
    ensures SomeUnknown(a) == SomeUnknown(b) && AllMentions(a) == AllMentions(b)
  {
    SomeUnknownMeans(a);
    SomeUnknownMeans(b);
    forall name ensures name in AllMentions(a) <==> name in AllMentions(b) {
      AllMentionsMeans(a, name);
      AllMentionsMeans(b, name);
    }
  }

  /** The merged summaries of a list speak of the whole list. */
  lemma {:induction false} SummariesMean(types: seq<Type>)
    ensures SomeContains(Summaries(types)) == SomeUnknown(types)
    ensures Merged(Summaries(types)) == AllMentions(types)
    ensures SomeOfKind(Summaries(types), UnknownKind) <==> Unknown in types
    ensures SomeOfKind(Summaries(types), NeverKind) <==> Never in types
  {
    if types != [] {
      SummariesMean(types[1..]);
      assert Summaries(types)[1..] == Summaries(types[1..]);
    }
  }

  lemma {:induction false} FilteredSummaries(types: seq<Type>)
    ensures NotOfKind(Summaries(types), NeverKind) == Summaries(Less(types, Never))
    ensures NotOfKind(Summaries(types), UnknownKind) == Summaries(Less(types, Unknown))
  {
    if types != [] {
      FilteredSummaries(types[1..]);
      assert Summaries(types)[1..] == Summaries(types[1..]);
      assert Less(types, Never) == (if types[0] == Never then [] else [types[0]]) + Less(types[1..], Never);
      assert Less(types, Unknown) == (if types[0] == Unknown then [] else [types[0]]) + Less(types[1..], Unknown);
      SummariesOfConcat(if types[0] == Never then [] else [types[0]], Less(types[1..], Never));
      SummariesOfConcat(if types[0] == Unknown then [] else [types[0]], Less(types[1..], Unknown));
    }
  }

  lemma {:induction false} SummariesOfConcat(a: seq<Type>, b: seq<Type>)
    ensures Summaries(a + b) == Summaries(a) + Summaries(b)
  {
    if a == [] {
      assert a + b == b;
    } else {
      SummariesOfConcat(a[1..], b);
      assert (a + b)[0] == a[0] && (a + b)[1..] == a[1..] + b;
      assert Summaries(a + b) == [Summary(a[0])] + (Summaries(a[1..]) + Summaries(b));
    }
  }

  /** What remains of a union or an intersection after duplicates and neutral members are gone. */
  lemma OtherAgrees(types: seq<Type>, values: seq<Type>, t: Type)
    requires forall x :: x in types <==> x in values
    requires values != [] && Unknown !in values && Never !in values
    requires t == if |values| == 1 then values[0] else if t.UnionOf? then UnionOf(values) else IntersectionOf(values)
    ensures OtherOf(Summaries(types)) == Summary(t)
  {
    SummariesMean(types);
    SameElements(types, values);
    if |values| == 1 {
      assert values == [values[0]] && values[0] in values;
      assert AllMentions(values) == Mentions(values[0]) + AllMentions(values[1..]);
    }
  }

  lemma UniteAgrees(types: seq<Type>)
    ensures UnionOfAnalyses(Summaries(types)) == Summary(Unite(types))
  {
    var members, values := Less(types, Never), Less(Once(types), Never);
    FilteredSummaries(types);
    SummariesMean(members);
    assert members == [] <==> values == [] by {
      assert forall t :: t in members <==> t in values;
      if members != [] {
        assert members[0] in values;
      }
      if values != [] {
        assert values[0] in members;
      }
    }
    if Unknown !in values && values != [] {
      OtherAgrees(members, values, Unite(types));
    }
  }

  lemma IntersectAgrees(types: seq<Type>)
    ensures IntersectionOfAnalyses(Summaries(types)) == Summary(Intersect(types))
  {
    var members, values := Less(types, Unknown), Less(Once(types), Unknown);
    FilteredSummaries(types);
    SummariesMean(types);
    assert members == [] <==> values == [] by {
      assert forall t :: t in members <==> t in values;
      if members != [] {
        assert members[0] in values;
      }
      if values != [] {
        assert values[0] in members;
      }
    }
    if Never !in types && values != [] {
      OtherAgrees(members, values, Intersect(types));
    }
  }

  // ----- Agreement -----

  /** The analysis says unknown, never, contains-unknown and which references exactly as the
      rendered type does. */
  lemma {:induction false} AnalysisAgrees(resolve: Resolver, s: Schema)
    ensures Analyze(resolve, s) == Summary(Render(resolve, s))
    decreases s
  {
    match s
    case Boolean(_) =>
    case Object(k) =>
      PartsAgree(resolve, k);
      IntersectAgrees(RenderParts(resolve, k));
      var t := Intersect(RenderParts(resolve, k));
      UniteAgrees([t, Primitive("null")]);
      assert Summaries([t, Primitive("null")]) == [Summary(t), OtherAnalysis] by {
        assert [t, Primitive("null")][1..] == [Primitive("null")];
      }
  }

  lemma {:induction false} AllAgree(resolve: Resolver, schemas: seq<Schema>)
    ensures AnalyzeAll(resolve, schemas) == Summaries(RenderAll(resolve, schemas))
    decreases schemas
  {
    if schemas != [] {
      AnalysisAgrees(resolve, schemas[0]);
      AllAgree(resolve, schemas[1..]);
    }
  }

  lemma {:induction false} BranchesAgree(resolve: Resolver, branches: Branches)
    ensures AnalyzeUnion(resolve, branches) == Summaries(RenderUnion(resolve, branches))
    ensures AnalyzeIntersection(resolve, branches) == Summaries(RenderIntersection(resolve, branches))
    decreases branches
  {
    if branches.Branches? {
      AllAgree(resolve, branches.list);
      UniteAgrees(RenderAll(resolve, branches.list));
      IntersectAgrees(RenderAll(resolve, branches.list));
    }
  }

  /** Lists that agree still agree when they are joined. */
  lemma JoinedAgree(a: seq<Analysis>, x: seq<Type>, b: seq<Analysis>, y: seq<Type>)
    requires a == Summaries(x) && b == Summaries(y)
    ensures a + b == Summaries(x + y)
  {
    SummariesOfConcat(x, y);
  }

  lemma {:induction false} PartsAgree(resolve: Resolver, k: Keywords)
    ensures AnalyzeParts(resolve, k) == Summaries(RenderParts(resolve, k))
    decreases k, 4
  {
    var a := if k.ref.Some? then [Analysis(false, OtherKind, {resolve(k.ref.value)})] else [];
    var x := if k.ref.Some? then [Named(resolve(k.ref.value))] else [];
    assert a == Summaries(x);
    ValuesAgree(k);
    JoinedAgree(a, x, AnalyzeValues(k), RenderValues(k));
    a, x := a + AnalyzeValues(k), x + RenderValues(k);
    BranchesAgree(resolve, k.anyOf);
    JoinedAgree(a, x, AnalyzeUnion(resolve, k.anyOf), RenderUnion(resolve, k.anyOf));
    a, x := a + AnalyzeUnion(resolve, k.anyOf), x + RenderUnion(resolve, k.anyOf);
    BranchesAgree(resolve, k.oneOf);
    JoinedAgree(a, x, AnalyzeUnion(resolve, k.oneOf), RenderUnion(resolve, k.oneOf));
    a, x := a + AnalyzeUnion(resolve, k.oneOf), x + RenderUnion(resolve, k.oneOf);
    BranchesAgree(resolve, k.allOf);
    JoinedAgree(a, x, AnalyzeIntersection(resolve, k.allOf), RenderIntersection(resolve, k.allOf));
    a, x := a + AnalyzeIntersection(resolve, k.allOf), x + RenderIntersection(resolve, k.allOf);
    TypesAgree(resolve, k);
    JoinedAgree(a, x, AnalyzeTypes(resolve, k), RenderTypes(resolve, k));
  }

  lemma ValuesAgree(k: Keywords)
    ensures AnalyzeValues(k) == Summaries(RenderValues(k))
  {
    if k.constant.None? && k.enumeration.Some? {
      LiteralsAgree(k.enumeration.value);
      UniteAgrees(Literals(k.enumeration.value));
    }
  }

  lemma {:induction false} LiteralsAgree(values: seq<Value>)
    ensures Others(|values|) == Summaries(Literals(values))
  {
    if values != [] {
      LiteralsAgree(values[1..]);
    }
  }

  lemma {:induction false} TypesAgree(resolve: Resolver, k: Keywords)
    ensures AnalyzeTypes(resolve, k) == Summaries(RenderTypes(resolve, k))
    decreases k, 3
  {
    ObjectAgrees(resolve, k);
    ArrayAgrees(resolve, k);
    EachAgrees(resolve, k, k.types);
    UniteAgrees(RenderEach(resolve, k, k.types));
  }

  lemma {:induction false} EachAgrees(resolve: Resolver, k: Keywords, types: seq<string>)
    ensures AnalyzeEach(resolve, k, types) == Summaries(RenderEach(resolve, k, types))
    decreases k, 2, types
  {
    if types != [] {
      NamedTypeAgrees(resolve, k, types[0]);
      EachAgrees(resolve, k, types[1..]);
    }
  }

  lemma {:induction false} NamedTypeAgrees(resolve: Resolver, k: Keywords, name: string)
    ensures AnalyzeType(resolve, k, name) == Summary(RenderType(resolve, k, name))
    decreases k, 1
  {
    if name == "object" {
      ObjectAgrees(resolve, k);
    } else if name == "array" {
      ArrayAgrees(resolve, k);
    }
  }

  /** A structured type summarises its parts. */
  lemma StructureAgrees(parts: seq<Type>)
    ensures OtherOf(Summaries(parts)) == Analysis(SomeUnknown(parts), OtherKind, AllMentions(parts))
  {
    SummariesMean(parts);
  }

  function RestOf(rest: Rest): seq<Type> {
    if rest.Rest? then [rest.element] else []
  }

  lemma {:induction false} PartsOfConcat(a: seq<Type>, b: seq<Type>)
    ensures SomeUnknown(a + b) == (SomeUnknown(a) || SomeUnknown(b))
            && AllMentions(a + b) == AllMentions(a) + AllMentions(b)
  {
    if a == [] {
      assert a + b == b;
    } else {
      PartsOfConcat(a[1..], b);
      assert (a + b)[1..] == a[1..] + b;
    }
  }

  function ValuesOf(properties: seq<Property>): seq<Type> {
    if properties == [] then [] else [properties[0].value] + ValuesOf(properties[1..])
  }

  lemma {:induction false} PropertiesMean(properties: seq<Property>)
    ensures SomePropertyUnknown(properties) == SomeUnknown(ValuesOf(properties))
    ensures PropertyMentions(properties) == AllMentions(ValuesOf(properties))
  {
    if properties != [] {
      PropertiesMean(properties[1..]);
    }
  }

  lemma {:induction false} MembersAgree(resolve: Resolver, required: seq<string>, members: seq<Member>)
    ensures AnalyzeMembers(resolve, members) == Summaries(ValuesOf(RenderMembers(resolve, required, members)))
    decreases members
  {
    if members != [] {
      AnalysisAgrees(resolve, members[0].schema);
      MembersAgree(resolve, required, members[1..]);
    }
  }

  lemma {:induction false} IndexAgrees(resolve: Resolver, k: Keywords, named: bool)
    ensures AnalyzeIndex(resolve, k, named) == Summaries(RestOf(RenderIndex(resolve, k, named)))
    decreases k, 0, 0
  {
    if k.additional.Some? && k.additional.value.Object? {
      AnalysisAgrees(resolve, k.additional.value);
    }
  }

  lemma {:induction false} ObjectAgrees(resolve: Resolver, k: Keywords)
    ensures AnalyzeObject(resolve, k) == Summary(RenderObject(resolve, k))
    decreases k, 0
  {
    var t := RenderObject(resolve, k);
    if k.properties.Properties? {
      MembersAgree(resolve, Required(k), k.properties.members);
    }
    IndexAgrees(resolve, k, t.properties != []);
    var values, rest := ValuesOf(t.properties), RestOf(t.index);
    SummariesOfConcat(values, rest);
    StructureAgrees(values + rest);
    PartsOfConcat(values, rest);
    PropertiesMean(t.properties);
    assert SomeUnknown(rest) == (t.index.Rest? && HasUnknown(t.index.element));
    assert AllMentions(rest) == if t.index.Rest? then Mentions(t.index.element) else {};
  }

  lemma TupleAgrees(members: seq<Type>, rest: Rest)
    ensures OtherOf(Summaries(members) + Summaries(RestOf(rest))) == Summary(TupleOf(members, rest))
  {
    SummariesOfConcat(members, RestOf(rest));
    StructureAgrees(members + RestOf(rest));
    PartsOfConcat(members, RestOf(rest));
    assert SomeUnknown(RestOf(rest)) == (rest.Rest? && HasUnknown(rest.element));
    assert AllMentions(RestOf(rest)) == if rest.Rest? then Mentions(rest.element) else {};
  }

  lemma {:induction false} RestAgrees(resolve: Resolver, k: Keywords)
    ensures AnalyzeRest(resolve, k) == Summaries(if k.items.None? || k.items == Some(Boolean(false)) then []
                                                 else [Render(resolve, k.items.value)])
    decreases k, 0, 0
  {
    if k.items.Some? {
      AnalysisAgrees(resolve, k.items.value);
    }
  }

  lemma {:induction false} ArrayAgrees(resolve: Resolver, k: Keywords)
    ensures AnalyzeArray(resolve, k) == Summary(RenderArray(resolve, k))
    decreases k, 0
  {
    RestAgrees(resolve, k);
    var t := RenderArray(resolve, k);
    if k.prefixItems.Branches? {
      AllAgree(resolve, k.prefixItems.list);
      TupleAgrees(t.members, t.rest);
    } else if t.TupleOf? {
      TupleAgrees([], NoRest);
      assert Summaries([]) + Summaries([]) == [];
    } else {
      StructureAgrees([t.element]);
      assert Summaries([t.element]) == [Summary(t.element)];
      assert AllMentions([t.element]) == Mentions(t.element);
      assert SomeUnknown([t.element]) == HasUnknown(t.element);
    }
  }
}
