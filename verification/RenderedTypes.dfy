/** The TypeScript types rendered from schemas, and the analysis that predicts where they hold
    `unknown` without rendering them. */
module RenderedTypes {
  import opened Json
  import opened JsonSchema

  /** A rendered type, up to its text. */
  datatype Type =
    | Unknown
    | Never
    | Named(name: string)
    | Primitive(name: string)
    | Literal(value: Value)
    | ArrayOf(element: Type)
    | TupleOf(members: seq<Type>, rest: Rest)
    | ObjectOf(properties: seq<Property>, index: Rest)
    | UnionOf(members: seq<Type>)
    | IntersectionOf(members: seq<Type>)

  datatype Rest = NoRest | Rest(element: Type)

  datatype Property = Property(name: string, optional: bool, value: Type)

  /** Turns a local reference into the name of its definition. */
  type Resolver = string -> string

  // ----- Rendering -----

  function Once(types: seq<Type>): (r: seq<Type>)
    ensures forall t :: t in r <==> t in types
  {
    if types == [] then []
    else
      var init := Once(types[..|types| - 1]);
      if types[|types| - 1] in init then init else init + [types[|types| - 1]]
  }

  function Less(types: seq<Type>, excluded: Type): (r: seq<Type>)
    ensures forall t :: t in r <==> t in types && t != excluded
  {
    if types == [] then []
    else (if types[0] == excluded then [] else [types[0]]) + Less(types[1..], excluded)
  }

  function Unite(types: seq<Type>): Type {
    var values := Less(Once(types), Never);
    if Unknown in values || values == [] then Unknown
    else if |values| == 1 then values[0]
    else UnionOf(values)
  }

  function Intersect(types: seq<Type>): Type {
    if Never in types then Never
    else
      var values := Less(Once(types), Unknown);
      if values == [] then Unknown
      else if |values| == 1 then values[0]
      else IntersectionOf(values)
  }

  function Render(resolve: Resolver, s: Schema): Type
    decreases s
  {
    match s
    case Boolean(accept) => if accept then Unknown else Never
    case Object(k) =>
      var rendered := Intersect(RenderParts(resolve, k));
      if k.nullable then Unite([rendered, Primitive("null")]) else rendered
  }

  function RenderParts(resolve: Resolver, k: Keywords): seq<Type>
    decreases k, 4
  {
    (if k.ref.Some? then [Named(resolve(k.ref.value))] else [])
    + RenderValues(k)
    + RenderUnion(resolve, k.anyOf)
    + RenderUnion(resolve, k.oneOf)
    + RenderIntersection(resolve, k.allOf)
    + RenderTypes(resolve, k)
  }

  function RenderUnion(resolve: Resolver, branches: Branches): seq<Type>
    decreases branches
  {
    if branches.Branches? then [Unite(RenderAll(resolve, branches.list))] else []
  }

  function RenderIntersection(resolve: Resolver, branches: Branches): seq<Type>
    decreases branches
  {
    if branches.Branches? then [Intersect(RenderAll(resolve, branches.list))] else []
  }

  function RenderValues(k: Keywords): seq<Type> {
    if k.constant.Some? then [Literal(k.constant.value)]
    else if k.enumeration.Some? then [Unite(Literals(k.enumeration.value))]
    else []
  }

  function Literals(values: seq<Value>): (r: seq<Type>)
    ensures |r| == |values|
  {
    if values == [] then [] else [Literal(values[0])] + Literals(values[1..])
  }

  function RenderAll(resolve: Resolver, schemas: seq<Schema>): (r: seq<Type>)
    ensures |r| == |schemas|
    decreases schemas
  {
    if schemas == [] then [] else [Render(resolve, schemas[0])] + RenderAll(resolve, schemas[1..])
  }

  function RenderTypes(resolve: Resolver, k: Keywords): seq<Type>
    decreases k, 3
  {
    if k.constant.Some? || k.enumeration.Some? then []
    else if k.types != [] then [Unite(RenderEach(resolve, k, k.types))]
    else if k.properties.Properties? || k.additional.Some? then [RenderObject(resolve, k)]
    else if k.items.Some? || k.prefixItems.Branches? then [RenderArray(resolve, k)]
    else []
  }

  function RenderEach(resolve: Resolver, k: Keywords, types: seq<string>): (r: seq<Type>)
    ensures |r| == |types|
    decreases k, 2, types
  {
    if types == [] then [] else [RenderType(resolve, k, types[0])] + RenderEach(resolve, k, types[1..])
  }

  function RenderType(resolve: Resolver, k: Keywords, name: string): Type
    decreases k, 1
  {
    if name == "null" || name == "boolean" || name == "string" then Primitive(name)
    else if name == "integer" || name == "number" then Primitive("number")
    else if name == "array" then RenderArray(resolve, k)
    else if name == "object" then RenderObject(resolve, k)
    else Unknown
  }

  function RenderObject(resolve: Resolver, k: Keywords): Type
    decreases k, 0
  {
    var properties :=
      if k.properties.Properties? then RenderMembers(resolve, Required(k), k.properties.members) else [];
    ObjectOf(properties, RenderIndex(resolve, k, properties != []))
  }

  /** A schema for further properties beside named ones cannot be rendered exactly. */
  function RenderIndex(resolve: Resolver, k: Keywords, named: bool): Rest
    decreases k, 0, 0
  {
    match k.additional
    case None => NoRest
    case Some(s) =>
      if s.Boolean? then (if s.accept then Rest(Unknown) else NoRest)
      else if named then Rest(Unknown)
      else Rest(Render(resolve, s))
  }

  function RenderMembers(resolve: Resolver, required: seq<string>, members: seq<Member>): (r: seq<Property>)
    ensures |r| == |members|
    decreases members
  {
    if members == [] then []
    else [Property(members[0].name, members[0].name !in required, Render(resolve, members[0].schema))]
         + RenderMembers(resolve, required, members[1..])
  }

  function RenderArray(resolve: Resolver, k: Keywords): Type
    decreases k, 0
  {
    if k.prefixItems.Branches? then
      var members := RenderAll(resolve, k.prefixItems.list);
      if k.items.None? || k.items == Some(Boolean(false)) then TupleOf(members, NoRest)
      else TupleOf(members, Rest(Render(resolve, k.items.value)))
    else if k.items == Some(Boolean(false)) then TupleOf([], NoRest)
    else if k.items.None? || k.items == Some(Boolean(true)) then ArrayOf(Unknown)
    else ArrayOf(Render(resolve, k.items.value))
  }

  // ----- What a type holds -----

  datatype Kind = NeverKind | OtherKind | UnknownKind

  datatype Analysis = Analysis(containsUnknown: bool, kind: Kind, references: set<string>)

  predicate HasUnknown(t: Type) {
    match t
    case Unknown => true
    case ArrayOf(element) => HasUnknown(element)
    case TupleOf(members, rest) => SomeUnknown(members) || (rest.Rest? && HasUnknown(rest.element))
    case ObjectOf(properties, index) => SomePropertyUnknown(properties) || (index.Rest? && HasUnknown(index.element))
    case UnionOf(members) => SomeUnknown(members)
    case IntersectionOf(members) => SomeUnknown(members)
    case _ => false
  }

  predicate SomeUnknown(types: seq<Type>) {
    types != [] && (HasUnknown(types[0]) || SomeUnknown(types[1..]))
  }

  predicate SomePropertyUnknown(properties: seq<Property>) {
    properties != [] && (HasUnknown(properties[0].value) || SomePropertyUnknown(properties[1..]))
  }

  /** The definitions that a type names. */
  function Mentions(t: Type): set<string> {
    match t
    case Named(name) => {name}
    case ArrayOf(element) => Mentions(element)
    case TupleOf(members, rest) => AllMentions(members) + if rest.Rest? then Mentions(rest.element) else {}
    case ObjectOf(properties, index) =>
      PropertyMentions(properties) + if index.Rest? then Mentions(index.element) else {}
    case UnionOf(members) => AllMentions(members)
    case IntersectionOf(members) => AllMentions(members)
    case _ => {}
  }

  function AllMentions(types: seq<Type>): set<string> {
    if types == [] then {} else Mentions(types[0]) + AllMentions(types[1..])
  }

  function PropertyMentions(properties: seq<Property>): set<string> {
    if properties == [] then {} else Mentions(properties[0].value) + PropertyMentions(properties[1..])
  }

  /** All that the analysis is about, read off the rendered type. */
  function Summary(t: Type): Analysis {
    Analysis(HasUnknown(t), if t.Unknown? then UnknownKind else if t.Never? then NeverKind else OtherKind, Mentions(t))
  }

  // ----- The analysis -----

  const NeverAnalysis := Analysis(false, NeverKind, {})
  const OtherAnalysis := Analysis(false, OtherKind, {})
  const UnknownAnalysis := Analysis(true, UnknownKind, {})

  function SomeContains(list: seq<Analysis>): bool {
    list != [] && (list[0].containsUnknown || SomeContains(list[1..]))
  }

  function Merged(list: seq<Analysis>): set<string> {
    if list == [] then {} else list[0].references + Merged(list[1..])
  }

  predicate SomeOfKind(list: seq<Analysis>, kind: Kind) {
    list != [] && (list[0].kind == kind || SomeOfKind(list[1..], kind))
  }

  function NotOfKind(list: seq<Analysis>, kind: Kind): seq<Analysis> {
    if list == [] then [] else (if list[0].kind == kind then [] else [list[0]]) + NotOfKind(list[1..], kind)
  }

  function OtherOf(list: seq<Analysis>): Analysis {
    if !SomeContains(list) && Merged(list) == {} then OtherAnalysis
    else Analysis(SomeContains(list), OtherKind, Merged(list))
  }

  function UnionOfAnalyses(list: seq<Analysis>): Analysis {
    var members := NotOfKind(list, NeverKind);
    if members == [] || SomeOfKind(members, UnknownKind) then UnknownAnalysis else OtherOf(members)
  }

  function IntersectionOfAnalyses(list: seq<Analysis>): Analysis {
    if SomeOfKind(list, NeverKind) then NeverAnalysis
    else
      var members := NotOfKind(list, UnknownKind);
      if members == [] then UnknownAnalysis else OtherOf(members)
  }

  function Analyze(resolve: Resolver, s: Schema): Analysis
    decreases s
  {
    match s
    case Boolean(accept) => if accept then UnknownAnalysis else NeverAnalysis
    case Object(k) =>
      var result := IntersectionOfAnalyses(AnalyzeParts(resolve, k));
      if k.nullable then UnionOfAnalyses([result, OtherAnalysis]) else result
  }

  function AnalyzeParts(resolve: Resolver, k: Keywords): seq<Analysis>
    decreases k, 4
  {
    (if k.ref.Some? then [Analysis(false, OtherKind, {resolve(k.ref.value)})] else [])
    + AnalyzeValues(k)
    + AnalyzeUnion(resolve, k.anyOf)
    + AnalyzeUnion(resolve, k.oneOf)
    + AnalyzeIntersection(resolve, k.allOf)
    + AnalyzeTypes(resolve, k)
  }

  function AnalyzeUnion(resolve: Resolver, branches: Branches): seq<Analysis>
    decreases branches
  {
    if branches.Branches? then [UnionOfAnalyses(AnalyzeAll(resolve, branches.list))] else []
  }

  function AnalyzeIntersection(resolve: Resolver, branches: Branches): seq<Analysis>
    decreases branches
  {
    if branches.Branches? then [IntersectionOfAnalyses(AnalyzeAll(resolve, branches.list))] else []
  }

  function AnalyzeValues(k: Keywords): seq<Analysis> {
    if k.constant.Some? then [OtherAnalysis]
    else if k.enumeration.Some? then [UnionOfAnalyses(Others(|k.enumeration.value|))]
    else []
  }

  function Others(n: nat): seq<Analysis> {
    if n == 0 then [] else [OtherAnalysis] + Others(n - 1)
  }

  function AnalyzeAll(resolve: Resolver, schemas: seq<Schema>): seq<Analysis>
    decreases schemas
  {
    if schemas == [] then [] else [Analyze(resolve, schemas[0])] + AnalyzeAll(resolve, schemas[1..])
  }

  function AnalyzeTypes(resolve: Resolver, k: Keywords): seq<Analysis>
    decreases k, 3
  {
    if k.constant.Some? || k.enumeration.Some? then []
    else if k.types != [] then [UnionOfAnalyses(AnalyzeEach(resolve, k, k.types))]
    else if k.properties.Properties? || k.additional.Some? then [AnalyzeObject(resolve, k)]
    else if k.items.Some? || k.prefixItems.Branches? then [AnalyzeArray(resolve, k)]
    else []
  }

  function AnalyzeEach(resolve: Resolver, k: Keywords, types: seq<string>): seq<Analysis>
    decreases k, 2, types
  {
    if types == [] then [] else [AnalyzeType(resolve, k, types[0])] + AnalyzeEach(resolve, k, types[1..])
  }

  function AnalyzeType(resolve: Resolver, k: Keywords, name: string): Analysis
    decreases k, 1
  {
    if name == "array" then AnalyzeArray(resolve, k)
    else if name == "object" then AnalyzeObject(resolve, k)
    else if name in ["null", "boolean", "integer", "number", "string"] then OtherAnalysis
    else UnknownAnalysis
  }

  function AnalyzeObject(resolve: Resolver, k: Keywords): Analysis
    decreases k, 0
  {
    var properties := if k.properties.Properties? then AnalyzeMembers(resolve, k.properties.members) else [];
    OtherOf(properties + AnalyzeIndex(resolve, k, properties != []))
  }

  function AnalyzeIndex(resolve: Resolver, k: Keywords, named: bool): seq<Analysis>
    decreases k, 0, 0
  {
    match k.additional
    case None => []
    case Some(s) =>
      if s.Boolean? then (if s.accept then [UnknownAnalysis] else [])
      else if named then [UnknownAnalysis]
      else [Analyze(resolve, s)]
  }

  function AnalyzeMembers(resolve: Resolver, members: seq<Member>): (r: seq<Analysis>)
    ensures |r| == |members|
    decreases members
  {
    if members == [] then [] else [Analyze(resolve, members[0].schema)] + AnalyzeMembers(resolve, members[1..])
  }

  function AnalyzeArray(resolve: Resolver, k: Keywords): Analysis
    decreases k, 0
  {
    if k.prefixItems.Branches? then
      OtherOf(AnalyzeAll(resolve, k.prefixItems.list) + AnalyzeRest(resolve, k))
    else if k.items.None? || k.items == Some(Boolean(true)) then OtherOf([UnknownAnalysis])
    else OtherOf(AnalyzeRest(resolve, k))
  }

  function AnalyzeRest(resolve: Resolver, k: Keywords): seq<Analysis>
    decreases k, 0, 0
  {
    match k.items
    case None => []
    case Some(s) =>
      if s == Boolean(true) then [UnknownAnalysis]
      else if s.Boolean? then []
      else [Analyze(resolve, s)]
  }
}
