/** The compiler from JSON Schema to validation plans. */
module ValidatorCompiler {
  import opened Json
  import opened References
  import opened JsonSchema
  import Recency
  import P = ValidationPlan

  datatype Problem =
    | BadReference | UnknownDefinition | EmptyEnum | EmptyBranches | KeywordNeedsType
    | UnsupportedType | UnsupportedPattern | UnsupportedFormat | CrossedBounds
    | NonPositiveMultiple | DuplicateRequired | BrokenDefinition

  datatype Outcome<+T> = Ok(value: T) | Fail(problem: Problem)

  /** `portable` is the compiler's filter on regular expressions. */
  datatype Context = Context(names: set<string>, host: P.Host, portable: string -> bool)

  const Formats: set<string> := {"date", "date-time", "email", "ipv4", "ipv6", "time", "uri", "uuid"}

  function Combine(parts: seq<P.Plan>): P.Plan {
    if |parts| == 0 then P.Node(false, P.Any)
    else if |parts| == 1 then parts[0]
    else P.Node(false, P.Intersection(parts))
  }

  function MakeNullable(nullable: bool, p: P.Plan): P.Plan {
    if nullable && p.Node? then p.(nullable := true) else p
  }

  predicate Crossed(low: Option<nat>, high: Option<nat>) {
    low.Some? && high.Some? && low.value > high.value
  }

  /** A keyword whose meaning depends on the instance type. */
  predicate TypedKeyword(k: Keywords) {
    || k.text != P.StringLimits(None, None, None, None)
    || k.number != P.NumberRange(None, None, None, None, None)
    || k.items.Some? || k.prefixItems.Branches? || k.minItems.Some? || k.maxItems.Some?
    || k.properties.Properties? || k.required.Some? || k.additional.Some?
  }

  // ----- Compilation -----

  function CompileNode(c: Context, s: Schema): Outcome<P.Plan>
    decreases s
  {
    match s
    case Boolean(accept) => Ok(P.Fixed(accept))
    case Object(k) => Finish(k.nullable, CompileParts(c, k))
  }

  function Finish(nullable: bool, parts: Outcome<seq<P.Plan>>): Outcome<P.Plan> {
    match parts
    case Ok(list) => Ok(MakeNullable(nullable, Combine(list)))
    case Fail(problem) => Fail(problem)
  }

  /** The parts of a schema object, in the order in which the code pushes them. */
  function CompileParts(c: Context, k: Keywords): Outcome<seq<P.Plan>>
    decreases k, 4
  {
    Join(Join(CompileReference(c, k), CompileValues(k)),
         Join(CompileApplicators(c, k), CompileTypePart(c, k)))
  }

  function Join(x: Outcome<seq<P.Plan>>, y: Outcome<seq<P.Plan>>): (r: Outcome<seq<P.Plan>>)
    ensures r.Ok? <==> x.Ok? && y.Ok?
  {
    if x.Fail? then x else if y.Fail? then y else Ok(x.value + y.value)
  }

  function CompileReference(c: Context, k: Keywords): Outcome<seq<P.Plan>> {
    if k.ref.None? then Ok([])
    else match DecodeReference(c.host, k.ref.value)
      case None => Fail(BadReference)
      case Some(name) =>
        if name == "#" || name in c.names then Ok([P.Node(false, P.Ref(k.ref.value))])
        else Fail(UnknownDefinition)
  }

  function CompileValues(k: Keywords): Outcome<seq<P.Plan>> {
    Join(Ok(if k.constant.Some? then [P.Node(false, P.Literal(k.constant.value))] else []),
         if k.enumeration.None? then Ok([])
         else if k.enumeration.value == [] then Fail(EmptyEnum)
         else Ok([P.Node(false, P.Enum(k.enumeration.value))]))
  }

  function CompileApplicators(c: Context, k: Keywords): Outcome<seq<P.Plan>>
    decreases k, 3
  {
    Join(Join(UnionPart(k.anyOf, CompileBranches(c, k.anyOf), false),
              UnionPart(k.oneOf, CompileBranches(c, k.oneOf), true)),
         AllOfPart(k.allOf, CompileBranches(c, k.allOf)))
  }

  function UnionPart(branches: Branches, plans: Outcome<seq<P.Plan>>, oneOf: bool): Outcome<seq<P.Plan>> {
    if branches.NoBranches? || plans.Fail? then plans else Ok([P.Node(false, P.Union(plans.value, oneOf))])
  }

  function AllOfPart(branches: Branches, plans: Outcome<seq<P.Plan>>): Outcome<seq<P.Plan>> {
    if branches.NoBranches? || plans.Fail? then plans else Ok([P.Node(false, P.Intersection(plans.value))])
  }

  function CompileBranches(c: Context, branches: Branches): Outcome<seq<P.Plan>>
    decreases branches
  {
    match branches
    case NoBranches => Ok([])
    case Branches(list) => if list == [] then Fail(EmptyBranches) else CompileAll(c, list)
  }

  function CompileList(c: Context, branches: Branches): Outcome<seq<P.Plan>>
    decreases branches
  {
    match branches
    case NoBranches => Ok([])
    case Branches(list) => CompileAll(c, list)
  }

  function CompileAll(c: Context, schemas: seq<Schema>): (r: Outcome<seq<P.Plan>>)
    ensures r.Ok? ==> |r.value| == |schemas| && forall i :: 0 <= i < |schemas| ==>
                                                  CompileNode(c, schemas[i]) == Ok(r.value[i])
    decreases schemas
  {
    if schemas == [] then Ok([])
    else Prepend(CompileNode(c, schemas[0]), CompileAll(c, schemas[1..]))
  }

  function Prepend<T>(head: Outcome<T>, tail: Outcome<seq<T>>): Outcome<seq<T>> {
    if head.Fail? then Fail(head.problem)
    else if tail.Fail? then tail
    else Ok([head.value] + tail.value)
  }

  /** Type-specific keywords need an explicit `type`, which settles what they apply to. */
  function CompileTypePart(c: Context, k: Keywords): Outcome<seq<P.Plan>>
    decreases k, 3
  {
    if k.types == [] then (if TypedKeyword(k) then Fail(KeywordNeedsType) else Ok([]))
    else TypePart(CompileTypes(c, k, k.types))
  }

  function TypePart(types: Outcome<seq<P.Plan>>): Outcome<seq<P.Plan>> {
    if types.Fail? || |types.value| == 1 then types else Ok([P.Node(false, P.Union(types.value, false))])
  }

  function CompileTypes(c: Context, k: Keywords, types: seq<string>): (r: Outcome<seq<P.Plan>>)
    ensures r.Ok? ==> |r.value| == |types| && forall i :: 0 <= i < |types| ==>
                                                CompileType(c, k, types[i]) == Ok(r.value[i])
    decreases k, 2, |types|
  {
    if types == [] then Ok([])
    else Prepend(CompileType(c, k, types[0]), CompileTypes(c, k, types[1..]))
  }

  function CompileType(c: Context, k: Keywords, name: string): (r: Outcome<P.Plan>)
    ensures r.Ok? ==> r.value.Node? && r.value.nullable == k.nullable
    decreases k, 1
  {
    if name == "null" then Ok(P.Node(k.nullable, P.NullKind))
    else if name == "boolean" then Ok(P.Node(k.nullable, P.BooleanKind))
    else if name == "string" then CompileString(c, k)
    else if name == "number" || name == "integer" then CompileNumber(k, name == "integer")
    else if name == "array" then CompileArray(c, k)
    else if name == "object" then CompileObject(c, k)
    else Fail(UnsupportedType)
  }

  function CompileString(c: Context, k: Keywords): Outcome<P.Plan> {
    if Crossed(k.text.minLength, k.text.maxLength) then Fail(CrossedBounds)
    else if k.text.pattern.Some? && !c.portable(k.text.pattern.value) then Fail(UnsupportedPattern)
    else if k.text.format.Some? && k.text.format.value !in Formats then Fail(UnsupportedFormat)
    else Ok(P.Node(k.nullable, P.StringKind(k.text)))
  }

  function CompileNumber(k: Keywords, integer: bool): Outcome<P.Plan> {
    if k.number.multipleOf.Some? && k.number.multipleOf.value <= 0.0 then Fail(NonPositiveMultiple)
    else Ok(P.Node(k.nullable, P.NumberKind(integer, k.number)))
  }

  function CompileArray(c: Context, k: Keywords): Outcome<P.Plan>
    decreases k, 0
  {
    ArrayPlan(k, CompileOptional(c, k.items), CompileList(c, k.prefixItems))
  }

  function ArrayPlan(k: Keywords, items: Outcome<Option<P.Plan>>, prefixItems: Outcome<seq<P.Plan>>): Outcome<P.Plan> {
    if items.Fail? then Fail(items.problem)
    else if prefixItems.Fail? then Fail(prefixItems.problem)
    else if Crossed(k.minItems, k.maxItems) then Fail(CrossedBounds)
    else Ok(P.Node(k.nullable, P.ArrayKind(items.value, prefixItems.value, k.minItems, k.maxItems)))
  }

  function CompileObject(c: Context, k: Keywords): Outcome<P.Plan>
    decreases k, 0
  {
    ObjectPlan(k, CompileProperties(c, k.properties), CompileOptional(c, k.additional))
  }

  function ObjectPlan(k: Keywords, properties: Outcome<seq<P.Property>>, additional: Outcome<Option<P.Plan>>)
    : Outcome<P.Plan>
  {
    if properties.Fail? then Fail(properties.problem)
    else if !Recency.NoDuplicates(Required(k)) then Fail(DuplicateRequired)
    else if additional.Fail? then Fail(additional.problem)
    else Ok(P.Node(k.nullable, P.ObjectKind(properties.value, Required(k), additional.value)))
  }

  function CompileOptional(c: Context, s: Option<Schema>): Outcome<Option<P.Plan>>
    decreases s
  {
    match s
    case None => Ok(None)
    case Some(schema) => Optional(CompileNode(c, schema))
  }

  function Optional(p: Outcome<P.Plan>): Outcome<Option<P.Plan>> {
    match p
    case Ok(plan) => Ok(Some(plan))
    case Fail(problem) => Fail(problem)
  }

  function CompileProperties(c: Context, properties: Properties): Outcome<seq<P.Property>>
    decreases properties
  {
    match properties
    case NoProperties => Ok([])
    case Properties(members) => CompileMembers(c, members)
  }

  function CompileMembers(c: Context, members: seq<Member>): (r: Outcome<seq<P.Property>>)
    ensures r.Ok? ==> |r.value| == |members| && forall i :: 0 <= i < |members| ==>
                                                  r.value[i].name == members[i].name &&
                                                  CompileNode(c, members[i].schema) == Ok(r.value[i].plan)
    decreases members
  {
    if members == [] then Ok([])
    else Prepend(Named(members[0].name, CompileNode(c, members[0].schema)), CompileMembers(c, members[1..]))
  }

  function Named(name: string, p: Outcome<P.Plan>): Outcome<P.Property> {
    match p
    case Ok(plan) => Ok(P.Property(name, plan))
    case Fail(problem) => Fail(problem)
  }

  function CompileDocument(contract: Contract, portable: string -> bool): Outcome<P.Document> {
    var c := Context(contract.definitions.Keys, contract.host, portable);
    var root := CompileNode(c, contract.root);
    if root.Fail? then Fail(root.problem)
    else if exists name :: name in contract.definitions && CompileNode(c, contract.definitions[name]).Fail? then
      Fail(BrokenDefinition)
    else
      Ok(P.Document(root.value,
                    map name | name in contract.definitions :: CompileNode(c, contract.definitions[name]).value,
                    contract.host))
  }
}
