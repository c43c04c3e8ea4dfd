/** The accepted subset of JSON Schema 2020-12 and its own meaning, keyword by keyword. */
module JsonSchema {
  import opened Json
  import opened References
  import P = ValidationPlan

  datatype Schema = Boolean(accept: bool) | Object(k: Keywords)

  datatype Branches = NoBranches | Branches(list: seq<Schema>)

  datatype Properties = NoProperties | Properties(members: seq<Member>)

  datatype Member = Member(name: string, schema: Schema)

  function List(branches: Branches): seq<Schema> {
    if branches.Branches? then branches.list else []
  }

  function MemberList(properties: Properties): seq<Member> {
    if properties.Properties? then properties.members else []
  }

  function Required(k: Keywords): seq<string> {
    if k.required.Some? then k.required.value else []
  }

  /** One schema object. `types` lists the `type` keyword, empty when it is absent;
      `nullable` is the flag of OpenAPI. */
  datatype Keywords = Keywords(
    ref: Option<string>,
    constant: Option<Value>,
    enumeration: Option<seq<Value>>,
    anyOf: Branches,
    oneOf: Branches,
    allOf: Branches,
    types: seq<string>,
    nullable: bool,
    text: P.StringLimits,
    number: P.NumberRange,
    items: Option<Schema>,
    prefixItems: Branches,
    minItems: Option<nat>,
    maxItems: Option<nat>,
    properties: Properties,
    required: Option<seq<string>>,
    additional: Option<Schema>)

  /** A root schema with the definitions found anywhere in it. */
  datatype Contract = Contract(root: Schema, definitions: map<string, Schema>, host: P.Host)

  function Names(c: Contract): set<string> {
    c.definitions.Keys + {"#"}
  }

  predicate HasType(types: seq<string>, v: Value) {
    match v
    case Null => "null" in types
    case Bool(_) => "boolean" in types
    case Num(_) => "number" in types || (IsInteger(v) && "integer" in types)
    case Str(_) => "string" in types
    case Arr(_) => "array" in types
    case Obj(_) => "object" in types
  }

  predicate Declares(properties: seq<Member>, key: string) {
    exists j :: 0 <= j < |properties| && properties[j].name == key
  }

  /** The instance `v` is valid against `s`, references being unrolled by `b`. */
  ghost predicate Valid(c: Contract, b: P.Budget, s: Schema, v: Value)
    decreases P.Level(b), v, P.Room(Names(c), b), 1, s
  {
    match s
    case Boolean(accept) => accept
    case Object(k) =>
      (k.nullable && v.Null?) || (Assertions(c, k, v) && Applicators(c, b, k, v) && Members(c, b, k, v))
  }

  /** Section 6 of JSON Schema Validation: a keyword for one type ignores the others. */
  ghost predicate Assertions(c: Contract, k: Keywords, v: Value) {
    && (k.constant.Some? ==> v == k.constant.value)
    && (k.enumeration.Some? ==> v in k.enumeration.value)
    && (k.types != [] ==> HasType(k.types, v))
    && (v.Str? ==> P.InStringLimits(c.host, k.text, v.s))
    && (v.Num? ==> P.InRange(c.host, k.number, v.n))
    && (v.Arr? ==> P.AtLeast(k.minItems, |v.items|) && P.AtMost(k.maxItems, |v.items|))
    && (v.Obj? ==> forall i :: 0 <= i < |Required(k)| ==> Has(v.fields, Required(k)[i]))
  }

  /** Section 10.2.1 of JSON Schema Core, and references. */
  ghost predicate Applicators(c: Contract, b: P.Budget, k: Keywords, v: Value)
    decreases P.Level(b), v, P.Room(Names(c), b), 1, k
  {
    && (k.ref.Some? ==> Referenced(c, b, Resolve(c.host, k.ref.value), v))
    && SomeValid(c, b, k.anyOf, v)
    && OneValid(c, b, k.oneOf, v)
    && EveryValid(c, b, k.allOf, v)
  }

  ghost predicate SomeValid(c: Contract, b: P.Budget, branches: Branches, v: Value)
    decreases P.Level(b), v, P.Room(Names(c), b), 1, branches
  {
    branches.Branches? ==>
      exists i :: 0 <= i < |branches.list| && Valid(c, b, branches.list[i], v)
  }

  ghost predicate OneValid(c: Contract, b: P.Budget, branches: Branches, v: Value)
    decreases P.Level(b), v, P.Room(Names(c), b), 1, branches
  {
    branches.Branches? ==>
      exists i :: 0 <= i < |branches.list| && OnlyValid(c, b, branches.list, i, v)
  }

  ghost predicate OnlyValid(c: Contract, b: P.Budget, schemas: seq<Schema>, i: nat, v: Value)
    requires i < |schemas|
    decreases P.Level(b), v, P.Room(Names(c), b), 1, schemas
  {
    Valid(c, b, schemas[i], v) &&
    forall j :: 0 <= j < |schemas| && j != i ==> !Valid(c, b, schemas[j], v)
  }

  ghost predicate EveryValid(c: Contract, b: P.Budget, branches: Branches, v: Value)
    decreases P.Level(b), v, P.Room(Names(c), b), 1, branches
  {
    branches.Branches? ==>
      forall i :: 0 <= i < |branches.list| ==> Valid(c, b, branches.list[i], v)
  }

  ghost predicate Referenced(c: Contract, b: P.Budget, p: Pointer, v: Value)
    decreases P.Level(b), v, P.Room(Names(c), b), 0, 1
  {
    match p
    case Dangling => false
    case Root => Unrolled(c, b, "#", c.root, v)
    case Definition(name) => name in c.definitions && Unrolled(c, b, name, c.definitions[name], v)
  }

  ghost predicate Unrolled(c: Contract, b: P.Budget, name: string, s: Schema, v: Value)
    requires name in Names(c)
    decreases P.Level(b), v, P.Room(Names(c), b), 0, 0
  {
    if b.Oracle? then b.meets(name, v)
    else P.CanFollow(b, name) &&
         (P.FollowShrinks(Names(c), b, name);
          Valid(c, P.Follow(b, name), s, v))
  }

  /** Sections 10.3.1 and 10.3.2 of JSON Schema Core: items and properties. */
  ghost predicate Members(c: Contract, b: P.Budget, k: Keywords, v: Value)
    decreases P.Level(b), v, P.Room(Names(c), b), 1, k
  {
    && (v.Arr? ==>
          && (forall i :: 0 <= i < |v.items| && i < |List(k.prefixItems)| ==>
                            Valid(c, P.Descend(b), List(k.prefixItems)[i], v.items[i]))
          && (k.items.Some? ==>
                forall i :: |List(k.prefixItems)| <= i < |v.items| ==>
                              Valid(c, P.Descend(b), k.items.value, v.items[i])))
    && (v.Obj? ==>
          && (forall i :: 0 <= i < |MemberList(k.properties)| ==>
                            var at := IndexOf(v.fields, MemberList(k.properties)[i].name);
                            at < |v.fields| ==>
                                Valid(c, P.Descend(b), MemberList(k.properties)[i].schema, v.fields[at].value))
          && (k.additional.Some? ==>
                forall i :: 0 <= i < |v.fields| && !Declares(MemberList(k.properties), v.fields[i].key) ==>
                              Valid(c, P.Descend(b), k.additional.value, v.fields[i].value)))
  }
}
