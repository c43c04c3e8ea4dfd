/** The compiled validation plan format and its meaning, free of any resource limit. */
module ValidationPlan {
  import opened Json

  datatype Plan =
    | Fixed(accept: bool)
    | Node(nullable: bool, kind: Kind)

  datatype Kind =
    | Any
    | Never
    | NullKind
    | BooleanKind
    | StringKind(limits: StringLimits)
    | NumberKind(integer: bool, range: NumberRange)
    | Literal(value: Value)
    | Enum(values: seq<Value>)
    | ArrayKind(items: Option<Plan>, prefixItems: seq<Plan>, minItems: Option<nat>, maxItems: Option<nat>)
    | TupleKind(members: seq<Plan>, rest: Option<Plan>)
    | ObjectKind(properties: seq<Property>, required: seq<string>, additional: Option<Plan>)
    | Union(branches: seq<Plan>, oneOf: bool)
    | Intersection(allOf: seq<Plan>)
    | Ref(reference: string)

  datatype Property = Property(name: string, plan: Plan)

  datatype StringLimits = StringLimits(
    minLength: Option<nat>, maxLength: Option<nat>, pattern: Option<string>, format: Option<string>)

  datatype NumberRange = NumberRange(
    minimum: Option<real>, maximum: Option<real>,
    exclusiveMinimum: Option<real>, exclusiveMaximum: Option<real>, multipleOf: Option<real>)

  /** What the host platform supplies: regular expressions, string formats, the decimal
      divisibility test and URI decoding. Nothing is assumed about any of them. */
  datatype Host = Host(
    matches: (string, string) -> bool,
    conforms: (string, string) -> bool,
    multiple: (real, real) -> bool,
    decodeUri: string -> Option<string>)

  datatype Document = Document(root: Plan, definitions: map<string, Plan>, host: Host)

  // ----- References -----

  const DefsPrefix := "#/$defs/"
  const DefinitionsPrefix := "#/definitions/"

  /** Replaces every occurrence of `~` followed by `digit` by `out`, from left to right. */
  function ReplaceTilde(s: string, digit: char, out: char): string {
    if |s| < 2 then s
    else if s[0] == '~' && s[1] == digit then [out] + ReplaceTilde(s[2..], digit, out)
    else [s[0]] + ReplaceTilde(s[1..], digit, out)
  }

  /** The two replacement passes of a JSON Pointer token. */
  function Unescape(s: string): string {
    ReplaceTilde(ReplaceTilde(s, '1', '/'), '0', '~')
  }

  function PointerToken(reference: string): Option<string> {
    if DefsPrefix <= reference then Some(reference[|DefsPrefix|..])
    else if DefinitionsPrefix <= reference then Some(reference[|DefinitionsPrefix|..])
    else None
  }

  /** The name under which the evaluator looks a reference up. */
  function NormalizeReference(host: Host, reference: string): string {
    match PointerToken(reference)
    case None => reference
    case Some(token) =>
      match host.decodeUri(token)
      case None => reference
      case Some(decoded) => Unescape(decoded)
  }

  function Target(doc: Document, name: string): Option<Plan> {
    if name == "#" then Some(doc.root)
    else if name in doc.definitions then Some(doc.definitions[name])
    else None
  }

  function Names(doc: Document): set<string> {
    doc.definitions.Keys + {"#"}
  }

  // ----- Meaning -----

  /** How references are unrolled. `Fuel(n)` follows at most `n` references on the way to any
      node: the n-th approximation of the recursive definitions. `Guard(names)` is what the
      evaluator does: a name already being followed on the present value is refused.
      `Oracle(meets)` takes the verdict on a name from outside, so that a document denotes an
      operator on interpretations of its names. */
  datatype Budget =
    | Fuel(n: nat)
    | Guard(names: set<string>)
    | Oracle(meets: (string, Value) -> bool)

  predicate CanFollow(b: Budget, name: string) {
    match b
    case Fuel(n) => n > 0
    case Guard(names) => name !in names
    case Oracle(_) => false
  }

  function Follow(b: Budget, name: string): Budget
    requires CanFollow(b, name)
  {
    match b
    case Fuel(n) => Fuel(n - 1)
    case Guard(names) => Guard(names + {name})
  }

  /** The budget for a value nested in the present one. */
  function Descend(b: Budget): Budget {
    if b.Guard? then Guard({}) else b
  }

  function Level(b: Budget): nat {
    if b.Fuel? then b.n else 0
  }

  function Room(names: set<string>, b: Budget): nat {
    if b.Guard? then |names - b.names| else 0
  }

  lemma FollowShrinks(names: set<string>, b: Budget, name: string)
    requires CanFollow(b, name) && name in names
    ensures Level(Follow(b, name)) <= Level(b)
    ensures b.Fuel? ==> Level(Follow(b, name)) < Level(b)
    ensures b.Guard? ==> Room(names, Follow(b, name)) < Room(names, b)
  {
    if b.Guard? {
      var left := names - b.names;
      assert names - (b.names + {name}) == left - {name};
    }
  }

  predicate AtLeast(bound: Option<nat>, n: nat) {
    bound.Some? ==> bound.value <= n
  }

  predicate AtMost(bound: Option<nat>, n: nat) {
    bound.Some? ==> n <= bound.value
  }

  predicate InStringLimits(host: Host, l: StringLimits, s: string) {
    && AtLeast(l.minLength, |s|)
    && AtMost(l.maxLength, |s|)
    && (l.pattern.Some? ==> host.matches(l.pattern.value, s))
    && (l.format.Some? ==> host.conforms(l.format.value, s))
  }

  predicate InRange(host: Host, r: NumberRange, n: real) {
    && (r.minimum.Some? ==> r.minimum.value <= n)
    && (r.maximum.Some? ==> n <= r.maximum.value)
    && (r.exclusiveMinimum.Some? ==> r.exclusiveMinimum.value < n)
    && (r.exclusiveMaximum.Some? ==> n < r.exclusiveMaximum.value)
    && (r.multipleOf.Some? ==> host.multiple(n, r.multipleOf.value))
  }

  predicate Declares(properties: seq<Property>, key: string) {
    exists j :: 0 <= j < |properties| && properties[j].name == key
  }

  /** The value `v` satisfies the plan `p`, references being unrolled by `b`. */
  ghost predicate Holds(doc: Document, b: Budget, p: Plan, v: Value)
    decreases Level(b), v, Room(Names(doc), b), 1, p
  {
    match p
    case Fixed(accept) => accept
    case Node(nullable, kind) => (nullable && v.Null?) || KindHolds(doc, b, kind, v)
  }

  ghost predicate KindHolds(doc: Document, b: Budget, k: Kind, v: Value)
    decreases Level(b), v, Room(Names(doc), b), 1, k
  {
    match k
    case Any => true
    case Never => false
    case NullKind => v.Null?
    case BooleanKind => v.Bool?
    case StringKind(limits) => v.Str? && InStringLimits(doc.host, limits, v.s)
    case NumberKind(integer, range) =>
      v.Num? && (integer ==> IsInteger(v)) && InRange(doc.host, range, v.n)
    case Literal(value) => v == value
    case Enum(values) => v in values
    case ArrayKind(items, prefixItems, minItems, maxItems) =>
      && v.Arr?
      && AtLeast(minItems, |v.items|)
      && AtMost(maxItems, |v.items|)
      && (forall i :: 0 <= i < |v.items| && i < |prefixItems| ==>
                        Holds(doc, Descend(b), prefixItems[i], v.items[i]))
      && (items.Some? ==> forall i :: |prefixItems| <= i < |v.items| ==>
                                        Holds(doc, Descend(b), items.value, v.items[i]))
    case TupleKind(members, rest) =>
      && v.Arr?
      && |members| <= |v.items|
      && (forall i :: 0 <= i < |members| ==> Holds(doc, Descend(b), members[i], v.items[i]))
      && (if rest.None? then |v.items| == |members|
          else forall i :: |members| <= i < |v.items| ==>
                             Holds(doc, Descend(b), rest.value, v.items[i]))
    case ObjectKind(properties, required, additional) =>
      && v.Obj?
      && (forall i :: 0 <= i < |required| ==> Has(v.fields, required[i]))
      && (forall i :: 0 <= i < |properties| ==>
                        var at := IndexOf(v.fields, properties[i].name);
                        at < |v.fields| ==> Holds(doc, Descend(b), properties[i].plan, v.fields[at].value))
      && (additional.Some? ==>
            forall i :: 0 <= i < |v.fields| && !Declares(properties, v.fields[i].key) ==>
                          Holds(doc, Descend(b), additional.value, v.fields[i].value))
    case Union(branches, oneOf) =>
      if oneOf then
        exists i :: 0 <= i < |branches| && OnlyHolds(doc, b, branches, i, v)
      else
        exists i :: 0 <= i < |branches| && Holds(doc, b, branches[i], v)
    case Intersection(allOf) =>
      forall i :: 0 <= i < |allOf| ==> Holds(doc, b, allOf[i], v)
    case Ref(reference) => NameHolds(doc, b, NormalizeReference(doc.host, reference), v)
  }

  /** Branch `i` holds and no other does. */
  ghost predicate OnlyHolds(doc: Document, b: Budget, branches: seq<Plan>, i: nat, v: Value)
    requires i < |branches|
    decreases Level(b), v, Room(Names(doc), b), 1, branches
  {
    Holds(doc, b, branches[i], v) &&
    forall j :: 0 <= j < |branches| && j != i ==> !Holds(doc, b, branches[j], v)
  }

  /** The definition called `name` holds of `v`; an unknown name holds of nothing. */
  ghost predicate NameHolds(doc: Document, b: Budget, name: string, v: Value)
    decreases Level(b), v, Room(Names(doc), b), 0
  {
    && Target(doc, name).Some?
    && if b.Oracle? then b.meets(name, v)
       else CanFollow(b, name) &&
            (FollowShrinks(Names(doc), b, name);
             Holds(doc, Follow(b, name), Target(doc, name).value, v))
  }
}
