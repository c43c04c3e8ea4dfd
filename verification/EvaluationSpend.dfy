/** The exact number of operations that an evaluation takes where no limit cuts it short. */
module EvaluationSpend {
  import opened Json
  import opened ValidationPlan

  // ----- Comparing trees -----

  /** Comparing two trees takes at most three operations per node. */
  function EqualCost(left: Value, right: Value): nat {
    3 * (Size(left) + Size(right))
  }

  /** Keys compared from the last one on, up to the first difference. */
  function KeysSpend(left: seq<Field>, right: seq<Field>, n: nat): nat
    requires n <= |left| && n <= |right|
  {
    if n == 0 || left[n - 1].key != right[n - 1].key then 0 else 1 + KeysSpend(left, right, n - 1)
  }

  predicate SameKeys(left: seq<Field>, right: seq<Field>) {
    |left| == |right| && forall i :: 0 <= i < |left| ==> left[i].key == right[i].key
  }

  /** One pair of trees, without the pairs inside. */
  function StepSpend(left: Value, right: Value): nat {
    if left.Arr? && right.Arr? then 2 + if |left.items| == |right.items| then |left.items| else 0
    else if left.Obj? && right.Obj? then
      3 + |left.fields| + |right.fields|
      + if |left.fields| == |right.fields| then KeysSpend(left.fields, right.fields, |left.fields|) else 0
    else 1
  }

  /** The comparison goes from one pair to the next, in order, up to the first difference. */
  function EqualSpend(left: Value, right: Value): nat {
    StepSpend(left, right) +
    if left.Arr? && right.Arr? && |left.items| == |right.items| then ItemPairsSpend(left.items, right.items)
    else if left.Obj? && right.Obj? && SameKeys(left.fields, right.fields) then
      FieldPairsSpend(left.fields, right.fields)
    else 0
  }

  function ItemPairsSpend(left: seq<Value>, right: seq<Value>): nat
    requires |left| == |right|
  {
    if left == [] then 0
    else EqualSpend(left[0], right[0]) + if left[0] == right[0] then ItemPairsSpend(left[1..], right[1..]) else 0
  }

  function FieldPairsSpend(left: seq<Field>, right: seq<Field>): nat
    requires |left| == |right|
  {
    if left == [] then 0
    else
      EqualSpend(left[0].value, right[0].value)
      + if left[0].value == right[0].value then FieldPairsSpend(left[1..], right[1..]) else 0
  }

  function EnumSpend(values: seq<Value>, v: Value, from: nat): nat
    decreases |values| - from
  {
    if from >= |values| then 0
    else 1 + EqualSpend(values[from], v) + if values[from] == v then 0 else EnumSpend(values, v, from + 1)
  }

  // ----- Evaluating plans -----

  ghost function Spend(doc: Document, b: Budget, p: Plan, v: Value): nat
    requires b.Guard?
    decreases Level(b), v, Room(Names(doc), b), 1, p
  {
    match p
    case Fixed(_) => 1
    case Node(nullable, kind) => 1 + if nullable && v.Null? then 0 else KindSpend(doc, b, kind, v)
  }

  ghost function KindSpend(doc: Document, b: Budget, k: Kind, v: Value): nat
    requires b.Guard?
    decreases Level(b), v, Room(Names(doc), b), 1, k
  {
    match k
    case StringKind(_) => if v.Str? then |v.s| else 0
    case Literal(value) => EqualSpend(value, v)
    case Enum(values) => EnumSpend(values, v, 0)
    case ArrayKind(items, prefixItems, _, _) => if v.Arr? then ItemsSpend(doc, items, prefixItems, v, 0) else 0
    case TupleKind(members, rest) => if v.Arr? then TupleSpend(doc, rest, members, v, 0) else 0
    case ObjectKind(properties, required, additional) =>
      if v.Obj? then
        |required| + PropertiesSpend(doc, properties, v, 0) + AdditionalSpend(doc, additional, properties, v)
      else 0
    case Union(branches, _) => BranchesSpend(doc, b, branches, v, 0)
    case Intersection(allOf) => BranchesSpend(doc, b, allOf, v, 0)
    case Ref(reference) => 1 + NameSpend(doc, b, NormalizeReference(doc.host, reference), v)
    case _ => 0
  }

  ghost function NameSpend(doc: Document, b: Budget, name: string, v: Value): nat
    requires b.Guard?
    decreases Level(b), v, Room(Names(doc), b), 0
  {
    if Target(doc, name).Some? && CanFollow(b, name) then
      FollowShrinks(Names(doc), b, name);
      Spend(doc, Follow(b, name), Target(doc, name).value, v)
    else 0
  }

  /** Every branch is evaluated, whatever the verdict on the others. */
  ghost function BranchesSpend(doc: Document, b: Budget, branches: seq<Plan>, v: Value, from: nat): nat
    requires b.Guard?
    decreases Level(b), v, Room(Names(doc), b), 1, branches, |branches| - from
  {
    if from >= |branches| then 0
    else 1 + Spend(doc, b, branches[from], v) + BranchesSpend(doc, b, branches, v, from + 1)
  }

  ghost function ItemsSpend(doc: Document, rest: Option<Plan>, prefix: seq<Plan>, v: Value, from: nat): nat
    requires v.Arr?
    decreases 0, v, 0, 0, |v.items| - from
  {
    if from >= |v.items| then 0
    else 1 + ItemSpend(doc, rest, prefix, v, from) + ItemsSpend(doc, rest, prefix, v, from + 1)
  }

  /** A boolean plan for the rest is decided without evaluating it. */
  ghost function ItemSpend(doc: Document, rest: Option<Plan>, prefix: seq<Plan>, v: Value, at: nat): nat
    requires v.Arr? && at < |v.items|
    decreases 0, v, 0, 0, 0
  {
    if at < |prefix| then Spend(doc, Guard({}), prefix[at], v.items[at])
    else if rest.Some? && rest.value.Node? then Spend(doc, Guard({}), rest.value, v.items[at])
    else 0
  }

  /** A missing member takes one operation; extra items take none where they are not allowed. */
  ghost function TupleSpend(doc: Document, rest: Option<Plan>, members: seq<Plan>, v: Value, from: nat): nat
    requires v.Arr?
    decreases 0, v, 0, 0, |v.items| + |members| - from
  {
    if from < |members| then
      1 + (if from < |v.items| then Spend(doc, Guard({}), members[from], v.items[from]) else 0)
      + TupleSpend(doc, rest, members, v, from + 1)
    else if from < |v.items| && rest.Some? && rest.value != Fixed(false) then
      1 + Spend(doc, Guard({}), rest.value, v.items[from]) + TupleSpend(doc, rest, members, v, from + 1)
    else 0
  }

  ghost function PropertiesSpend(doc: Document, properties: seq<Property>, v: Value, from: nat): nat
    requires v.Obj?
    decreases 0, v, 0, 0, |properties| - from
  {
    if from >= |properties| then 0
    else PropertySpend(doc, properties[from], v) + PropertiesSpend(doc, properties, v, from + 1)
  }

  ghost function PropertySpend(doc: Document, p: Property, v: Value): nat
    requires v.Obj?
    decreases 0, v, 0, 0, 0
  {
    var at := IndexOf(v.fields, p.name);
    1 + if at < |v.fields| then Spend(doc, Guard({}), p.plan, v.fields[at].value) else 0
  }

  ghost function AdditionalSpend(doc: Document, additional: Option<Plan>, properties: seq<Property>, v: Value): nat
    requires v.Obj?
    decreases 0, v, 0, 0
  {
    if additional.None? || additional.value == Fixed(true) then 0
    else 1 + |v.fields| + FieldsSpend(doc, additional.value, properties, v, 0)
  }

  ghost function FieldsSpend(doc: Document, additional: Plan, properties: seq<Property>, v: Value, from: nat): nat
    requires v.Obj?
    decreases 0, v, 0, 0, |v.fields| - from
  {
    if from >= |v.fields| then 0
    else
      (if Declares(properties, v.fields[from].key) || additional == Fixed(false) then 0
       else Spend(doc, Guard({}), additional, v.fields[from].value))
      + FieldsSpend(doc, additional, properties, v, from + 1)
  }
}
