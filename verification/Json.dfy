/** JSON values and the small wrappers shared by the other modules. */
module Json {

  datatype Option<+T> = None | Some(value: T)

  /** A JSON tree. The fields of an object are listed in the order of its sorted keys,
      which is the order in which both the compiler and the evaluator visit them. */
  datatype Value =
    | Null
    | Bool(b: bool)
    | Num(n: real)
    | Str(s: string)
    | Arr(items: seq<Value>)
    | Obj(fields: seq<Field>)

  datatype Field = Field(key: string, value: Value)

  predicate IsContainer(v: Value) {
    v.Arr? || v.Obj?
  }

  predicate IsInteger(v: Value) {
    v.Num? && v.n == v.n.Floor as real
  }

  /** Position of the property `key`, or the number of fields when it is absent. */
  function IndexOf(fields: seq<Field>, key: string): (i: nat)
    ensures i <= |fields|
    ensures i < |fields| ==> fields[i].key == key
    ensures forall j :: 0 <= j < i ==> fields[j].key != key
  {
    if fields == [] then 0
    else if fields[0].key == key then 0
    else 1 + IndexOf(fields[1..], key)
  }

  predicate Has(fields: seq<Field>, key: string) {
    IndexOf(fields, key) < |fields|
  }

  /** Number of nodes of a tree; a strict subvalue is strictly smaller. */
  function Size(v: Value): (n: nat)
    ensures n >= 1
  {
    match v
    case Arr(items) => 1 + SizeItems(items)
    case Obj(fields) => 1 + SizeFields(fields)
    case _ => 1
  }

  function SizeItems(items: seq<Value>): (n: nat)
    ensures n >= |items|
    ensures forall i :: 0 <= i < |items| ==> Size(items[i]) <= n
  {
    if items == [] then 0 else Size(items[0]) + SizeItems(items[1..])
  }

  function SizeFields(fields: seq<Field>): (n: nat)
    ensures n >= |fields|
    ensures forall i :: 0 <= i < |fields| ==> Size(fields[i].value) <= n
  {
    if fields == [] then 0 else Size(fields[0].value) + SizeFields(fields[1..])
  }
}
