/** The verdicts that the loops of the evaluator accumulate, position by position. */
module EvaluationWalk {
  import opened Json
  import opened ValidationPlan
  import opened EvaluationSpend

  ghost predicate EveryBranch(doc: Document, b: Budget, branches: seq<Plan>, v: Value, from: nat)
    decreases |branches| - from
  {
    from >= |branches| || (Holds(doc, b, branches[from], v) && EveryBranch(doc, b, branches, v, from + 1))
  }

  lemma {:induction false} EveryBranchMeans(doc: Document, b: Budget, branches: seq<Plan>, v: Value, from: nat)
    ensures EveryBranch(doc, b, branches, v, from) <==>
            forall j :: from <= j < |branches| ==> Holds(doc, b, branches[j], v)
    decreases |branches| - from
  {
    if from < |branches| {
      EveryBranchMeans(doc, b, branches, v, from + 1);
    }
  }

  /** The plan that governs position `at` of an array, if any. */
  function ItemPlan(rest: Option<Plan>, prefix: seq<Plan>, at: nat): Option<Plan> {
    if at < |prefix| then Some(prefix[at]) else rest
  }

  ghost predicate ItemHolds(doc: Document, rest: Option<Plan>, prefix: seq<Plan>, v: Value, at: nat)
    requires v.Arr? && at < |v.items|
  {
    var plan := ItemPlan(rest, prefix, at);
    plan.Some? ==> Holds(doc, Guard({}), plan.value, v.items[at])
  }

  ghost predicate EveryItem(doc: Document, rest: Option<Plan>, prefix: seq<Plan>, v: Value, from: nat)
    requires v.Arr?
    decreases |v.items| - from
  {
    from >= |v.items| || (ItemHolds(doc, rest, prefix, v, from) && EveryItem(doc, rest, prefix, v, from + 1))
  }

  lemma {:induction false} EveryItemMeans(doc: Document, rest: Option<Plan>, prefix: seq<Plan>, v: Value, from: nat)
    requires v.Arr?
    ensures EveryItem(doc, rest, prefix, v, from) <==>
            forall j :: from <= j < |v.items| ==> ItemHolds(doc, rest, prefix, v, j)
    decreases |v.items| - from
  {
    if from < |v.items| {
      EveryItemMeans(doc, rest, prefix, v, from + 1);
    }
  }

  lemma ArrayMeans(doc: Document, b: Budget, k: Kind, v: Value)
    requires k.ArrayKind? && v.Arr? && b.Guard?
    ensures KindHolds(doc, b, k, v) <==>
            && AtLeast(k.minItems, |v.items|) && AtMost(k.maxItems, |v.items|)
            && EveryItem(doc, k.items, k.prefixItems, v, 0)
  {
    EveryItemMeans(doc, k.items, k.prefixItems, v, 0);
    forall j | 0 <= j < |v.items|
      ensures ItemHolds(doc, k.items, k.prefixItems, v, j) <==>
              && (j < |k.prefixItems| ==> Holds(doc, Descend(b), k.prefixItems[j], v.items[j]))
              && (|k.prefixItems| <= j && k.items.Some? ==> Holds(doc, Descend(b), k.items.value, v.items[j]))
    {
    }
  }

  lemma TupleMeans(doc: Document, b: Budget, k: Kind, v: Value)
    requires k.TupleKind? && v.Arr? && b.Guard?
    ensures KindHolds(doc, b, k, v) <==>
            && |k.members| <= |v.items| && (k.rest.None? ==> |v.items| == |k.members|)
            && EveryItem(doc, k.rest, k.members, v, 0)
  {
    EveryItemMeans(doc, k.rest, k.members, v, 0);
    forall j | 0 <= j < |v.items|
      ensures ItemHolds(doc, k.rest, k.members, v, j) <==>
              && (j < |k.members| ==> Holds(doc, Descend(b), k.members[j], v.items[j]))
              && (|k.members| <= j && k.rest.Some? ==> Holds(doc, Descend(b), k.rest.value, v.items[j]))
    {
    }
  }

  ghost predicate PropertyHolds(doc: Document, p: Property, v: Value)
    requires v.Obj?
  {
    var at := IndexOf(v.fields, p.name);
    at < |v.fields| ==> Holds(doc, Guard({}), p.plan, v.fields[at].value)
  }

  ghost predicate EveryProperty(doc: Document, properties: seq<Property>, v: Value, from: nat)
    requires v.Obj?
    decreases |properties| - from
  {
    from >= |properties| || (PropertyHolds(doc, properties[from], v) && EveryProperty(doc, properties, v, from + 1))
  }

  lemma {:induction false} EveryPropertyMeans(doc: Document, properties: seq<Property>, v: Value, from: nat)
    requires v.Obj?
    ensures EveryProperty(doc, properties, v, from) <==>
            forall j :: from <= j < |properties| ==> PropertyHolds(doc, properties[j], v)
    decreases |properties| - from
  {
    if from < |properties| {
      EveryPropertyMeans(doc, properties, v, from + 1);
    }
  }

  ghost predicate FieldHolds(doc: Document, additional: Plan, properties: seq<Property>, field: Field) {
    Declares(properties, field.key) || Holds(doc, Guard({}), additional, field.value)
  }

  ghost predicate EveryField(doc: Document, additional: Plan, properties: seq<Property>, v: Value, from: nat)
    requires v.Obj?
    decreases |v.fields| - from
  {
    from >= |v.fields| ||
    (FieldHolds(doc, additional, properties, v.fields[from]) && EveryField(doc, additional, properties, v, from + 1))
  }

  lemma {:induction false} EveryFieldMeans(doc: Document, additional: Plan, properties: seq<Property>, v: Value,
                                           from: nat)
    requires v.Obj?
    ensures EveryField(doc, additional, properties, v, from) <==>
            forall j :: from <= j < |v.fields| ==> FieldHolds(doc, additional, properties, v.fields[j])
    decreases |v.fields| - from
  {
    if from < |v.fields| {
      EveryFieldMeans(doc, additional, properties, v, from + 1);
    }
  }

  ghost predicate EveryPresent(required: seq<string>, v: Value, from: nat)
    requires v.Obj?
    decreases |required| - from
  {
    from >= |required| || (Has(v.fields, required[from]) && EveryPresent(required, v, from + 1))
  }

  lemma {:induction false} EveryPresentMeans(required: seq<string>, v: Value, from: nat)
    requires v.Obj?
    ensures EveryPresent(required, v, from) <==>
            forall j :: from <= j < |required| ==> Has(v.fields, required[j])
    decreases |required| - from
  {
    if from < |required| {
      EveryPresentMeans(required, v, from + 1);
    }
  }

  lemma ObjectMeans(doc: Document, b: Budget, k: Kind, v: Value)
    requires k.ObjectKind? && v.Obj? && b.Guard?
    ensures KindHolds(doc, b, k, v) <==>
            && EveryPresent(k.required, v, 0)
            && EveryProperty(doc, k.properties, v, 0)
            && (k.additional.Some? ==> EveryField(doc, k.additional.value, k.properties, v, 0))
  {
    EveryPresentMeans(k.required, v, 0);
    EveryPropertyMeans(doc, k.properties, v, 0);
    if k.additional.Some? {
      EveryFieldMeans(doc, k.additional.value, k.properties, v, 0);
    }
    PropertiesMean(doc, b, k.properties, v);
    if k.additional.Some? {
      FieldsMean(doc, b, k.additional.value, k.properties, v);
    }
  }

  lemma PropertiesMean(doc: Document, b: Budget, properties: seq<Property>, v: Value)
    requires v.Obj? && b.Guard?
    ensures (forall j :: 0 <= j < |properties| ==> PropertyHolds(doc, properties[j], v)) <==>
            (forall i :: 0 <= i < |properties| ==>
                           var at := IndexOf(v.fields, properties[i].name);
                           at < |v.fields| ==> Holds(doc, Descend(b), properties[i].plan, v.fields[at].value))
  {
  }

  lemma FieldsMean(doc: Document, b: Budget, additional: Plan, properties: seq<Property>, v: Value)
    requires v.Obj? && b.Guard?
    ensures (forall j :: 0 <= j < |v.fields| ==> FieldHolds(doc, additional, properties, v.fields[j])) <==>
            (forall i :: 0 <= i < |v.fields| && !Declares(properties, v.fields[i].key) ==>
                           Holds(doc, Descend(b), additional, v.fields[i].value))
  {
  }

  // ----- Branches that hold -----

  ghost function HoldCount(doc: Document, b: Budget, branches: seq<Plan>, v: Value, n: nat): nat
    requires n <= |branches|
  {
    if n == 0 then 0 else HoldCount(doc, b, branches, v, n - 1) + (if Holds(doc, b, branches[n - 1], v) then 1 else 0)
  }

  lemma {:induction false} HoldCountPositive(doc: Document, b: Budget, branches: seq<Plan>, v: Value, n: nat)
    requires n <= |branches|
    ensures HoldCount(doc, b, branches, v, n) > 0 <==> exists i :: 0 <= i < n && Holds(doc, b, branches[i], v)
  {
    if n > 0 {
      HoldCountPositive(doc, b, branches, v, n - 1);
    }
  }

  lemma {:induction false} HoldCountOne(doc: Document, b: Budget, branches: seq<Plan>, v: Value, n: nat, i: nat)
    requires i < n <= |branches| && Holds(doc, b, branches[i], v)
    ensures HoldCount(doc, b, branches, v, n) == 1 <==>
            forall j :: 0 <= j < n && j != i ==> !Holds(doc, b, branches[j], v)
  {
    HoldCountPositive(doc, b, branches, v, n - 1);
    if i < n - 1 {
      HoldCountOne(doc, b, branches, v, n - 1, i);
    }
  }

  lemma {:induction false} HoldCountCovers(doc: Document, b: Budget, branches: seq<Plan>, v: Value, i: nat, n: nat)
    requires i < n <= |branches|
    ensures Holds(doc, b, branches[i], v) ==> HoldCount(doc, b, branches, v, n) > 0
  {
    if i < n - 1 {
      HoldCountCovers(doc, b, branches, v, i, n - 1);
    }
  }

  lemma AnyMeans(doc: Document, b: Budget, branches: seq<Plan>, v: Value)
    ensures KindHolds(doc, b, Union(branches, false), v) <==> HoldCount(doc, b, branches, v, |branches|) > 0
  {
    HoldCountPositive(doc, b, branches, v, |branches|);
  }

  lemma OneMeans(doc: Document, b: Budget, branches: seq<Plan>, v: Value)
    ensures KindHolds(doc, b, Union(branches, true), v) <==> HoldCount(doc, b, branches, v, |branches|) == 1
  {
    HoldCountPositive(doc, b, branches, v, |branches|);
    forall i: nat | i < |branches| && Holds(doc, b, branches[i], v)
      ensures OnlyHolds(doc, b, branches, i, v) <==> HoldCount(doc, b, branches, v, |branches|) == 1
    {
      HoldCountOne(doc, b, branches, v, |branches|, i);
    }
  }

  // ----- Kinds, with the operations they take -----

  lemma IntersectionMeans(doc: Document, b: Budget, k: Kind, v: Value)
    requires k.Intersection? && b.Guard?
    ensures KindHolds(doc, b, k, v) <==> EveryBranch(doc, b, k.allOf, v, 0)
    ensures KindSpend(doc, b, k, v) == BranchesSpend(doc, b, k.allOf, v, 0)
  {
    EveryBranchMeans(doc, b, k.allOf, v, 0);
  }

  lemma UnionMeans(doc: Document, b: Budget, k: Kind, v: Value)
    requires k.Union? && b.Guard?
    ensures KindHolds(doc, b, k, v) <==> Selected(k.oneOf, HoldCount(doc, b, k.branches, v, |k.branches|))
    ensures KindSpend(doc, b, k, v) == BranchesSpend(doc, b, k.branches, v, 0)
  {
    if k.oneOf {
      OneMeans(doc, b, k.branches, v);
    } else {
      AnyMeans(doc, b, k.branches, v);
    }
  }

  /** Whether a number of matching branches satisfies a union. */
  predicate Selected(oneOf: bool, matches: nat) {
    (!oneOf && matches > 0) || (oneOf && matches == 1)
  }

  lemma FollowingMeans(doc: Document, b: Budget, name: string, v: Value)
    requires b.Guard? && Target(doc, name).Some? && CanFollow(b, name)
    ensures NameHolds(doc, b, name, v) <==> Holds(doc, Follow(b, name), Target(doc, name).value, v)
    ensures NameSpend(doc, b, name, v) == Spend(doc, Follow(b, name), Target(doc, name).value, v)
  {
  }

  predicate Fits(k: Kind, v: Value) {
    ((k.ArrayKind? || k.TupleKind?) && v.Arr?) || (k.ObjectKind? && v.Obj?)
  }

  ghost function NestedSpend(doc: Document, k: Kind, v: Value): nat
    requires k.ArrayKind? || k.TupleKind? || k.ObjectKind?
  {
    match k
    case ArrayKind(items, prefixItems, _, _) => if v.Arr? then ItemsSpend(doc, items, prefixItems, v, 0) else 0
    case TupleKind(members, rest) => if v.Arr? then TupleSpend(doc, rest, members, v, 0) else 0
    case ObjectKind(properties, required, additional) =>
      if v.Obj? then
        |required| + PropertiesSpend(doc, properties, v, 0) + AdditionalSpend(doc, additional, properties, v)
      else 0
  }

  ghost predicate NestedHolds(doc: Document, k: Kind, v: Value)
    requires k.ArrayKind? || k.TupleKind? || k.ObjectKind?
  {
    match k
    case ArrayKind(items, prefixItems, minItems, maxItems) =>
      v.Arr? && AtLeast(minItems, |v.items|) && AtMost(maxItems, |v.items|) && EveryItem(doc, items, prefixItems, v, 0)
    case TupleKind(members, rest) =>
      && v.Arr? && |members| <= |v.items| && (rest.None? ==> |v.items| == |members|)
      && EveryItem(doc, rest, members, v, 0)
    case ObjectKind(properties, required, additional) =>
      && v.Obj? && EveryPresent(required, v, 0) && EveryProperty(doc, properties, v, 0)
      && (additional.Some? ==> EveryField(doc, additional.value, properties, v, 0))
  }

  lemma NestedMeans(doc: Document, b: Budget, k: Kind, v: Value)
    requires b.Guard? && (k.ArrayKind? || k.TupleKind? || k.ObjectKind?)
    ensures KindHolds(doc, b, k, v) <==> NestedHolds(doc, k, v)
    ensures KindSpend(doc, b, k, v) == NestedSpend(doc, k, v)
  {
    if k.ArrayKind? && v.Arr? {
      ArrayMeans(doc, b, k, v);
    } else if k.TupleKind? && v.Arr? {
      TupleMeans(doc, b, k, v);
    } else if k.ObjectKind? && v.Obj? {
      ObjectMeans(doc, b, k, v);
    }
  }
}
