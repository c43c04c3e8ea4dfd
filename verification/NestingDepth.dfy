/** How deep an evaluation nests, and what a limit on the depth leaves of a verdict. */
module NestingDepth {
  import opened Json
  import opened ValidationPlan
  import opened EvaluationSpend
  import opened EvaluationWalk

  // ----- Chains of steps -----

  datatype Limits = Limits(maxDepth: nat, maxIssues: nat, maxOperations: nat, maxProperties: nat)

  /** A plan that meets a value, references being unrolled by `b`. */
  datatype Place = Place(b: Budget, plan: Plan, value: Value)

  /** There is something to check: constants and admitted nulls are settled at once. */
  predicate Checked(x: Place) {
    x.plan.Node? && !(x.plan.nullable && x.value.Null?)
  }

  /** One step down: into an item, a property or another field, or to another plan for the same value,
      which is a branch, a conjunct or the target of a reference. */
  ghost predicate Steps(doc: Document, x: Place, y: Place) {
    Checked(x) && KindSteps(doc, x.b, x.plan.kind, x.value, y)
  }

  ghost predicate KindSteps(doc: Document, b: Budget, k: Kind, v: Value, y: Place) {
    match k
    case ArrayKind(items, prefixItems, _, _) => v.Arr? && ItemSteps(items, prefixItems, v, y)
    case TupleKind(members, rest) => v.Arr? && ItemSteps(rest, members, v, y)
    case ObjectKind(properties, _, additional) =>
      v.Obj? && (PropertySteps(properties, v,
                               y) || (additional.Some? && FieldSteps(additional.value, properties, v, y)))
    case Union(branches, _) => y.plan in branches && y.b == b && y.value == v
    case Intersection(allOf) => y.plan in allOf && y.b == b && y.value == v
    case Ref(reference) =>
      var name := NormalizeReference(doc.host, reference);
      CanFollow(b, name) && Target(doc, name) == Some(y.plan) && y.b == Follow(b, name) && y.value == v
    case _ => false
  }

  ghost predicate ItemSteps(rest: Option<Plan>, prefix: seq<Plan>, v: Value, y: Place)
    requires v.Arr?
  {
    y.b == Guard({}) &&
    exists i :: 0 <= i < |v.items| && ItemPlan(rest, prefix, i) == Some(y.plan) && y.value == v.items[i]
  }

  ghost predicate PropertySteps(properties: seq<Property>, v: Value, y: Place)
    requires v.Obj?
  {
    y.b == Guard({}) &&
    exists i :: 0 <= i < |properties| && properties[i].plan == y.plan && Has(v.fields, properties[i].name)
                && y.value == v.fields[IndexOf(v.fields, properties[i].name)].value
  }

  ghost predicate FieldSteps(additional: Plan, properties: seq<Property>, v: Value, y: Place)
    requires v.Obj?
  {
    y.b == Guard({}) && y.plan == additional &&
    exists i :: 0 <= i < |v.fields| && !Declares(properties, v.fields[i].key) && y.value == v.fields[i].value
  }

  ghost predicate Chain(doc: Document, path: seq<Place>) {
    path != [] && forall i :: 0 < i < |path| ==> Steps(doc, path[i - 1], path[i])
  }

  /** No choice is made on the way. */
  ghost predicate Plain(path: seq<Place>) {
    forall i :: 0 <= i < |path| - 1 ==> path[i].plan.Node? && !path[i].plan.kind.Union?
  }

  ghost predicate Leads(path: seq<Place>, x: Place) {
    path != [] && path[0] == x && Checked(path[|path| - 1])
  }

  /** Nothing to check lies deeper than `max` if `x` lies at `depth`. */
  ghost predicate Near(doc: Document, x: Place, depth: nat, max: nat) {
    forall path :: Chain(doc, path) && Leads(path, x) ==> depth + |path| - 1 <= max
  }

  /** The same where only the chains without a choice are counted. */
  ghost predicate PlainlyNear(doc: Document, x: Place, depth: nat, max: nat) {
    forall path :: Chain(doc, path) && Plain(path) && Leads(path, x) ==> depth + |path| - 1 <= max
  }

  /** What is compared or enumerated at this place is within the limit on width. */
  predicate NarrowKind(k: Kind, v: Value, width: nat) {
    match k
    case Literal(value) => EqualCost(value, v) <= width
    case Enum(values) => forall i :: 0 <= i < |values| ==> EqualCost(values[i], v) <= width
    case ObjectKind(_, _, additional) => v.Obj? && additional.Some? && additional.value != Fixed(true) ==>
        |v.fields| <= width
    case _ => true
  }

  predicate Narrow(x: Place, width: nat) {
    Checked(x) ==> NarrowKind(x.plan.kind, x.value, width)
  }

  /** No place that is reached compares or enumerates more than `width` allows. */
  ghost predicate NarrowBelow(doc: Document, x: Place, width: nat) {
    forall path :: Chain(doc, path) && Leads(path, x) ==> Narrow(path[|path| - 1], width)
  }

  /** Neither the limit on depth nor that on width is in the way. */
  ghost predicate Clear(doc: Document, x: Place, depth: nat, limits: Limits) {
    Near(doc, x, depth, limits.maxDepth) && NarrowBelow(doc, x, limits.maxProperties)
  }

  /** A chain from one step down is part of a longer one. */
  lemma Longer(doc: Document, x: Place, y: Place, path: seq<Place>) returns (longer: seq<Place>)
    requires Steps(doc, x, y) && Chain(doc, path) && Leads(path, y)
    ensures Chain(doc, longer) && Leads(longer, x) && longer == [x] + path
  {
    longer := [x] + path;
    forall i | 0 < i < |longer| ensures Steps(doc, longer[i - 1], longer[i]) {
      if i > 1 {
        assert Steps(doc, path[i - 2], path[i - 1]);
      }
    }
  }

  lemma ClearStep(doc: Document, x: Place, y: Place, depth: nat, limits: Limits)
    requires Clear(doc, x, depth, limits) && Steps(doc, x, y)
    ensures Clear(doc, y, depth + 1, limits)
  {
    forall path | Chain(doc, path) && Leads(path, y)
      ensures depth + |path| <= limits.maxDepth && Narrow(path[|path| - 1], limits.maxProperties)
    {
      var longer := Longer(doc, x, y, path);
    }
  }

  lemma ClearHere(doc: Document, x: Place, depth: nat, limits: Limits)
    requires Clear(doc, x, depth, limits) && Checked(x)
    ensures depth <= limits.maxDepth && Narrow(x, limits.maxProperties)
  {
    assert Chain(doc, [x]) && Leads([x], x);
  }

  // ----- Clear, step by step -----

  ghost predicate ClearKind(doc: Document, b: Budget, k: Kind, v: Value, depth: nat, limits: Limits) {
    && NarrowKind(k, v, limits.maxProperties)
    && forall y :: KindSteps(doc, b, k, v, y) ==> Clear(doc, y, depth + 1, limits)
  }

  lemma ClearInside(doc: Document, b: Budget, nullable: bool, k: Kind, v: Value, depth: nat, limits: Limits)
    requires Clear(doc, Place(b, Node(nullable, k), v), depth, limits) && !(nullable && v.Null?)
    ensures depth <= limits.maxDepth && ClearKind(doc, b, k, v, depth, limits)
  {
    var x := Place(b, Node(nullable, k), v);
    ClearHere(doc, x, depth, limits);
    forall y | KindSteps(doc, b, k, v, y) ensures Clear(doc, y, depth + 1, limits) {
      ClearStep(doc, x, y, depth, limits);
    }
  }

  ghost predicate ClearBranches(doc: Document, b: Budget, branches: seq<Plan>, v: Value, depth: nat, limits: Limits) {
    forall i :: 0 <= i < |branches| ==> Clear(doc, Place(b, branches[i], v), depth + 1, limits)
  }

  ghost predicate ClearName(doc: Document, b: Budget, name: string, v: Value, depth: nat, limits: Limits) {
    Target(doc, name).Some? && CanFollow(b, name) ==>
      Clear(doc, Place(Follow(b, name), Target(doc, name).value, v), depth + 1, limits)
  }

  ghost predicate ClearItem(doc: Document, rest: Option<Plan>, prefix: seq<Plan>, v: Value, at: nat, depth: nat,
                            limits: Limits)
    requires v.Arr? && at < |v.items|
  {
    var plan := ItemPlan(rest, prefix, at);
    plan.Some? ==> Clear(doc, Place(Guard({}), plan.value, v.items[at]), depth + 1, limits)
  }

  ghost predicate ClearItems(doc: Document, rest: Option<Plan>, prefix: seq<Plan>, v: Value, depth: nat, limits: Limits)
    requires v.Arr?
  {
    forall i :: 0 <= i < |v.items| ==> ClearItem(doc, rest, prefix, v, i, depth, limits)
  }

  ghost predicate ClearProperty(doc: Document, p: Property, v: Value, depth: nat, limits: Limits)
    requires v.Obj?
  {
    var at := IndexOf(v.fields, p.name);
    at < |v.fields| ==> Clear(doc, Place(Guard({}), p.plan, v.fields[at].value), depth + 1, limits)
  }

  ghost predicate ClearProperties(doc: Document, properties: seq<Property>, v: Value, depth: nat, limits: Limits)
    requires v.Obj?
  {
    forall i :: 0 <= i < |properties| ==> ClearProperty(doc, properties[i], v, depth, limits)
  }

  ghost predicate ClearField(doc: Document, additional: Plan, properties: seq<Property>, field: Field, depth: nat,
                             limits: Limits) {
    !Declares(properties, field.key) ==> Clear(doc, Place(Guard({}), additional, field.value), depth + 1, limits)
  }

  ghost predicate ClearFields(doc: Document, additional: Plan, properties: seq<Property>, v: Value, depth: nat,
                              limits: Limits)
    requires v.Obj?
  {
    forall i :: 0 <= i < |v.fields| ==> ClearField(doc, additional, properties, v.fields[i], depth, limits)
  }

  ghost predicate ClearAdditional(doc: Document, additional: Option<Plan>, properties: seq<Property>, v: Value,
                                  depth: nat, limits: Limits)
    requires v.Obj?
  {
    additional.Some? ==>
      && ClearFields(doc, additional.value, properties, v, depth, limits)
      && (additional.value != Fixed(true) ==> |v.fields| <= limits.maxProperties)
  }

  ghost predicate ClearNested(doc: Document, k: Kind, v: Value, depth: nat, limits: Limits)
    requires Fits(k, v)
  {
    match k
    case ArrayKind(items, prefixItems, _, _) => ClearItems(doc, items, prefixItems, v, depth, limits)
    case TupleKind(members, rest) => ClearItems(doc, rest, members, v, depth, limits)
    case ObjectKind(properties, _, additional) =>
      ClearProperties(doc, properties, v, depth, limits)
          && ClearAdditional(doc, additional, properties, v, depth, limits)
  }

  lemma ClearItemsMean(doc: Document, rest: Option<Plan>, prefix: seq<Plan>, v: Value, depth: nat, limits: Limits)
    requires v.Arr? && forall y :: ItemSteps(rest, prefix, v, y) ==> Clear(doc, y, depth + 1, limits)
    ensures ClearItems(doc, rest, prefix, v, depth, limits)
  {
    forall i | 0 <= i < |v.items| && ItemPlan(rest, prefix, i).Some?
      ensures ClearItem(doc, rest, prefix, v, i, depth, limits)
    {
      assert ItemSteps(rest, prefix, v, Place(Guard({}), ItemPlan(rest, prefix, i).value, v.items[i]));
    }
  }

  lemma ClearFieldsMean(doc: Document, additional: Plan, properties: seq<Property>, v: Value, depth: nat,
                        limits: Limits)
    requires v.Obj? && forall y :: FieldSteps(additional, properties, v, y) ==> Clear(doc, y, depth + 1, limits)
    ensures ClearFields(doc, additional, properties, v, depth, limits)
  {
    forall i | 0 <= i < |v.fields| && !Declares(properties, v.fields[i].key)
      ensures ClearField(doc, additional, properties, v.fields[i], depth, limits)
    {
      assert FieldSteps(additional, properties, v, Place(Guard({}), additional, v.fields[i].value));
    }
  }

  lemma ClearPropertiesMean(doc: Document, properties: seq<Property>, v: Value, depth: nat, limits: Limits)
    requires v.Obj? && forall y :: PropertySteps(properties, v, y) ==> Clear(doc, y, depth + 1, limits)
    ensures ClearProperties(doc, properties, v, depth, limits)
  {
    forall i | 0 <= i < |properties| && Has(v.fields, properties[i].name)
      ensures ClearProperty(doc, properties[i], v, depth, limits)
    {
      assert PropertySteps(properties, v, Place(Guard({}), properties[i].plan,
                                                v.fields[IndexOf(v.fields, properties[i].name)].value));
    }
  }

  lemma ClearNestedMeans(doc: Document, b: Budget, k: Kind, v: Value, depth: nat, limits: Limits)
    requires Fits(k, v) && ClearKind(doc, b, k, v, depth, limits)
    ensures ClearNested(doc, k, v, depth, limits)
  {
    if k.ArrayKind? {
      forall y | ItemSteps(k.items, k.prefixItems, v, y) ensures Clear(doc, y, depth + 1, limits) {
        assert KindSteps(doc, b, k, v, y);
      }
      ClearItemsMean(doc, k.items, k.prefixItems, v, depth, limits);
    } else if k.TupleKind? {
      forall y | ItemSteps(k.rest, k.members, v, y) ensures Clear(doc, y, depth + 1, limits) {
        assert KindSteps(doc, b, k, v, y);
      }
      ClearItemsMean(doc, k.rest, k.members, v, depth, limits);
    } else {
      ClearObjectMeans(doc, b, k, v, depth, limits);
    }
  }

  lemma ClearObjectMeans(doc: Document, b: Budget, k: Kind, v: Value, depth: nat, limits: Limits)
    requires k.ObjectKind? && v.Obj? && ClearKind(doc, b, k, v, depth, limits)
    ensures ClearNested(doc, k, v, depth, limits)
  {
    forall y | PropertySteps(k.properties, v, y) ensures Clear(doc, y, depth + 1, limits) {
      assert KindSteps(doc, b, k, v, y);
    }
    ClearPropertiesMean(doc, k.properties, v, depth, limits);
    if k.additional.Some? {
      forall y | FieldSteps(k.additional.value, k.properties, v, y) ensures Clear(doc, y, depth + 1, limits) {
        assert KindSteps(doc, b, k, v, y);
      }
      ClearFieldsMean(doc, k.additional.value, k.properties, v, depth, limits);
    }
  }

  lemma ClearCompositeMeans(doc: Document, b: Budget, k: Kind, v: Value, depth: nat, limits: Limits)
    ensures k.Union? && ClearKind(doc, b, k, v, depth, limits) ==> ClearBranches(doc, b, k.branches, v, depth, limits)
    ensures k.Intersection? && ClearKind(doc, b, k, v, depth, limits) ==>
              ClearBranches(doc, b, k.allOf, v, depth, limits)
    ensures k.Ref? && ClearKind(doc, b, k, v, depth, limits) ==>
              ClearName(doc, b, NormalizeReference(doc.host, k.reference), v, depth, limits)
  {
    if ClearKind(doc, b, k, v, depth, limits) {
      if k.Union? || k.Intersection? {
        var branches := if k.Union? then k.branches else k.allOf;
        forall i | 0 <= i < |branches| ensures Clear(doc, Place(b, branches[i], v), depth + 1, limits) {
          assert KindSteps(doc, b, k, v, Place(b, branches[i], v));
        }
      } else if k.Ref? {
        var name := NormalizeReference(doc.host, k.reference);
        if Target(doc, name).Some? && CanFollow(b, name) {
          assert KindSteps(doc, b, k, v, Place(Follow(b, name), Target(doc, name).value, v));
        }
      }
    }
  }

  // ----- Verdicts under a limit on depth -----

  /** The plan at `depth` accepts and checks nothing beyond `max`, each `oneOf` read as `anyOf`. */
  ghost predicate Passes(doc: Document, b: Budget, p: Plan, v: Value, depth: nat, max: nat)
    requires b.Guard?
    decreases Level(b), v, Room(Names(doc), b), 1, p
  {
    match p
    case Fixed(accept) => accept
    case Node(nullable, kind) => (nullable && v.Null?) || (depth <= max && KindPasses(doc, b, kind, v, depth, max))
  }

  ghost predicate KindPasses(doc: Document, b: Budget, k: Kind, v: Value, depth: nat, max: nat)
    requires b.Guard?
    decreases Level(b), v, Room(Names(doc), b), 1, k
  {
    match k
    case ArrayKind(items, prefixItems, minItems, maxItems) =>
      && v.Arr? && AtLeast(minItems, |v.items|) && AtMost(maxItems, |v.items|)
      && ItemsPass(doc, items, prefixItems, v, 0, depth, max)
    case TupleKind(members, rest) =>
      && v.Arr? && |members| <= |v.items| && (rest.None? ==> |v.items| == |members|)
      && ItemsPass(doc, rest, members, v, 0, depth, max)
    case ObjectKind(properties, required, additional) =>
      && v.Obj? && EveryPresent(required, v, 0) && PropertiesPass(doc, properties, v, 0, depth, max)
      && (additional.Some? ==> FieldsPass(doc, additional.value, properties, v, 0, depth, max))
    case Union(branches, _) => SomePasses(doc, b, branches, v, depth, max)
    case Intersection(allOf) => BranchesPass(doc, b, allOf, v, 0, depth, max)
    case Ref(reference) => NamePasses(doc, b, NormalizeReference(doc.host, reference), v, depth, max)
    case _ => KindHolds(doc, b, k, v)
  }

  ghost predicate NamePasses(doc: Document, b: Budget, name: string, v: Value, depth: nat, max: nat)
    requires b.Guard?
    decreases Level(b), v, Room(Names(doc), b), 0
  {
    && Target(doc, name).Some? && CanFollow(b, name)
    && (FollowShrinks(Names(doc), b, name);
        Passes(doc, Follow(b, name), Target(doc, name).value, v, depth + 1, max))
  }

  ghost predicate SomePasses(doc: Document, b: Budget, branches: seq<Plan>, v: Value, depth: nat, max: nat)
    requires b.Guard?
    decreases Level(b), v, Room(Names(doc), b), 1, branches
  {
    exists i :: 0 <= i < |branches| && Passes(doc, b, branches[i], v, depth + 1, max)
  }

  ghost predicate BranchesPass(doc: Document, b: Budget, branches: seq<Plan>, v: Value, from: nat, depth: nat, max: nat)
    requires b.Guard?
    decreases Level(b), v, Room(Names(doc), b), 1, branches, |branches| - from
  {
    from >= |branches| ||
    (Passes(doc, b, branches[from], v, depth + 1, max) && BranchesPass(doc, b, branches, v, from + 1, depth, max))
  }

  ghost predicate ItemsPass(doc: Document, rest: Option<Plan>, prefix: seq<Plan>, v: Value, from: nat, depth: nat,
                            max: nat)
    requires v.Arr?
    decreases 0, v, 0, 0, |v.items| - from
  {
    from >= |v.items| ||
    (ItemPasses(doc, rest, prefix, v, from, depth, max) && ItemsPass(doc, rest, prefix, v, from + 1, depth, max))
  }

  ghost predicate ItemPasses(doc: Document, rest: Option<Plan>, prefix: seq<Plan>, v: Value, at: nat, depth: nat,
                             max: nat)
    requires v.Arr? && at < |v.items|
    decreases 0, v, 0, 0, 0
  {
    var plan := ItemPlan(rest, prefix, at);
    plan.Some? ==> Passes(doc, Guard({}), plan.value, v.items[at], depth + 1, max)
  }

  ghost predicate PropertiesPass(doc: Document, properties: seq<Property>, v: Value, from: nat, depth: nat, max: nat)
    requires v.Obj?
    decreases 0, v, 0, 0, |properties| - from
  {
    from >= |properties| ||
    (PropertyPasses(doc, properties[from], v, depth, max) && PropertiesPass(doc, properties, v, from + 1, depth, max))
  }

  ghost predicate PropertyPasses(doc: Document, p: Property, v: Value, depth: nat, max: nat)
    requires v.Obj?
    decreases 0, v, 0, 0, 0
  {
    var at := IndexOf(v.fields, p.name);
    at < |v.fields| ==> Passes(doc, Guard({}), p.plan, v.fields[at].value, depth + 1, max)
  }

  ghost predicate FieldsPass(doc: Document, additional: Plan, properties: seq<Property>, v: Value, from: nat,
                             depth: nat,
                             max: nat)
    requires v.Obj?
    decreases 0, v, 0, 0, |v.fields| - from
  {
    from >= |v.fields| ||
    (FieldPasses(doc, additional, properties, v, from, depth, max)
     && FieldsPass(doc, additional, properties, v, from + 1, depth, max))
  }

  ghost predicate FieldPasses(doc: Document, additional: Plan, properties: seq<Property>, v: Value, at: nat, depth: nat,
                              max: nat)
    requires v.Obj? && at < |v.fields|
    decreases 0, v, 0, 0, 0
  {
    Declares(properties, v.fields[at].key)
    || Passes(doc, Guard({}), additional, v.fields[at].value, depth + 1, max)
  }

  lemma NestedPasses(doc: Document, b: Budget, k: Kind, v: Value, depth: nat, limits: Limits)
    requires b.Guard? && (k.ArrayKind? || k.TupleKind? || k.ObjectKind?)
    ensures KindPasses(doc, b, k, v, depth, limits.maxDepth) <==>
              KindPasses(doc, Guard({}), k, v, depth, limits.maxDepth)
    ensures Fits(k, v) && ClearKind(doc, b, k, v, depth, limits) ==> ClearNested(doc, k, v, depth, limits)
  {
    if Fits(k, v) && ClearKind(doc, b, k, v, depth, limits) {
      ClearNestedMeans(doc, b, k, v, depth, limits);
    }
  }

  lemma {:induction false} FieldsAllPass(doc: Document, properties: seq<Property>, v: Value, from: nat, depth: nat,
                                         max: nat)
    requires v.Obj?
    ensures FieldsPass(doc, Fixed(true), properties, v, from, depth, max)
    decreases |v.fields| - from
  {
    if from < |v.fields| {
      FieldsAllPass(doc, properties, v, from + 1, depth, max);
    }
  }

  /** The walks over the items, one step from position `i`. */
  lemma ItemStep(doc: Document, rest: Option<Plan>, prefix: seq<Plan>, v: Value, i: nat, depth: nat, limits: Limits)
    requires v.Arr? && i < |v.items|
    ensures EveryItem(doc, rest, prefix, v, i) <==>
            ItemHolds(doc, rest, prefix, v, i) && EveryItem(doc, rest, prefix, v, i + 1)
    ensures ItemsPass(doc, rest, prefix, v, i, depth, limits.maxDepth) <==>
            ItemPasses(doc, rest, prefix, v, i, depth, limits.maxDepth)
                && ItemsPass(doc, rest, prefix, v, i + 1, depth, limits.maxDepth)
    ensures ItemsSpend(doc, rest, prefix, v, i) ==
            1 + ItemSpend(doc, rest, prefix, v, i) + ItemsSpend(doc, rest, prefix, v, i + 1)
    ensures ClearItems(doc, rest, prefix, v, depth, limits) ==> ClearItem(doc, rest, prefix, v, i, depth, limits)
  {
  }

  ghost function MemberSpend(doc: Document, rest: Option<Plan>, members: seq<Plan>, v: Value, at: nat): nat
    requires v.Arr?
  {
    if at >= |v.items| || ItemPlan(rest, members, at).None? then 0
    else Spend(doc, Guard({}), ItemPlan(rest, members, at).value, v.items[at])
  }

  lemma MemberStep(doc: Document, rest: Option<Plan>, members: seq<Plan>, v: Value, i: nat, depth: nat, limits: Limits)
    requires v.Arr? && i < |members|
    ensures i < |v.items| ==>
              (EveryItem(doc, rest, members, v, i) <==>
               ItemHolds(doc, rest, members, v, i) && EveryItem(doc, rest, members, v, i + 1))
    ensures i < |v.items| ==>
              (ItemsPass(doc, rest, members, v, i, depth, limits.maxDepth) <==>
               ItemPasses(doc, rest, members, v, i, depth, limits.maxDepth)
                   && ItemsPass(doc, rest, members, v, i + 1, depth, limits.maxDepth))
    ensures TupleSpend(doc, rest, members, v, i) ==
            1 + MemberSpend(doc, rest, members, v, i) + TupleSpend(doc, rest, members, v, i + 1)
    ensures ClearItems(doc, rest, members, v, depth, limits) && i < |v.items| ==>
              ClearItem(doc, rest, members, v, i, depth, limits)
  {
  }

  lemma OtherStep(doc: Document, rest: Option<Plan>, members: seq<Plan>, v: Value, i: nat, depth: nat, limits: Limits)
    requires v.Arr? && |members| <= i < |v.items| && rest.Some? && rest.value != Fixed(false)
    ensures EveryItem(doc, rest, members, v, i) <==>
            ItemHolds(doc, rest, members, v, i) && EveryItem(doc, rest, members, v, i + 1)
    ensures ItemsPass(doc, rest, members, v, i, depth, limits.maxDepth) <==>
            ItemPasses(doc, rest, members, v, i, depth, limits.maxDepth)
                && ItemsPass(doc, rest, members, v, i + 1, depth, limits.maxDepth)
    ensures TupleSpend(doc, rest, members, v, i) ==
            1 + MemberSpend(doc, rest, members, v, i) + TupleSpend(doc, rest, members, v, i + 1)
    ensures ClearItems(doc, rest, members, v, depth, limits) ==> ClearItem(doc, rest, members, v, i, depth, limits)
  {
  }

  ghost function FieldSpend(doc: Document, additional: Plan, properties: seq<Property>, v: Value, at: nat): nat
    requires v.Obj? && at < |v.fields|
  {
    if Declares(properties, v.fields[at].key) || additional == Fixed(false) then 0
    else Spend(doc, Guard({}), additional, v.fields[at].value)
  }

  lemma FieldStep(doc: Document, additional: Plan, properties: seq<Property>, v: Value, i: nat, depth: nat,
                  limits: Limits)
    requires v.Obj? && i < |v.fields|
    ensures EveryField(doc, additional, properties, v, i) <==>
            FieldHolds(doc, additional, properties, v.fields[i]) && EveryField(doc, additional, properties, v, i + 1)
    ensures FieldsPass(doc, additional, properties, v, i, depth, limits.maxDepth) <==>
            && FieldPasses(doc, additional, properties, v, i, depth, limits.maxDepth)
            && FieldsPass(doc, additional, properties, v, i + 1, depth, limits.maxDepth)
    ensures FieldsSpend(doc, additional, properties, v, i) ==
            FieldSpend(doc, additional, properties, v, i) + FieldsSpend(doc, additional, properties, v, i + 1)
    ensures ClearFields(doc, additional, properties, v, depth, limits) ==>
              ClearField(doc, additional, properties, v.fields[i], depth, limits)
  {
  }
}
