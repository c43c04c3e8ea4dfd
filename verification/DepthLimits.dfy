/** What an acceptance under a limit on depth says: of the chains of steps, and of the verdict. */
module DepthLimits {
  import opened Json
  import opened ValidationPlan
  import opened EvaluationWalk
  import opened NestingDepth
  import opened LeastFixedPoint
  import opened LooseReading

  /** The place where the validation of a value starts. */
  function Root(doc: Document, value: Value): Place {
    Place(Guard({}), doc.root, value)
  }

  ghost predicate PlacePasses(doc: Document, x: Place, depth: nat, max: nat) {
    x.b.Guard? && Passes(doc, x.b, x.plan, x.value, depth, max)
  }

  // ----- Along a chain without choices -----

  lemma {:induction false} EveryItemPasses(doc: Document, rest: Option<Plan>, prefix: seq<Plan>, v: Value, from: nat,
                                           i: nat, depth: nat, max: nat)
    requires v.Arr? && from <= i < |v.items| && ItemsPass(doc, rest, prefix, v, from, depth, max)
    ensures ItemPasses(doc, rest, prefix, v, i, depth, max)
    decreases i - from
  {
    if from < i {
      EveryItemPasses(doc, rest, prefix, v, from + 1, i, depth, max);
    }
  }

  lemma {:induction false} EveryPropertyPasses(doc: Document, properties: seq<Property>, v: Value, from: nat, i: nat,
                                               depth: nat, max: nat)
    requires v.Obj? && from <= i < |properties| && PropertiesPass(doc, properties, v, from, depth, max)
    ensures PropertyPasses(doc, properties[i], v, depth, max)
    decreases i - from
  {
    if from < i {
      EveryPropertyPasses(doc, properties, v, from + 1, i, depth, max);
    }
  }

  lemma {:induction false} EveryFieldPasses(doc: Document, additional: Plan, properties: seq<Property>, v: Value,
                                            from: nat, i: nat, depth: nat, max: nat)
    requires v.Obj? && from <= i < |v.fields| && FieldsPass(doc, additional, properties, v, from, depth, max)
    ensures FieldPasses(doc, additional, properties, v, i, depth, max)
    decreases i - from
  {
    if from < i {
      EveryFieldPasses(doc, additional, properties, v, from + 1, i, depth, max);
    }
  }

  lemma {:induction false} EveryBranchPasses(doc: Document, b: Budget, branches: seq<Plan>, v: Value, from: nat, i: nat,
                                             depth: nat, max: nat)
    requires b.Guard? && from <= i < |branches| && BranchesPass(doc, b, branches, v, from, depth, max)
    ensures Passes(doc, b, branches[i], v, depth + 1, max)
    decreases i - from
  {
    if from < i {
      EveryBranchPasses(doc, b, branches, v, from + 1, i, depth, max);
    }
  }

  /** What passes does so one step down, unless the step is a choice. */
  lemma PassesStep(doc: Document, x: Place, y: Place, depth: nat, max: nat)
    requires PlacePasses(doc, x, depth, max) && Steps(doc, x, y) && !x.plan.kind.Union?
    ensures PlacePasses(doc, y, depth + 1, max)
  {
    var k, v := x.plan.kind, x.value;
    assert Passes(doc, x.b, x.plan, v, depth, max);
    assert KindPasses(doc, x.b, k, v, depth, max);
    match k
    case ArrayKind(items, prefixItems, _, _) => StepToItem(doc, items, prefixItems, v, y, depth, max);
    case TupleKind(members, rest) => StepToItem(doc, rest, members, v, y, depth, max);
    case ObjectKind(_, _, _) => StepToField(doc, k, v, y, depth, max);
    case Intersection(allOf) =>
      var i :| 0 <= i < |allOf| && allOf[i] == y.plan;
      EveryBranchPasses(doc, x.b, allOf, v, 0, i, depth, max);
    case Ref(reference) => assert NamePasses(doc, x.b, NormalizeReference(doc.host, reference), v, depth, max);
    case _ =>
  }

  lemma StepToItem(doc: Document, rest: Option<Plan>, prefix: seq<Plan>, v: Value, y: Place, depth: nat, max: nat)
    requires v.Arr? && ItemsPass(doc, rest, prefix, v, 0, depth, max) && ItemSteps(rest, prefix, v, y)
    ensures PlacePasses(doc, y, depth + 1, max)
  {
    var i :| 0 <= i < |v.items| && ItemPlan(rest, prefix, i) == Some(y.plan) && y.value == v.items[i];
    EveryItemPasses(doc, rest, prefix, v, 0, i, depth, max);
  }

  lemma StepToField(doc: Document, k: Kind, v: Value, y: Place, depth: nat, max: nat)
    requires k.ObjectKind? && v.Obj? && PropertiesPass(doc, k.properties, v, 0, depth, max)
    requires k.additional.Some? ==> FieldsPass(doc, k.additional.value, k.properties, v, 0, depth, max)
    requires PropertySteps(k.properties, v, y)
             || (k.additional.Some? && FieldSteps(k.additional.value, k.properties, v, y))
    ensures PlacePasses(doc, y, depth + 1, max)
  {
    if PropertySteps(k.properties, v, y) {
      var i :| 0 <= i < |k.properties| && k.properties[i].plan == y.plan && Has(v.fields, k.properties[i].name)
               && y.value == v.fields[IndexOf(v.fields, k.properties[i].name)].value;
      EveryPropertyPasses(doc, k.properties, v, 0, i, depth, max);
    } else {
      var i :| 0 <= i < |v.fields| && !Declares(k.properties, v.fields[i].key) && y.value == v.fields[i].value;
      EveryFieldPasses(doc, k.additional.value, k.properties, v, 0, i, depth, max);
    }
  }

  /** An acceptance reaches to the end of each chain without choices. */
  lemma {:induction false} PassesAlong(doc: Document, path: seq<Place>, depth: nat, max: nat)
    requires Chain(doc, path) && Plain(path) && PlacePasses(doc, path[0], depth, max)
    ensures PlacePasses(doc, path[|path| - 1], depth + |path| - 1, max)
    decreases |path|
  {
    if |path| > 1 {
      assert Steps(doc, path[0], path[1]);
      PassesStep(doc, path[0], path[1], depth, max);
      var rest := path[1..];
      assert forall i :: 0 <= i < |rest| ==> rest[i] == path[i + 1];
      forall i | 0 < i < |rest| ensures Steps(doc, rest[i - 1], rest[i]) {
        assert Steps(doc, path[i], path[i + 1]);
      }
      PassesAlong(doc, rest, depth + 1, max);
    }
  }

  /** Nothing that an acceptance rests on lies too deep, and no reference stops a chain without choices. */
  lemma PassesNear(doc: Document, x: Place, depth: nat, max: nat)
    requires PlacePasses(doc, x, depth, max)
    ensures PlainlyNear(doc, x, depth, max)
  {
    forall path | Chain(doc, path) && Plain(path) && Leads(path, x) ensures depth + |path| - 1 <= max {
      PassesAlong(doc, path, depth, max);
    }
  }

  // ----- Plans without choices -----

  predicate UnionFree(p: Plan) {
    match p
    case Fixed(_) => true
    case Node(_, kind) => UnionFreeKind(kind)
  }

  predicate UnionFreeKind(k: Kind) {
    match k
    case ArrayKind(items, prefixItems, _, _) =>
      (items.Some? ==> UnionFree(items.value)) && UnionFreeAll(prefixItems)
    case TupleKind(members, rest) => (rest.Some? ==> UnionFree(rest.value)) && UnionFreeAll(members)
    case ObjectKind(properties, _, additional) =>
      && (additional.Some? ==> UnionFree(additional.value))
      && forall i :: 0 <= i < |properties| ==> UnionFree(properties[i].plan)
    case Union(_, _) => false
    case Intersection(allOf) => UnionFreeAll(allOf)
    case _ => true
  }

  predicate UnionFreeAll(plans: seq<Plan>) {
    forall i :: 0 <= i < |plans| ==> UnionFree(plans[i])
  }

  predicate UnionFreeDocument(doc: Document) {
    UnionFree(doc.root) && forall name :: name in doc.definitions ==> UnionFree(doc.definitions[name])
  }

  lemma UnionFreeStep(doc: Document, x: Place, y: Place)
    requires UnionFreeDocument(doc) && UnionFree(x.plan) && Steps(doc, x, y)
    ensures UnionFree(y.plan)
  {
    assert UnionFreeKind(x.plan.kind);
    match x.plan.kind
    case ArrayKind(items, prefixItems, _, _) =>
      assert UnionFreeAll(prefixItems) && (items.Some? ==> UnionFree(items.value));
      var i :| 0 <= i < |x.value.items| && ItemPlan(items, prefixItems, i) == Some(y.plan);
    case TupleKind(members, rest) =>
      var i :| 0 <= i < |x.value.items| && ItemPlan(rest, members, i) == Some(y.plan);
    case _ =>
  }

  lemma {:induction false} UnionFreeIsPlain(doc: Document, path: seq<Place>)
    requires UnionFreeDocument(doc) && Chain(doc, path) && UnionFree(path[0].plan)
    ensures Plain(path) && UnionFree(path[|path| - 1].plan)
    decreases |path|
  {
    if |path| > 1 {
      var before := path[..|path| - 1];
      assert Chain(doc, before) && Steps(doc, before[|before| - 1], path[|path| - 1]);
      UnionFreeIsPlain(doc, before);
      assert forall i :: 0 <= i < |before| ==> before[i] == path[i];
      UnionFreeStep(doc, before[|before| - 1], path[|path| - 1]);
    }
  }

  /** Without unions every chain counts. */
  lemma PlainlyIsNear(doc: Document, x: Place, depth: nat, max: nat)
    requires UnionFreeDocument(doc) && UnionFree(x.plan)
    ensures PlainlyNear(doc, x, depth, max) <==> Near(doc, x, depth, max)
  {
    if PlainlyNear(doc, x, depth, max) {
      forall path | Chain(doc, path) && Leads(path, x) ensures depth + |path| - 1 <= max {
        UnionFreeIsPlain(doc, path);
      }
    }
  }

  lemma {:induction false} UnionFreeIsOneOfFree(p: Plan)
    requires UnionFree(p)
    ensures OneOfFree(p)
  {
    if p.Node? {
      UnionFreeKindIsOneOfFree(p.kind);
    }
  }

  lemma {:induction false} UnionFreeKindIsOneOfFree(k: Kind)
    requires UnionFreeKind(k)
    ensures OneOfFreeKind(k)
  {
    match k
    case ArrayKind(items, prefixItems, _, _) =>
      UnionFreeAllIsOneOfFree(prefixItems);
      if items.Some? {
        UnionFreeIsOneOfFree(items.value);
      }
    case TupleKind(members, rest) =>
      UnionFreeAllIsOneOfFree(members);
      if rest.Some? {
        UnionFreeIsOneOfFree(rest.value);
      }
    case ObjectKind(properties, _, additional) =>
      forall i | 0 <= i < |properties| ensures OneOfFree(properties[i].plan) {
        UnionFreeIsOneOfFree(properties[i].plan);
      }
      if additional.Some? {
        UnionFreeIsOneOfFree(additional.value);
      }
    case Intersection(allOf) => UnionFreeAllIsOneOfFree(allOf);
    case _ =>
  }

  lemma {:induction false} UnionFreeAllIsOneOfFree(plans: seq<Plan>)
    requires UnionFreeAll(plans)
    ensures OneOfFreeAll(plans)
  {
    forall i | 0 <= i < |plans| ensures OneOfFree(plans[i]) {
      UnionFreeIsOneOfFree(plans[i]);
    }
  }

  lemma UnionFreeDocumentIsOneOfFree(doc: Document)
    requires UnionFreeDocument(doc)
    ensures OneOfFreeDocument(doc)
  {
    UnionFreeIsOneOfFree(doc.root);
    forall name | name in doc.definitions ensures OneOfFree(doc.definitions[name]) {
      UnionFreeIsOneOfFree(doc.definitions[name]);
    }
  }

  // ----- Limits on depth only ever refuse -----

  /** What passes is accepted without limits, each `oneOf` read as `anyOf`. */
  lemma {:induction false} PassesLoosely(doc: Document, b: Budget, p: Plan, v: Value, depth: nat, max: nat)
    requires b.Guard? && Passes(doc, b, p, v, depth, max)
    ensures Holds(Relaxed(doc), b, Relax(p), v)
    decreases Level(b), v, Room(Names(doc), b), 1, p
  {
    if p.Node? && !(p.nullable && v.Null?) {
      KindPassesLoosely(doc, b, p.kind, v, depth, max);
    }
  }

  lemma {:induction false} KindPassesLoosely(doc: Document, b: Budget, k: Kind, v: Value, depth: nat, max: nat)
    requires b.Guard? && KindPasses(doc, b, k, v, depth, max)
    ensures KindHolds(Relaxed(doc), b, RelaxKind(k), v)
    decreases Level(b), v, Room(Names(doc), b), 1, k
  {
    match k
    case ArrayKind(items, prefixItems, _, _) =>
      ItemsPassLoosely(doc, items, prefixItems, v, 0, depth, max);
      ArrayMeans(Relaxed(doc), b, RelaxKind(k), v);
    case TupleKind(members, rest) =>
      ItemsPassLoosely(doc, rest, members, v, 0, depth, max);
      TupleMeans(Relaxed(doc), b, RelaxKind(k), v);
    case ObjectKind(_, _, _) => ObjectPassesLoosely(doc, b, k, v, depth, max);
    case Union(branches, _) =>
      var i :| 0 <= i < |branches| && Passes(doc, b, branches[i], v, depth + 1, max);
      PassesLoosely(doc, b, branches[i], v, depth + 1, max);
      assert Holds(Relaxed(doc), b, RelaxAll(branches)[i], v);
    case Intersection(allOf) =>
      forall i | 0 <= i < |allOf| ensures Holds(Relaxed(doc), b, RelaxAll(allOf)[i], v) {
        EveryBranchPasses(doc, b, allOf, v, 0, i, depth, max);
        PassesLoosely(doc, b, allOf[i], v, depth + 1, max);
      }
    case Ref(reference) => NamePassesLoosely(doc, b, NormalizeReference(doc.host, reference), v, depth, max);
    case _ =>
  }

  lemma {:induction false} NamePassesLoosely(doc: Document, b: Budget, name: string, v: Value, depth: nat, max: nat)
    requires b.Guard? && NamePasses(doc, b, name, v, depth, max)
    ensures NameHolds(Relaxed(doc), b, name, v)
    decreases Level(b), v, Room(Names(doc), b), 0
  {
    FollowShrinks(Names(doc), b, name);
    PassesLoosely(doc, Follow(b, name), Target(doc, name).value, v, depth + 1, max);
    assert Target(Relaxed(doc), name) == Some(Relax(Target(doc, name).value));
  }

  lemma {:induction false} ItemsPassLoosely(doc: Document, rest: Option<Plan>, prefix: seq<Plan>, v: Value, from: nat,
                                            depth: nat, max: nat)
    requires v.Arr? && ItemsPass(doc, rest, prefix, v, from, depth, max)
    ensures EveryItem(Relaxed(doc), RelaxOption(rest), RelaxAll(prefix), v, from)
    decreases 0, v, 0, 0, |v.items| - from
  {
    if from < |v.items| {
      if ItemPlan(rest, prefix, from).Some? {
        PassesLoosely(doc, Guard({}), ItemPlan(rest, prefix, from).value, v.items[from], depth + 1, max);
      }
      ItemsPassLoosely(doc, rest, prefix, v, from + 1, depth, max);
    }
  }

  lemma {:induction false} ObjectPassesLoosely(doc: Document, b: Budget, k: Kind, v: Value, depth: nat, max: nat)
    requires b.Guard? && k.ObjectKind? && KindPasses(doc, b, k, v, depth, max)
    ensures KindHolds(Relaxed(doc), b, RelaxKind(k), v)
    decreases Level(b), v, 0, 0, 1
  {
    PropertiesPassLoosely(doc, k.properties, v, 0, depth, max);
    if k.additional.Some? {
      FieldsPassLoosely(doc, k.additional.value, k.properties, v, 0, depth, max);
    }
    ObjectMeans(Relaxed(doc), b, RelaxKind(k), v);
  }

  lemma {:induction false} PropertiesPassLoosely(doc: Document, properties: seq<Property>, v: Value, from: nat,
                                                 depth: nat, max: nat)
    requires v.Obj? && PropertiesPass(doc, properties, v, from, depth, max)
    ensures EveryProperty(Relaxed(doc), RelaxProperties(properties), v, from)
    decreases 0, v, 0, 0, 0, |properties| - from
  {
    if from < |properties| {
      var at := IndexOf(v.fields, properties[from].name);
      if at < |v.fields| {
        PassesLoosely(doc, Guard({}), properties[from].plan, v.fields[at].value, depth + 1, max);
      }
      PropertiesPassLoosely(doc, properties, v, from + 1, depth, max);
    }
  }

  lemma {:induction false} FieldsPassLoosely(doc: Document, additional: Plan, properties: seq<Property>, v: Value,
                                             from: nat, depth: nat, max: nat)
    requires v.Obj? && FieldsPass(doc, additional, properties, v, from, depth, max)
    ensures EveryField(Relaxed(doc), Relax(additional), RelaxProperties(properties), v, from)
    decreases 0, v, 0, 0, 0, |v.fields| - from
  {
    if from < |v.fields| {
      DeclaresRelaxed(properties, v.fields[from].key);
      if !Declares(properties, v.fields[from].key) {
        PassesLoosely(doc, Guard({}), additional, v.fields[from].value, depth + 1, max);
      }
      FieldsPassLoosely(doc, additional, properties, v, from + 1, depth, max);
    }
  }
}
