/** Documents in which every `oneOf` is read as `anyOf`. */
module LooseReading {
  import opened Json
  import opened ValidationPlan
  import opened LeastFixedPoint

  function Relax(p: Plan): Plan {
    match p
    case Fixed(_) => p
    case Node(nullable, kind) => Node(nullable, RelaxKind(kind))
  }

  function RelaxKind(k: Kind): Kind {
    match k
    case ArrayKind(items, prefixItems, minItems, maxItems) =>
      ArrayKind(RelaxOption(items), RelaxAll(prefixItems), minItems, maxItems)
    case TupleKind(members, rest) => TupleKind(RelaxAll(members), RelaxOption(rest))
    case ObjectKind(properties, required, additional) =>
      ObjectKind(RelaxProperties(properties), required, RelaxOption(additional))
    case Union(branches, _) => Union(RelaxAll(branches), false)
    case Intersection(allOf) => Intersection(RelaxAll(allOf))
    case _ => k
  }

  function RelaxOption(p: Option<Plan>): Option<Plan> {
    match p
    case None => None
    case Some(plan) => Some(Relax(plan))
  }

  function RelaxAll(plans: seq<Plan>): (r: seq<Plan>)
    ensures |r| == |plans| && forall i :: 0 <= i < |plans| ==> r[i] == Relax(plans[i])
  {
    if plans == [] then [] else [Relax(plans[0])] + RelaxAll(plans[1..])
  }

  function RelaxProperties(properties: seq<Property>): (r: seq<Property>)
    ensures |r| == |properties|
    ensures forall i :: 0 <= i < |properties| ==> r[i] == Property(properties[i].name, Relax(properties[i].plan))
  {
    if properties == [] then []
    else [Property(properties[0].name, Relax(properties[0].plan))] + RelaxProperties(properties[1..])
  }

  function Relaxed(doc: Document): Document {
    Document(Relax(doc.root), map name | name in doc.definitions :: Relax(doc.definitions[name]), doc.host)
  }

  lemma DeclaresRelaxed(properties: seq<Property>, key: string)
    ensures Declares(RelaxProperties(properties), key) <==> Declares(properties, key)
  {
    if j :| 0 <= j < |properties| && properties[j].name == key {
      assert RelaxProperties(properties)[j].name == key;
    }
  }

  // ----- Without `oneOf` nothing changes -----

  lemma {:induction false} RelaxFree(p: Plan)
    requires OneOfFree(p)
    ensures Relax(p) == p
  {
    match p
    case Fixed(_) =>
    case Node(_, kind) => RelaxFreeKind(kind);
  }

  lemma {:induction false} RelaxFreeKind(k: Kind)
    requires OneOfFreeKind(k)
    ensures RelaxKind(k) == k
  {
    match k
    case ArrayKind(items, prefixItems, _, _) =>
      RelaxFreeOption(items);
      RelaxFreeAll(prefixItems);
    case TupleKind(members, rest) =>
      RelaxFreeAll(members);
      RelaxFreeOption(rest);
    case ObjectKind(properties, _, additional) =>
      RelaxFreeProperties(properties);
      RelaxFreeOption(additional);
    case Union(branches, _) => RelaxFreeAll(branches);
    case Intersection(allOf) => RelaxFreeAll(allOf);
    case _ =>
  }

  lemma {:induction false} RelaxFreeOption(p: Option<Plan>)
    requires p.Some? ==> OneOfFree(p.value)
    ensures RelaxOption(p) == p
  {
    if p.Some? {
      RelaxFree(p.value);
    }
  }

  lemma {:induction false} RelaxFreeAll(plans: seq<Plan>)
    requires OneOfFreeAll(plans)
    ensures RelaxAll(plans) == plans
  {
    forall i | 0 <= i < |plans| ensures Relax(plans[i]) == plans[i] {
      RelaxFree(plans[i]);
    }
  }

  lemma {:induction false} RelaxFreeProperties(properties: seq<Property>)
    requires forall i :: 0 <= i < |properties| ==> OneOfFree(properties[i].plan)
    ensures RelaxProperties(properties) == properties
  {
    forall i | 0 <= i < |properties| ensures RelaxProperties(properties)[i] == properties[i] {
      RelaxFree(properties[i].plan);
    }
  }

  lemma RelaxFreeDocument(doc: Document)
    requires OneOfFreeDocument(doc)
    ensures Relaxed(doc) == doc
  {
    RelaxFree(doc.root);
    forall name | name in doc.definitions ensures Relax(doc.definitions[name]) == doc.definitions[name] {
      RelaxFree(doc.definitions[name]);
    }
  }

  // ----- Plans that do not refer to the root -----

  predicate RootFree(host: Host, p: Plan) {
    match p
    case Fixed(_) => true
    case Node(_, kind) => RootFreeKind(host, kind)
  }

  predicate RootFreeKind(host: Host, k: Kind) {
    match k
    case ArrayKind(items, prefixItems, _, _) =>
      (items.Some? ==> RootFree(host, items.value)) && RootFreeAll(host, prefixItems)
    case TupleKind(members, rest) => (rest.Some? ==> RootFree(host, rest.value)) && RootFreeAll(host, members)
    case ObjectKind(properties, _, additional) =>
      && (additional.Some? ==> RootFree(host, additional.value))
      && forall i :: 0 <= i < |properties| ==> RootFree(host, properties[i].plan)
    case Union(branches, _) => RootFreeAll(host, branches)
    case Intersection(allOf) => RootFreeAll(host, allOf)
    case Ref(reference) => NormalizeReference(host, reference) != "#"
    case _ => true
  }

  predicate RootFreeAll(host: Host, plans: seq<Plan>) {
    forall i :: 0 <= i < |plans| ==> RootFree(host, plans[i])
  }

  predicate RootFreeDefinitions(doc: Document) {
    forall name :: name in doc.definitions && name != "#" ==> RootFree(doc.host, doc.definitions[name])
  }

  /** The documents differ in their roots at most. */
  ghost predicate SameBelow(doc: Document, d: Document) {
    && doc.host == d.host && doc.definitions.Keys == d.definitions.Keys
    && forall name :: name in doc.definitions && name != "#" ==> doc.definitions[name] == d.definitions[name]
  }

  lemma {:induction false} SameVerdict(doc: Document, d: Document, b: Budget, p: Plan, v: Value)
    requires SameBelow(doc, d) && RootFreeDefinitions(doc) && RootFree(doc.host, p)
    ensures Holds(doc, b, p, v) <==> Holds(d, b, p, v)
    decreases Level(b), v, Room(Names(doc), b), 1, p
  {
    match p
    case Fixed(_) =>
    case Node(_, kind) => SameKind(doc, d, b, kind, v);
  }

  lemma {:induction false} SameKind(doc: Document, d: Document, b: Budget, k: Kind, v: Value)
    requires SameBelow(doc, d) && RootFreeDefinitions(doc) && RootFreeKind(doc.host, k)
    ensures KindHolds(doc, b, k, v) <==> KindHolds(d, b, k, v)
    decreases Level(b), v, Room(Names(doc), b), 1, k
  {
    if k.ArrayKind? {
      SameArray(doc, d, b, k, v);
    } else if k.TupleKind? {
      SameTuple(doc, d, b, k, v);
    } else if k.ObjectKind? {
      SameObject(doc, d, b, k, v);
    } else if k.Union? || k.Intersection? {
      SameComposite(doc, d, b, k, v);
    } else if k.Ref? {
      SameName(doc, d, b, NormalizeReference(doc.host, k.reference), v);
    }
  }

  lemma {:induction false} SameArray(doc: Document, d: Document, b: Budget, k: Kind, v: Value)
    requires SameBelow(doc, d) && RootFreeDefinitions(doc) && RootFreeKind(doc.host, k) && k.ArrayKind?
    ensures KindHolds(doc, b, k, v) <==> KindHolds(d, b, k, v)
    decreases Level(b), v, 0, 0
  {
    SameItems(doc, d, b, k.items, k.prefixItems, v);
  }

  lemma {:induction false} SameTuple(doc: Document, d: Document, b: Budget, k: Kind, v: Value)
    requires SameBelow(doc, d) && RootFreeDefinitions(doc) && RootFreeKind(doc.host, k) && k.TupleKind?
    ensures KindHolds(doc, b, k, v) <==> KindHolds(d, b, k, v)
    decreases Level(b), v, 0, 0
  {
    SameItems(doc, d, b, k.rest, k.members, v);
  }

  lemma {:induction false} SameObject(doc: Document, d: Document, b: Budget, k: Kind, v: Value)
    requires SameBelow(doc, d) && RootFreeDefinitions(doc) && RootFreeKind(doc.host, k) && k.ObjectKind?
    ensures KindHolds(doc, b, k, v) <==> KindHolds(d, b, k, v)
    decreases Level(b), v, 0, 0
  {
    SameProperties(doc, d, b, k.properties, k.additional, v);
  }

  lemma {:induction false} SameComposite(doc: Document, d: Document, b: Budget, k: Kind, v: Value)
    requires SameBelow(doc, d) && RootFreeDefinitions(doc) && RootFreeKind(doc.host, k) && (k.Union? || k.Intersection?)
    ensures KindHolds(doc, b, k, v) <==> KindHolds(d, b, k, v)
    decreases Level(b), v, Room(Names(doc), b), 1, k, 0
  {
    SameAll(doc, d, b, if k.Union? then k.branches else k.allOf, v);
  }

  lemma {:induction false} SameAll(doc: Document, d: Document, b: Budget, plans: seq<Plan>, v: Value)
    requires SameBelow(doc, d) && RootFreeDefinitions(doc) && RootFreeAll(doc.host, plans)
    ensures forall i :: 0 <= i < |plans| ==> (Holds(doc, b, plans[i], v) <==> Holds(d, b, plans[i], v))
    ensures forall i :: 0 <= i < |plans| ==> (OnlyHolds(doc, b, plans, i, v) <==> OnlyHolds(d, b, plans, i, v))
    decreases Level(b), v, Room(Names(doc), b), 1, plans
  {
    forall i | 0 <= i < |plans| ensures Holds(doc, b, plans[i], v) <==> Holds(d, b, plans[i], v) {
      SameVerdict(doc, d, b, plans[i], v);
    }
  }

  lemma {:induction false} SameItems(doc: Document, d: Document, b: Budget, rest: Option<Plan>, prefix: seq<Plan>,
                                     v: Value)
    requires SameBelow(doc, d) && RootFreeDefinitions(doc) && RootFreeAll(doc.host, prefix)
    requires rest.Some? ==> RootFree(doc.host, rest.value)
    ensures v.Arr? ==>
              forall i :: 0 <= i < |v.items| ==>
                && (i < |prefix| ==>
                      (Holds(doc, Descend(b), prefix[i], v.items[i]) <==> Holds(d, Descend(b), prefix[i], v.items[i])))
                && (rest.Some? ==>
                      (Holds(doc, Descend(b), rest.value, v.items[i]) <==> Holds(d, Descend(b), rest.value,
                                                                                 v.items[i])))
    decreases Level(b), v, 0, 0, 0
  {
    if v.Arr? {
      forall i | 0 <= i < |v.items|
        ensures i < |prefix| ==>
                  (Holds(doc, Descend(b), prefix[i], v.items[i]) <==> Holds(d, Descend(b), prefix[i], v.items[i]))
        ensures rest.Some? ==>
                  (Holds(doc, Descend(b), rest.value, v.items[i]) <==> Holds(d, Descend(b), rest.value, v.items[i]))
      {
        if i < |prefix| {
          SameVerdict(doc, d, Descend(b), prefix[i], v.items[i]);
        }
        if rest.Some? {
          SameVerdict(doc, d, Descend(b), rest.value, v.items[i]);
        }
      }
    }
  }

  lemma {:induction false} SameProperties(doc: Document, d: Document, b: Budget, properties: seq<Property>,
                                          additional: Option<Plan>, v: Value)
    requires SameBelow(doc, d) && RootFreeDefinitions(doc)
    requires forall i :: 0 <= i < |properties| ==> RootFree(doc.host, properties[i].plan)
    requires additional.Some? ==> RootFree(doc.host, additional.value)
    ensures v.Obj? ==>
              forall i :: 0 <= i < |properties| ==>
                var at := IndexOf(v.fields, properties[i].name);
                at < |v.fields| ==>
                  (Holds(doc, Descend(b), properties[i].plan, v.fields[at].value)
                   <==> Holds(d, Descend(b), properties[i].plan, v.fields[at].value))
    ensures v.Obj? && additional.Some? ==>
              forall i :: 0 <= i < |v.fields| ==>
                (Holds(doc, Descend(b), additional.value, v.fields[i].value)
                 <==> Holds(d, Descend(b), additional.value, v.fields[i].value))
    decreases Level(b), v, 0, 0, 0
  {
    if v.Obj? {
      forall i | 0 <= i < |properties| && Has(v.fields, properties[i].name)
        ensures var child := v.fields[IndexOf(v.fields, properties[i].name)].value;
                Holds(doc, Descend(b), properties[i].plan, child) <==> Holds(d, Descend(b), properties[i].plan, child)
      {
        SameVerdict(doc, d, Descend(b), properties[i].plan, v.fields[IndexOf(v.fields, properties[i].name)].value);
      }
      if additional.Some? {
        forall i | 0 <= i < |v.fields|
          ensures Holds(doc, Descend(b), additional.value, v.fields[i].value)
                  <==> Holds(d, Descend(b), additional.value, v.fields[i].value)
        {
          SameVerdict(doc, d, Descend(b), additional.value, v.fields[i].value);
        }
      }
    }
  }

  lemma {:induction false} SameName(doc: Document, d: Document, b: Budget, name: string, v: Value)
    requires SameBelow(doc, d) && RootFreeDefinitions(doc) && name != "#"
    ensures NameHolds(doc, b, name, v) <==> NameHolds(d, b, name, v)
    decreases Level(b), v, Room(Names(doc), b), 0
  {
    if Target(doc, name).Some? && CanFollow(b, name) {
      FollowShrinks(Names(doc), b, name);
      SameVerdict(doc, d, Follow(b, name), Target(doc, name).value, v);
    }
  }

  // ----- `oneOf` at the root only -----

  /** Definitions and branches are free of `oneOf` and of references to the root. */
  predicate OneOfAtRoot(doc: Document, branches: seq<Plan>) {
    && OneOfFreeAll(branches) && RootFreeAll(doc.host, branches) && RootFreeDefinitions(doc)
    && forall name :: name in doc.definitions && name != "#" ==> OneOfFree(doc.definitions[name])
  }

  /** Reading `oneOf` as `anyOf` does not touch the branches. */
  lemma BranchesUntouched(doc: Document, branches: seq<Plan>, b: Budget, v: Value)
    requires OneOfAtRoot(doc, branches)
    ensures RelaxAll(branches) == branches
    ensures forall i :: 0 <= i < |branches| ==>
              (Holds(doc, b, branches[i], v) <==> Holds(Relaxed(doc), b, branches[i], v))
  {
    RelaxFreeAll(branches);
    forall name | name in doc.definitions && name != "#" ensures Relax(doc.definitions[name]) == doc.definitions[name] {
      RelaxFree(doc.definitions[name]);
    }
    SameAll(doc, Relaxed(doc), b, branches, v);
  }
}
