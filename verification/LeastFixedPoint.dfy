/** The reference guard of the evaluator computes the least fixed point of the definitions. */
module LeastFixedPoint {
  import opened Json
  import opened ValidationPlan

  // ----- Plans whose meaning is monotone in the meaning of their references -----

  predicate OneOfFree(p: Plan) {
    match p
    case Fixed(_) => true
    case Node(_, kind) => OneOfFreeKind(kind)
  }

  predicate OneOfFreeKind(k: Kind) {
    match k
    case ArrayKind(items, prefixItems, _, _) =>
      (items.Some? ==> OneOfFree(items.value)) && OneOfFreeAll(prefixItems)
    case TupleKind(members, rest) =>
      (rest.Some? ==> OneOfFree(rest.value)) && OneOfFreeAll(members)
    case ObjectKind(properties, _, additional) =>
      && (additional.Some? ==> OneOfFree(additional.value))
      && forall i :: 0 <= i < |properties| ==> OneOfFree(properties[i].plan)
    case Union(branches, oneOf) => !oneOf && OneOfFreeAll(branches)
    case Intersection(allOf) => OneOfFreeAll(allOf)
    case _ => true
  }

  predicate OneOfFreeAll(plans: seq<Plan>) {
    forall i :: 0 <= i < |plans| ==> OneOfFree(plans[i])
  }

  predicate OneOfFreeDocument(doc: Document) {
    OneOfFree(doc.root) && forall name :: name in doc.definitions ==> OneOfFree(doc.definitions[name])
  }

  /** Every reference that holds under `b` holds under `c`, on `v` and inside `v`. */
  ghost predicate RefsLift(doc: Document, b: Budget, c: Budget, v: Value) {
    && (forall name :: NameHolds(doc, b, name, v) ==> NameHolds(doc, c, name, v))
    && (forall name, w :: Size(w) < Size(v) && NameHolds(doc, Descend(b), name, w) ==>
                            NameHolds(doc, Descend(c), name, w))
  }

  lemma RefsLiftInside(doc: Document, b: Budget, c: Budget, v: Value, w: Value)
    requires RefsLift(doc, b, c, v) && Size(w) < Size(v)
    ensures RefsLift(doc, Descend(b), Descend(c), w)
  {
  }

  /** Without `oneOf`, a plan asks for its references in positive positions only. */
  lemma {:induction false} Lift(doc: Document, b: Budget, c: Budget, p: Plan, v: Value)
    requires OneOfFree(p) && RefsLift(doc, b, c, v) && Holds(doc, b, p, v)
    ensures Holds(doc, c, p, v)
    decreases v, p
  {
    match p
    case Fixed(_) =>
    case Node(nullable, kind) =>
      if !(nullable && v.Null?) {
        LiftKind(doc, b, c, kind, v);
      }
  }

  lemma {:induction false} LiftKind(doc: Document, b: Budget, c: Budget, k: Kind, v: Value)
    requires OneOfFreeKind(k) && RefsLift(doc, b, c, v) && KindHolds(doc, b, k, v)
    ensures KindHolds(doc, c, k, v)
    decreases v, k
  {
    match k
    case ArrayKind(items, prefixItems, _, _) =>
      forall i | 0 <= i < |v.items|
        ensures i < |prefixItems| ==> Holds(doc, Descend(c), prefixItems[i], v.items[i])
        ensures |prefixItems| <= i && items.Some? ==> Holds(doc, Descend(c), items.value, v.items[i])
      {
        RefsLiftInside(doc, b, c, v, v.items[i]);
        if i < |prefixItems| {
          Lift(doc, Descend(b), Descend(c), prefixItems[i], v.items[i]);
        } else if items.Some? {
          Lift(doc, Descend(b), Descend(c), items.value, v.items[i]);
        }
      }
    case TupleKind(members, rest) =>
      forall i | 0 <= i < |v.items|
        ensures i < |members| ==> Holds(doc, Descend(c), members[i], v.items[i])
        ensures |members| <= i && rest.Some? ==> Holds(doc, Descend(c), rest.value, v.items[i])
      {
        RefsLiftInside(doc, b, c, v, v.items[i]);
        if i < |members| {
          Lift(doc, Descend(b), Descend(c), members[i], v.items[i]);
        } else if rest.Some? {
          Lift(doc, Descend(b), Descend(c), rest.value, v.items[i]);
        }
      }
    case ObjectKind(properties, _, additional) =>
      LiftObject(doc, b, c, k, v);
    case Union(branches, _) =>
      var i :| 0 <= i < |branches| && Holds(doc, b, branches[i], v);
      Lift(doc, b, c, branches[i], v);
    case Intersection(allOf) =>
      forall i | 0 <= i < |allOf| ensures Holds(doc, c, allOf[i], v) {
        Lift(doc, b, c, allOf[i], v);
      }
    case _ =>
  }

  lemma {:induction false} LiftObject(doc: Document, b: Budget, c: Budget, k: Kind, v: Value)
    requires k.ObjectKind? && OneOfFreeKind(k) && RefsLift(doc, b, c, v) && KindHolds(doc, b, k, v)
    ensures KindHolds(doc, c, k, v)
    decreases v, k, 0
  {
    forall i | 0 <= i < |k.properties| && Has(v.fields, k.properties[i].name)
      ensures Holds(doc, Descend(c), k.properties[i].plan, v.fields[IndexOf(v.fields, k.properties[i].name)].value)
    {
      var child := v.fields[IndexOf(v.fields, k.properties[i].name)].value;
      RefsLiftInside(doc, b, c, v, child);
      Lift(doc, Descend(b), Descend(c), k.properties[i].plan, child);
    }
    if k.additional.Some? {
      forall i | 0 <= i < |v.fields| && !Declares(k.properties, v.fields[i].key)
        ensures Holds(doc, Descend(c), k.additional.value, v.fields[i].value)
      {
        RefsLiftInside(doc, b, c, v, v.fields[i].value);
        Lift(doc, Descend(b), Descend(c), k.additional.value, v.fields[i].value);
      }
    }
  }

  // ----- The approximations form a chain -----

  lemma {:induction false} FuelGrows(doc: Document, n: nat, m: nat, p: Plan, v: Value)
    requires OneOfFreeDocument(doc) && OneOfFree(p) && n <= m && Holds(doc, Fuel(n), p, v)
    ensures Holds(doc, Fuel(m), p, v)
    decreases n
  {
    forall name, w | NameHolds(doc, Fuel(n), name, w) ensures NameHolds(doc, Fuel(m), name, w) {
      FuelGrows(doc, n - 1, m - 1, Target(doc, name).value, w);
    }
    Lift(doc, Fuel(n), Fuel(m), p, v);
  }

  /** The first approximation at which a plan holds. */
  lemma FirstFuel(doc: Document, n: nat, p: Plan, v: Value) returns (m: nat)
    requires Holds(doc, Fuel(n), p, v)
    ensures m <= n && Holds(doc, Fuel(m), p, v)
    ensures m > 0 ==> !Holds(doc, Fuel(m - 1), p, v)
  {
    m := n;
    while m > 0 && Holds(doc, Fuel(m - 1), p, v)
      invariant m <= n && Holds(doc, Fuel(m), p, v)
    {
      m := m - 1;
    }
  }

  // ----- The guard against the approximations -----

  /** `n` references for each of `levels` nested values. */
  function Span(levels: nat, n: nat): nat {
    if levels == 0 then 0 else n + Span(levels - 1, n)
  }

  lemma {:induction false} SpanGrows(small: nat, large: nat, n: nat)
    requires small < large
    ensures Span(small, n) + n <= Span(large, n)
  {
    if small < large - 1 {
      SpanGrows(small, large - 1, n);
    }
  }

  /** References enough for every path of the guarded evaluation. */
  ghost function Enough(doc: Document, b: Budget, v: Value): nat {
    Room(Names(doc), b) + Span(Size(v), |Names(doc)|)
  }

  lemma EnoughInside(doc: Document, b: Budget, v: Value, w: Value)
    requires Size(w) < Size(v)
    ensures Enough(doc, Guard({}), w) <= Enough(doc, b, v)
  {
    assert Names(doc) - {} == Names(doc);
    SpanGrows(Size(w), Size(v), |Names(doc)|);
  }

  lemma EnoughFollows(doc: Document, b: Budget, name: string, v: Value)
    requires b.Guard? && CanFollow(b, name) && name in Names(doc)
    ensures Room(Names(doc), Follow(b, name)) < Room(Names(doc), b)
    ensures Enough(doc, Follow(b, name), v) < Enough(doc, b, v)
  {
    FollowShrinks(Names(doc), b, name);
  }

  lemma {:induction false} GuardToFuel(doc: Document, b: Budget, n: nat, p: Plan, v: Value)
    requires b.Guard? && OneOfFreeDocument(doc) && OneOfFree(p)
    requires Enough(doc, b, v) <= n && Holds(doc, b, p, v)
    ensures Holds(doc, Fuel(n), p, v)
    decreases Size(v), Room(Names(doc), b)
  {
    forall name | NameHolds(doc, b, name, v) ensures NameHolds(doc, Fuel(n), name, v) {
      GuardToFuelRef(doc, b, n, name, v);
    }
    forall name, w | Size(w) < Size(v) && NameHolds(doc, Guard({}), name, w)
      ensures NameHolds(doc, Fuel(n), name, w)
    {
      EnoughInside(doc, b, v, w);
      GuardToFuelRef(doc, Guard({}), n, name, w);
    }
    Lift(doc, b, Fuel(n), p, v);
  }

  lemma {:induction false} GuardToFuelRef(doc: Document, b: Budget, n: nat, name: string, v: Value)
    requires b.Guard? && OneOfFreeDocument(doc)
    requires Enough(doc, b, v) <= n && NameHolds(doc, b, name, v)
    ensures NameHolds(doc, Fuel(n), name, v)
    decreases Size(v), Room(Names(doc), b), 0
  {
    var next, less := Follow(b, name), n - 1;
    EnoughFollows(doc, b, name, v);
    GuardToFuel(doc, next, less, Target(doc, name).value, v);
    assert Follow(Fuel(n), name) == Fuel(less);
  }

  /** No name of the guard could help at fuel `n`. */
  ghost predicate Blocked(doc: Document, n: nat, names: set<string>, v: Value) {
    forall name :: name in names && n > 0 && Target(doc, name).Some? ==>
                     !Holds(doc, Fuel(n - 1), Target(doc, name).value, v)
  }

  /** A derivation of least height never asks twice for a name on one value. */
  lemma {:induction false} FuelToGuard(doc: Document, n: nat, b: Budget, p: Plan, v: Value)
    requires b.Guard? && OneOfFreeDocument(doc) && OneOfFree(p)
    requires Blocked(doc, n, b.names, v) && Holds(doc, Fuel(n), p, v)
    ensures Holds(doc, b, p, v)
    decreases Size(v), Room(Names(doc), b)
  {
    forall name | NameHolds(doc, Fuel(n), name, v) ensures NameHolds(doc, b, name, v) {
      FuelToGuardRef(doc, n, b, name, v);
    }
    forall name, w | Size(w) < Size(v) && NameHolds(doc, Fuel(n), name, w)
      ensures NameHolds(doc, Guard({}), name, w)
    {
      FuelToGuardRef(doc, n, Guard({}), name, w);
    }
    Lift(doc, Fuel(n), b, p, v);
  }

  lemma {:induction false} FuelToGuardRef(doc: Document, n: nat, b: Budget, name: string, v: Value)
    requires b.Guard? && OneOfFreeDocument(doc)
    requires Blocked(doc, n, b.names, v) && NameHolds(doc, Fuel(n), name, v)
    ensures NameHolds(doc, b, name, v)
    decreases Size(v), Room(Names(doc), b), 0
  {
    var m := FirstFuel(doc, n - 1, Target(doc, name).value, v);
    BlockedBelow(doc, n, m, b.names, name, v);
    FollowShrinks(Names(doc), b, name);
    FuelToGuard(doc, m, Follow(b, name), Target(doc, name).value, v);
  }

  lemma BlockedBelow(doc: Document, n: nat, m: nat, names: set<string>, name: string, v: Value)
    requires OneOfFreeDocument(doc) && Target(doc, name).Some? && m < n && Blocked(doc, n, names, v)
    requires m > 0 ==> !Holds(doc, Fuel(m - 1), Target(doc, name).value, v)
    ensures Blocked(doc, m, names + {name}, v)
  {
    forall g | g in names && m > 0 && Target(doc, g).Some?
      ensures !Holds(doc, Fuel(m - 1), Target(doc, g).value, v)
    {
      if Holds(doc, Fuel(m - 1), Target(doc, g).value, v) {
        FuelGrows(doc, m - 1, n - 1, Target(doc, g).value, v);
      }
    }
  }

  /** The guarded evaluator accepts exactly what some finite unrolling accepts. */
  lemma GuardIsFiniteUnrolling(doc: Document, p: Plan, v: Value)
    requires OneOfFreeDocument(doc) && OneOfFree(p)
    ensures Holds(doc, Guard({}), p, v) <==> exists n: nat :: Holds(doc, Fuel(n), p, v)
  {
    if Holds(doc, Guard({}), p, v) {
      GuardToFuel(doc, Guard({}), Enough(doc, Guard({}), v), p, v);
    }
    if n: nat :| Holds(doc, Fuel(n), p, v) {
      FuelToGuard(doc, n, Guard({}), p, v);
    }
  }

  // ----- Least fixed point -----

  /** What the evaluator says of every name, as an interpretation of the names. */
  ghost function Verdicts(doc: Document): Budget {
    Oracle((name: string, w: Value) =>
      Target(doc, name).Some? && Holds(doc, Guard({}), Target(doc, name).value, w))
  }

  /** An interpretation that satisfies every definition it is asked to satisfy. */
  ghost predicate ClosedUnder(doc: Document, b: Budget) {
    b.Oracle? && forall name, w :: Target(doc, name).Some? && Holds(doc, b, Target(doc, name).value, w) ==>
                                     b.meets(name, w)
  }

  lemma {:induction false} FuelBelowClosed(doc: Document, n: nat, b: Budget, p: Plan, v: Value)
    requires OneOfFreeDocument(doc) && OneOfFree(p) && ClosedUnder(doc, b) && Holds(doc, Fuel(n), p, v)
    ensures Holds(doc, b, p, v)
    decreases n
  {
    forall name, w | NameHolds(doc, Fuel(n), name, w) ensures NameHolds(doc, b, name, w) {
      FuelBelowClosed(doc, n - 1, b, Target(doc, name).value, w);
    }
    Lift(doc, Fuel(n), b, p, v);
  }

  lemma VerdictsToGuard(doc: Document, p: Plan, v: Value)
    requires OneOfFreeDocument(doc) && OneOfFree(p) && Holds(doc, Verdicts(doc), p, v)
    ensures Holds(doc, Guard({}), p, v)
  {
    var n := 1 + Enough(doc, Guard({}), v);
    forall name, w | Size(w) <= Size(v) && NameHolds(doc, Verdicts(doc), name, w)
      ensures NameHolds(doc, Fuel(n), name, w)
    {
      if Size(w) < Size(v) {
        EnoughInside(doc, Guard({}), v, w);
      }
      GuardToFuel(doc, Guard({}), n - 1, Target(doc, name).value, w);
    }
    Lift(doc, Verdicts(doc), Fuel(n), p, v);
    FuelToGuard(doc, n, Guard({}), p, v);
  }

  lemma GuardToVerdicts(doc: Document, p: Plan, v: Value)
    requires OneOfFreeDocument(doc) && OneOfFree(p) && Holds(doc, Guard({}), p, v)
    ensures Holds(doc, Verdicts(doc), p, v)
  {
    var n := Enough(doc, Guard({}), v);
    GuardToFuel(doc, Guard({}), n, p, v);
    forall name, w | NameHolds(doc, Fuel(n), name, w) ensures NameHolds(doc, Verdicts(doc), name, w) {
      FuelToGuard(doc, n - 1, Guard({}), Target(doc, name).value, w);
    }
    Lift(doc, Fuel(n), Verdicts(doc), p, v);
  }

  /** The verdicts satisfy the recursive definitions: unrolling every reference once more,
      with no guard in force, changes nothing. */
  lemma VerdictsAreFixedPoint(doc: Document, p: Plan, v: Value)
    requires OneOfFreeDocument(doc) && OneOfFree(p)
    ensures Holds(doc, Verdicts(doc), p, v) <==> Holds(doc, Guard({}), p, v)
  {
    if Holds(doc, Verdicts(doc), p, v) {
      VerdictsToGuard(doc, p, v);
    }
    if Holds(doc, Guard({}), p, v) {
      GuardToVerdicts(doc, p, v);
    }
  }

  /** They are the least such interpretation: any closed one accepts whatever they accept. */
  lemma VerdictsAreLeast(doc: Document, b: Budget, p: Plan, v: Value)
    requires OneOfFreeDocument(doc) && OneOfFree(p) && ClosedUnder(doc, b)
    requires Holds(doc, Guard({}), p, v)
    ensures Holds(doc, b, p, v)
  {
    var n := Enough(doc, Guard({}), v);
    GuardToFuel(doc, Guard({}), n, p, v);
    FuelBelowClosed(doc, n, b, p, v);
  }
}
