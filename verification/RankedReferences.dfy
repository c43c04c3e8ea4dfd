/** Documents in which no chain of references returns to a name on the same value. For them the
    reference guard never refuses, and unrolling the definitions far enough, with no guard, gives the
    same verdict, `oneOf` included. */
module RankedReferences {
  import opened Json
  import opened ValidationPlan
  import opened LeastFixedPoint

  /** Every definition that the plan asks for on the value itself has a rank below the bound. */
  ghost predicate AsksBelow(doc: Document, rank: string -> nat, bound: nat, p: Plan) {
    match p
    case Fixed(_) => true
    case Node(_, kind) => KindAsksBelow(doc, rank, bound, kind)
  }

  ghost predicate KindAsksBelow(doc: Document, rank: string -> nat, bound: nat, k: Kind) {
    match k
    case Union(branches, _) => AllAskBelow(doc, rank, bound, branches)
    case Intersection(allOf) => AllAskBelow(doc, rank, bound, allOf)
    case Ref(reference) =>
      var name := NormalizeReference(doc.host, reference);
      Target(doc, name).Some? ==> rank(name) < bound
    case _ => true
  }

  ghost predicate AllAskBelow(doc: Document, rank: string -> nat, bound: nat, plans: seq<Plan>) {
    forall i :: 0 <= i < |plans| ==> AsksBelow(doc, rank, bound, plans[i])
  }

  /** Each definition asks for definitions of lower rank only. */
  ghost predicate Ranked(doc: Document, rank: string -> nat, top: nat) {
    forall name :: Target(doc, name).Some? ==>
                     rank(name) < top && AsksBelow(doc, rank, rank(name), Target(doc, name).value)
  }

  lemma {:induction false} AsksTop(doc: Document, rank: string -> nat, top: nat, p: Plan)
    requires Ranked(doc, rank, top)
    ensures AsksBelow(doc, rank, top, p)
  {
    if p.Node? && (p.kind.Union? || p.kind.Intersection?) {
      var plans := if p.kind.Union? then p.kind.branches else p.kind.allOf;
      forall i | 0 <= i < |plans| ensures AsksBelow(doc, rank, top, plans[i]) {
        AsksTop(doc, rank, top, plans[i]);
      }
    }
  }

  /** The guard holds no name of a rank below the bound. */
  predicate GuardsAbove(b: Budget, rank: string -> nat, bound: nat) {
    b.Guard? && forall name :: name in b.names ==> bound <= rank(name)
  }

  /** References enough for every path. */
  function Reach(bound: nat, top: nat, v: Value): nat {
    bound + Span(Size(v), top)
  }

  lemma {:induction false} Agree(doc: Document, rank: string -> nat, top: nat, bound: nat, b: Budget, n: nat, p: Plan,
                                 v: Value)
    requires Ranked(doc, rank, top) && GuardsAbove(b, rank, bound) && AsksBelow(doc, rank, bound, p)
    requires Reach(bound, top, v) <= n
    ensures Holds(doc, b, p, v) <==> Holds(doc, Fuel(n), p, v)
    decreases Size(v), bound, 1, p
  {
    match p
    case Fixed(_) =>
    case Node(_, kind) => AgreeKind(doc, rank, top, bound, b, n, kind, v);
  }

  lemma {:induction false} AgreeKind(doc: Document, rank: string -> nat, top: nat, bound: nat, b: Budget, n: nat,
                                     k: Kind,
                                     v: Value)
    requires Ranked(doc, rank, top) && GuardsAbove(b, rank, bound) && KindAsksBelow(doc, rank, bound, k)
    requires Reach(bound, top, v) <= n
    ensures KindHolds(doc, b, k, v) <==> KindHolds(doc, Fuel(n), k, v)
    decreases Size(v), bound, 1, k
  {
    if k.ArrayKind? || k.TupleKind? {
      AgreeArray(doc, rank, top, bound, b, n, k, v);
    } else if k.ObjectKind? {
      AgreeObject(doc, rank, top, bound, b, n, k, v);
    } else if k.Union? || k.Intersection? {
      AgreeComposite(doc, rank, top, bound, b, n, k, v);
    } else if k.Ref? {
      AgreeReference(doc, rank, top, bound, b, n, NormalizeReference(doc.host, k.reference), v);
    }
  }

  lemma {:induction false} AgreeComposite(doc: Document, rank: string -> nat, top: nat, bound: nat, b: Budget, n: nat,
                                          k: Kind, v: Value)
    requires Ranked(doc, rank, top) && GuardsAbove(b, rank, bound) && KindAsksBelow(doc, rank, bound, k)
    requires Reach(bound, top, v) <= n && (k.Union? || k.Intersection?)
    ensures KindHolds(doc, b, k, v) <==> KindHolds(doc, Fuel(n), k, v)
    decreases Size(v), bound, 1, k, 0
  {
    var plans := if k.Union? then k.branches else k.allOf;
    forall i | 0 <= i < |plans| ensures Holds(doc, b, plans[i], v) <==> Holds(doc, Fuel(n), plans[i], v) {
      Agree(doc, rank, top, bound, b, n, plans[i], v);
    }
    forall i | 0 <= i < |plans| ensures OnlyHolds(doc, b, plans, i, v) <==> OnlyHolds(doc, Fuel(n), plans, i, v) {
    }
  }

  lemma {:induction false} AgreeReference(doc: Document, rank: string -> nat, top: nat, bound: nat, b: Budget, n: nat,
                                          name: string, v: Value)
    requires Ranked(doc, rank, top) && GuardsAbove(b, rank, bound)
    requires Reach(bound, top, v) <= n && (Target(doc, name).Some? ==> rank(name) < bound)
    ensures NameHolds(doc, b, name, v) <==> NameHolds(doc, Fuel(n), name, v)
    decreases Size(v), bound, 0
  {
    if Target(doc, name).Some? {
      Followed(doc, b, name, v);
      Followed(doc, Fuel(n), name, v);
      Agree(doc, rank, top, rank(name), Follow(b, name), n - 1, Target(doc, name).value, v);
    }
  }

  lemma Followed(doc: Document, b: Budget, name: string, v: Value)
    requires Target(doc, name).Some? && CanFollow(b, name)
    ensures NameHolds(doc, b, name, v) <==> Holds(doc, Follow(b, name), Target(doc, name).value, v)
  {
    FollowShrinks(Names(doc), b, name);
  }

  /** On a nested value the guard starts afresh. */
  lemma {:induction false} AgreeInside(doc: Document, rank: string -> nat, top: nat, bound: nat, n: nat, p: Plan,
                                       v: Value,
                                       w: Value)
    requires Ranked(doc, rank, top) && Reach(bound, top, v) <= n && Size(w) < Size(v)
    ensures Holds(doc, Guard({}), p, w) <==> Holds(doc, Fuel(n), p, w)
    decreases Size(v), bound, 0, 0
  {
    AsksTop(doc, rank, top, p);
    SpanGrows(Size(w), Size(v), top);
    Agree(doc, rank, top, top, Guard({}), n, p, w);
  }

  lemma {:induction false} AgreeArray(doc: Document, rank: string -> nat, top: nat, bound: nat, b: Budget, n: nat,
                                      k: Kind,
                                      v: Value)
    requires Ranked(doc, rank, top) && b.Guard? && Reach(bound, top, v) <= n && (k.ArrayKind? || k.TupleKind?)
    ensures KindHolds(doc, b, k, v) <==> KindHolds(doc, Fuel(n), k, v)
    decreases Size(v), bound, 0
  {
    if v.Arr? {
      var prefix, rest := if k.ArrayKind? then k.prefixItems else k.members, if k.ArrayKind? then k.items else k.rest;
      forall i | 0 <= i < |v.items|
        ensures i < |prefix| ==>
                  (Holds(doc, Guard({}), prefix[i], v.items[i]) <==> Holds(doc, Fuel(n), prefix[i], v.items[i]))
        ensures rest.Some? ==>
                  (Holds(doc, Guard({}), rest.value, v.items[i]) <==> Holds(doc, Fuel(n), rest.value, v.items[i]))
      {
        if i < |prefix| {
          AgreeInside(doc, rank, top, bound, n, prefix[i], v, v.items[i]);
        }
        if rest.Some? {
          AgreeInside(doc, rank, top, bound, n, rest.value, v, v.items[i]);
        }
      }
    }
  }

  lemma {:induction false} AgreeObject(doc: Document, rank: string -> nat, top: nat, bound: nat, b: Budget, n: nat,
                                       k: Kind,
                                       v: Value)
    requires Ranked(doc, rank, top) && b.Guard? && Reach(bound, top, v) <= n && k.ObjectKind?
    ensures KindHolds(doc, b, k, v) <==> KindHolds(doc, Fuel(n), k, v)
    decreases Size(v), bound, 0
  {
    if v.Obj? {
      forall i | 0 <= i < |k.properties| && Has(v.fields, k.properties[i].name)
        ensures var child := v.fields[IndexOf(v.fields, k.properties[i].name)].value;
                Holds(doc, Guard({}), k.properties[i].plan, child) <==> Holds(doc, Fuel(n), k.properties[i].plan, child)
      {
        var child := v.fields[IndexOf(v.fields, k.properties[i].name)].value;
        AgreeInside(doc, rank, top, bound, n, k.properties[i].plan, v, child);
      }
      if k.additional.Some? {
        forall i | 0 <= i < |v.fields|
          ensures Holds(doc, Guard({}), k.additional.value, v.fields[i].value)
                  <==> Holds(doc, Fuel(n), k.additional.value, v.fields[i].value)
        {
          AgreeInside(doc, rank, top, bound, n, k.additional.value, v, v.fields[i].value);
        }
      }
    }
  }

  /** The evaluator's verdict is that of every unrolling that is long enough. */
  lemma GuardIsLongUnrolling(doc: Document, rank: string -> nat, top: nat, p: Plan, v: Value, n: nat)
    requires Ranked(doc, rank, top) && Reach(top, top, v) <= n
    ensures Holds(doc, Guard({}), p, v) <==> Holds(doc, Fuel(n), p, v)
  {
    AsksTop(doc, rank, top, p);
    Agree(doc, rank, top, top, Guard({}), n, p, v);
  }

  // ----- Why the rank is needed -----

  /** Exactly one of itself and `true`. */
  function Liar(host: Host): Document {
    Document(Node(false, Union([Node(false, Ref("#")), Fixed(true)], true)), map[], host)
  }

  lemma OneOfTwo(doc: Document, b: Budget, branches: seq<Plan>, v: Value)
    requires |branches| == 2
    ensures KindHolds(doc, b, Union(branches, true), v) <==>
            (Holds(doc, b, branches[0], v) <==> !Holds(doc, b, branches[1], v))
  {
    assert OnlyHolds(doc, b, branches, 0, v) <==> Holds(doc, b, branches[0], v) && !Holds(doc, b, branches[1], v);
    assert OnlyHolds(doc, b, branches, 1, v) <==> Holds(doc, b, branches[1], v) && !Holds(doc, b, branches[0], v);
  }

  lemma LiarStep(host: Host, b: Budget, v: Value)
    ensures Holds(Liar(host), b, Liar(host).root, v) <==> !NameHolds(Liar(host), b, "#", v)
  {
    var doc := Liar(host);
    OneOfTwo(doc, b, doc.root.kind.branches, v);
    assert NormalizeReference(host, "#") == "#";
  }

  /** The unrollings never settle: every other one accepts. */
  lemma {:induction false} LiarAlternates(host: Host, n: nat, v: Value)
    ensures Holds(Liar(host), Fuel(n), Liar(host).root, v) <==> n % 2 == 0
  {
    LiarStep(host, Fuel(n), v);
    if n > 0 {
      LiarAlternates(host, n - 1, v);
      Followed(Liar(host), Fuel(n), "#", v);
    }
  }

  /** And the guard, which refuses the second visit, rejects. */
  lemma LiarIsRejected(host: Host, v: Value)
    ensures !Holds(Liar(host), Guard({}), Liar(host).root, v)
  {
    LiarStep(host, Guard({}), v);
    LiarStep(host, Guard({"#"}), v);
    Followed(Liar(host), Guard({}), "#", v);
    assert Follow(Guard({}), "#") == Guard({"#"});
  }
}
