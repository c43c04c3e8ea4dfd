/** A compiled plan accepts exactly the instances that its schema accepts. */
module CompilerCorrectness {
  import opened Json
  import opened References
  import opened JsonSchema
  import opened ValidatorCompiler
  import P = ValidationPlan

  // ----- References that the evaluator cannot mistake for the root -----

  predicate HashFree(host: P.Host, s: Schema)
    decreases s
  {
    match s
    case Boolean(_) => true
    case Object(k) =>
      && (k.ref.Some? ==> !Mistaken(host, k.ref.value))
      && HashFreeAll(host, k.anyOf) && HashFreeAll(host, k.oneOf) && HashFreeAll(host, k.allOf)
      && HashFreeAll(host, k.prefixItems)
      && (k.items.Some? ==> HashFree(host, k.items.value))
      && (k.additional.Some? ==> HashFree(host, k.additional.value))
      && (k.properties.Properties? ==>
            forall i :: 0 <= i < |k.properties.members| ==> HashFree(host, k.properties.members[i].schema))
  }

  predicate HashFreeAll(host: P.Host, branches: Branches)
    decreases branches
  {
    branches.Branches? ==> forall i :: 0 <= i < |branches.list| ==> HashFree(host, branches.list[i])
  }

  predicate HashFreeContract(c: Contract) {
    HashFree(c.host, c.root) &&
    forall name :: name in c.definitions ==> HashFree(c.host, c.definitions[name])
  }

  /** A contract, the document compiled from it, and the compiler's context. */
  datatype Job = Job(c: Context, contract: Contract, doc: P.Document) {
    ghost predicate Done() {
      && c.names == contract.definitions.Keys == doc.definitions.Keys
      && c.host == contract.host == doc.host
      && HashFreeContract(contract)
      && CompileNode(c, contract.root) == Ok(doc.root)
      && forall name :: name in contract.definitions ==>
                          CompileNode(c, contract.definitions[name]) == Ok(doc.definitions[name])
    }
  }

  lemma JobDone(contract: Contract, portable: string -> bool) returns (job: Job)
    requires HashFreeContract(contract) && CompileDocument(contract, portable).Ok?
    ensures job.contract == contract && job.doc == CompileDocument(contract, portable).value
    ensures job.Done()
  {
    job := Job(Context(contract.definitions.Keys, contract.host, portable), contract,
               CompileDocument(contract, portable).value);
  }

  // ----- Conjunctions of parts -----

  ghost predicate AllHold(doc: P.Document, b: P.Budget, parts: seq<P.Plan>, v: Value) {
    forall i :: 0 <= i < |parts| ==> P.Holds(doc, b, parts[i], v)
  }

  ghost predicate AllNodes(parts: seq<P.Plan>) {
    forall i :: 0 <= i < |parts| ==> parts[i].Node?
  }

  lemma FinishMeans(doc: P.Document, b: P.Budget, nullable: bool, parts: seq<P.Plan>, v: Value)
    requires AllNodes(parts)
    ensures P.Holds(doc, b, Finish(nullable, Ok(parts)).value, v) <==>
            (nullable && v.Null?) || AllHold(doc, b, parts, v)
  {
    assert P.Holds(doc, b, Combine(parts), v) <==> AllHold(doc, b, parts, v);
  }

  lemma OnePart(doc: P.Document, b: P.Budget, kind: P.Kind, v: Value)
    ensures AllHold(doc, b, [P.Node(false, kind)], v) <==> P.KindHolds(doc, b, kind, v)
  {
    var part := P.Node(false, kind);
    assert AllHold(doc, b, [part], v) <==> P.Holds(doc, b, [part][0], v);
  }

  lemma AllHoldConcat(doc: P.Document, b: P.Budget, x: seq<P.Plan>, y: seq<P.Plan>, v: Value)
    ensures AllHold(doc, b, x + y, v) <==> AllHold(doc, b, x, v) && AllHold(doc, b, y, v)
  {
    if AllHold(doc, b, x + y, v) {
      forall i | 0 <= i < |x| ensures P.Holds(doc, b, x[i], v) {
        assert (x + y)[i] == x[i];
      }
      forall i | 0 <= i < |y| ensures P.Holds(doc, b, y[i], v) {
        assert (x + y)[|x| + i] == y[i];
      }
    }
  }

  /** The compiled parts are plan nodes and hold together exactly when `meaning` does. */
  ghost predicate PartsMean(job: Job, b: P.Budget, v: Value, parts: Outcome<seq<P.Plan>>, meaning: bool) {
    parts.Ok? ==> AllNodes(parts.value) && (AllHold(job.doc, b, parts.value, v) <==> meaning)
  }

  lemma JoinMeans(job: Job, b: P.Budget, v: Value,
      x: Outcome<seq<P.Plan>>, xs: bool, y: Outcome<seq<P.Plan>>, ys: bool)
    requires PartsMean(job, b, v, x, xs) && PartsMean(job, b, v, y, ys)
    ensures PartsMean(job, b, v, Join(x, y), xs && ys)
  {
    if x.Ok? && y.Ok? {
      AllHoldConcat(job.doc, b, x.value, y.value, v);
    }
  }

  // ----- Meaning is preserved -----

  /** The theorem: for every way of unrolling references, in particular for the evaluator's
      guard, for every finite approximation and for every outside interpretation of the names. */
  lemma {:induction false} CompilePreserves(job: Job, b: P.Budget, s: Schema, v: Value)
    requires job.Done() && HashFree(job.c.host, s) && CompileNode(job.c, s).Ok?
    ensures P.Holds(job.doc, b, CompileNode(job.c, s).value, v) <==> Valid(job.contract, b, s, v)
    decreases P.Level(b), v, P.Room(Names(job.contract), b), 1, s
  {
    match s
    case Boolean(_) =>
    case Object(k) =>
      var parts := CompileParts(job.c, k);
      PartsPreserved(job, b, k, v);
      FinishMeans(job.doc, b, k.nullable, parts.value, v);
  }

  ghost predicate Meaning(c: Contract, b: P.Budget, k: Keywords, v: Value) {
    Assertions(c, k, v) && Applicators(c, b, k, v) && Members(c, b, k, v)
  }

  lemma {:induction false} PartsPreserved(job: Job, b: P.Budget, k: Keywords, v: Value)
    requires job.Done() && HashFree(job.c.host, Object(k)) && CompileParts(job.c, k).Ok?
    ensures AllNodes(CompileParts(job.c, k).value)
    ensures !(k.nullable && v.Null?) ==>
              (AllHold(job.doc, b, CompileParts(job.c, k).value, v) <==> Meaning(job.contract, b, k, v))
    decreases P.Level(b), v, P.Room(Names(job.contract), b), 1, k, 4
  {
    var ref := k.ref.Some? ==> Referenced(job.contract, b, Resolve(job.contract.host, k.ref.value), v);
    var values := ValuesHold(k, v);
    var applied := BranchesHold(job.contract, b, k, v);
    var typed := (k.nullable && v.Null?) || TypesHold(job.contract, b, k, v);
    ReferencePreserved(job, b, k, v);
    ValuesPreserved(job, b, k, v);
    JoinMeans(job, b, v, CompileReference(job.c, k), ref, CompileValues(k), values);
    ApplicatorsPreserved(job, b, k, v);
    TypePartPreserved(job, b, k, v);
    JoinMeans(job, b, v, CompileApplicators(job.c, k), applied, CompileTypePart(job.c, k), typed);
    JoinMeans(job, b, v, Join(CompileReference(job.c, k), CompileValues(k)), ref && values,
              Join(CompileApplicators(job.c, k), CompileTypePart(job.c, k)), applied && typed);
  }

  ghost predicate ValuesHold(k: Keywords, v: Value) {
    (k.constant.Some? ==> v == k.constant.value) && (k.enumeration.Some? ==> v in k.enumeration.value)
  }

  ghost predicate BranchesHold(c: Contract, b: P.Budget, k: Keywords, v: Value) {
    SomeValid(c, b, k.anyOf, v) && OneValid(c, b, k.oneOf, v) && EveryValid(c, b, k.allOf, v)
  }

  /** The verdict of `type` and of the keywords that depend on it. */
  ghost predicate TypesHold(c: Contract, b: P.Budget, k: Keywords, v: Value) {
    (k.types != [] ==> HasType(k.types, v)) && TypedHold(c, b, k, v)
  }

  ghost predicate TypedHold(c: Contract, b: P.Budget, k: Keywords, v: Value) {
    && (v.Str? ==> P.InStringLimits(c.host, k.text, v.s))
    && (v.Num? ==> P.InRange(c.host, k.number, v.n))
    && (v.Arr? ==> P.AtLeast(k.minItems, |v.items|) && P.AtMost(k.maxItems, |v.items|))
    && (v.Obj? ==> forall i :: 0 <= i < |Required(k)| ==> Has(v.fields, Required(k)[i]))
    && Members(c, b, k, v)
  }

  lemma {:induction false} ReferencePreserved(job: Job, b: P.Budget, k: Keywords, v: Value)
    requires job.Done() && HashFree(job.c.host, Object(k))
    ensures PartsMean(job, b, v, CompileReference(job.c, k),
                      k.ref.Some? ==> Referenced(job.contract, b, Resolve(job.contract.host, k.ref.value), v))
    decreases P.Level(b), v, P.Room(Names(job.contract), b), 0, 1
  {
    if k.ref.Some? && CompileReference(job.c, k).Ok? {
      LookupIsExact(job.doc.host, k.ref.value);
      OnePart(job.doc, b, P.Ref(k.ref.value), v);
      NamePreserved(job, b, P.NormalizeReference(job.doc.host, k.ref.value), v);
    }
  }

  function Pointed(name: string): Pointer {
    if name == "#" then Root else Definition(name)
  }

  lemma {:induction false} NamePreserved(job: Job, b: P.Budget, name: string, v: Value)
    requires job.Done()
    ensures P.NameHolds(job.doc, b, name, v) <==> Referenced(job.contract, b, Pointed(name), v)
    decreases P.Level(b), v, P.Room(Names(job.contract), b), 0, 0
  {
    if P.Target(job.doc, name).Some? && !b.Oracle? && P.CanFollow(b, name) {
      var target := if name == "#" then job.contract.root else job.contract.definitions[name];
      P.FollowShrinks(Names(job.contract), b, name);
      CompilePreserves(job, P.Follow(b, name), target, v);
    }
  }

  lemma ValuesPreserved(job: Job, b: P.Budget, k: Keywords, v: Value)
    ensures PartsMean(job, b, v, CompileValues(k), ValuesHold(k, v))
  {
    if CompileValues(k).Ok? {
      var literal := if k.constant.Some? then [P.Node(false, P.Literal(k.constant.value))] else [];
      var enums := if k.enumeration.Some? then [P.Node(false, P.Enum(k.enumeration.value))] else [];
      if k.constant.Some? {
        OnePart(job.doc, b, P.Literal(k.constant.value), v);
      }
      if k.enumeration.Some? {
        OnePart(job.doc, b, P.Enum(k.enumeration.value), v);
      }
      AllHoldConcat(job.doc, b, literal, enums, v);
    }
  }

  ghost predicate Agree(job: Job, b: P.Budget, schemas: seq<Schema>, plans: seq<P.Plan>, v: Value) {
    |plans| == |schemas| &&
    forall i :: 0 <= i < |schemas| ==>
                  (P.Holds(job.doc, b, plans[i], v) <==> Valid(job.contract, b, schemas[i], v))
  }

  lemma {:induction false} BranchesPreserved(job: Job, b: P.Budget, branches: Branches, v: Value)
    requires job.Done() && HashFreeAll(job.c.host, branches) && CompileBranches(job.c, branches).Ok?
    ensures Agree(job, b, List(branches), CompileBranches(job.c, branches).value, v)
    decreases P.Level(b), v, P.Room(Names(job.contract), b), 1, branches
  {
    if branches.Branches? {
      var plans := CompileBranches(job.c, branches).value;
      forall i | 0 <= i < |branches.list|
        ensures P.Holds(job.doc, b, plans[i], v) <==> Valid(job.contract, b, branches.list[i], v)
      {
        CompilePreserves(job, b, branches.list[i], v);
      }
    }
  }

  lemma SomeAgrees(job: Job, b: P.Budget, branches: Branches, v: Value)
    requires CompileBranches(job.c, branches).Ok? ==>
               Agree(job, b, List(branches), CompileBranches(job.c, branches).value, v)
    ensures PartsMean(job, b, v, UnionPart(branches, CompileBranches(job.c, branches), false),
                      SomeValid(job.contract, b, branches, v))
  {
    if branches.Branches? && CompileBranches(job.c, branches).Ok? {
      var plans := CompileBranches(job.c, branches).value;
      OnePart(job.doc, b, P.Union(plans, false), v);
    }
  }

  lemma OneAgrees(job: Job, b: P.Budget, branches: Branches, v: Value)
    requires CompileBranches(job.c, branches).Ok? ==>
               Agree(job, b, List(branches), CompileBranches(job.c, branches).value, v)
    ensures PartsMean(job, b, v, UnionPart(branches, CompileBranches(job.c, branches), true),
                      OneValid(job.contract, b, branches, v))
  {
    if branches.Branches? && CompileBranches(job.c, branches).Ok? {
      var plans := CompileBranches(job.c, branches).value;
      OnePart(job.doc, b, P.Union(plans, true), v);
      OnlyOne(job, b, branches.list, plans, v);
    }
  }

  lemma OnlyOne(job: Job, b: P.Budget, schemas: seq<Schema>, plans: seq<P.Plan>, v: Value)
    requires Agree(job, b, schemas, plans, v)
    ensures P.KindHolds(job.doc, b, P.Union(plans, true), v) <==>
            OneValid(job.contract, b, Branches.Branches(schemas), v)
  {
    forall i: nat | i < |plans|
      ensures P.OnlyHolds(job.doc, b, plans, i, v) <==> OnlyValid(job.contract, b, schemas, i, v)
    {
      OnlyAgrees(job, b, schemas, plans, i, v);
    }
  }

  lemma OnlyAgrees(job: Job, b: P.Budget, schemas: seq<Schema>, plans: seq<P.Plan>, i: nat, v: Value)
    requires Agree(job, b, schemas, plans, v) && i < |plans|
    ensures P.OnlyHolds(job.doc, b, plans, i, v) <==> OnlyValid(job.contract, b, schemas, i, v)
  {
  }

  lemma EveryAgrees(job: Job, b: P.Budget, branches: Branches, v: Value)
    requires CompileBranches(job.c, branches).Ok? ==>
               Agree(job, b, List(branches), CompileBranches(job.c, branches).value, v)
    ensures PartsMean(job, b, v, AllOfPart(branches, CompileBranches(job.c, branches)),
                      EveryValid(job.contract, b, branches, v))
  {
    if branches.Branches? && CompileBranches(job.c, branches).Ok? {
      var plans := CompileBranches(job.c, branches).value;
      OnePart(job.doc, b, P.Intersection(plans), v);
    }
  }

  lemma {:induction false} ApplicatorsPreserved(job: Job, b: P.Budget, k: Keywords, v: Value)
    requires job.Done() && HashFree(job.c.host, Object(k)) && CompileApplicators(job.c, k).Ok?
    ensures PartsMean(job, b, v, CompileApplicators(job.c, k), BranchesHold(job.contract, b, k, v))
    decreases P.Level(b), v, P.Room(Names(job.contract), b), 1, k, 3
  {
    var x := UnionPart(k.anyOf, CompileBranches(job.c, k.anyOf), false);
    var y := UnionPart(k.oneOf, CompileBranches(job.c, k.oneOf), true);
    var z := AllOfPart(k.allOf, CompileBranches(job.c, k.allOf));
    BranchesPreserved(job, b, k.anyOf, v);
    SomeAgrees(job, b, k.anyOf, v);
    BranchesPreserved(job, b, k.oneOf, v);
    OneAgrees(job, b, k.oneOf, v);
    BranchesPreserved(job, b, k.allOf, v);
    EveryAgrees(job, b, k.allOf, v);
    JoinMeans(job, b, v, x, SomeValid(job.contract, b, k.anyOf, v), y, OneValid(job.contract, b, k.oneOf, v));
    JoinMeans(job, b, v, Join(x, y), SomeValid(job.contract, b, k.anyOf, v) && OneValid(job.contract, b, k.oneOf, v),
              z, EveryValid(job.contract, b, k.allOf, v));
  }

  lemma {:induction false} TypePartPreserved(job: Job, b: P.Budget, k: Keywords, v: Value)
    requires job.Done() && HashFree(job.c.host, Object(k)) && CompileTypePart(job.c, k).Ok?
    ensures PartsMean(job, b, v, CompileTypePart(job.c, k),
                      (k.nullable && v.Null?) || TypesHold(job.contract, b, k, v))
    decreases P.Level(b), v, P.Room(Names(job.contract), b), 1, k, 3
  {
    if k.types != [] {
      var types := CompileTypes(job.c, k, k.types).value;
      forall i | 0 <= i < |types|
        ensures P.Holds(job.doc, b, types[i], v) <==>
                (k.nullable && v.Null?) || (HasType([k.types[i]], v) && TypedHold(job.contract, b, k, v))
      {
        if !(k.nullable && v.Null?) {
          TypePreserved(job, b, k, k.types[i], v);
        }
      }
      SomeType(job, b, k, types, v);
    }
  }

  lemma SomeType(job: Job, b: P.Budget, k: Keywords, types: seq<P.Plan>, v: Value)
    requires |types| == |k.types| > 0 && AllNodes(types)
    requires forall i :: 0 <= i < |types| ==>
               (P.Holds(job.doc, b, types[i], v) <==>
                (k.nullable && v.Null?) || (HasType([k.types[i]], v) && TypedHold(job.contract, b, k, v)))
    ensures PartsMean(job, b, v, TypePart(Ok(types)), (k.nullable && v.Null?) || TypesHold(job.contract, b, k, v))
  {
    HasSomeType(k.types, v);
    if |types| == 1 {
      assert k.types == [k.types[0]];
    } else {
      OnePart(job.doc, b, P.Union(types, false), v);
      assert P.KindHolds(job.doc, b, P.Union(types, false), v) <==>
             exists i :: 0 <= i < |types| && P.Holds(job.doc, b, types[i], v);
      assert k.nullable && v.Null? ==> P.Holds(job.doc, b, types[0], v);
    }
  }

  lemma HasSomeType(types: seq<string>, v: Value)
    ensures HasType(types, v) <==> exists i :: 0 <= i < |types| && HasType([types[i]], v)
  {
    if HasType(types, v) {
      var name := match v
        case Null => "null"
        case Bool(_) => "boolean"
        case Num(_) => if "number" in types then "number" else "integer"
        case Str(_) => "string"
        case Arr(_) => "array"
        case Obj(_) => "object";
      var i :| 0 <= i < |types| && types[i] == name;
      assert HasType([types[i]], v);
    }
  }

  lemma {:induction false} TypePreserved(job: Job, b: P.Budget, k: Keywords, name: string, v: Value)
    requires job.Done() && HashFree(job.c.host, Object(k)) && CompileType(job.c, k, name).Ok?
    requires !(k.nullable && v.Null?)
    ensures P.Holds(job.doc, b, CompileType(job.c, k, name).value, v) <==>
            HasType([name], v) && TypedHold(job.contract, b, k, v)
    decreases P.Level(b), v, P.Room(Names(job.contract), b), 1, k, 1
  {
    if name == "array" {
      if v.Arr? {
        ArrayPreserved(job, b, k, v);
      }
    } else if name == "object" {
      if v.Obj? {
        ObjectPreserved(job, b, k, v);
      }
    } else {
      ScalarPreserved(job, b, k, name, v);
    }
  }

  lemma ScalarPreserved(job: Job, b: P.Budget, k: Keywords, name: string, v: Value)
    requires job.Done() && CompileType(job.c, k, name).Ok? && name != "array" && name != "object"
    requires !(k.nullable && v.Null?)
    ensures P.Holds(job.doc, b, CompileType(job.c, k, name).value, v) <==>
            HasType([name], v) && TypedHold(job.contract, b, k, v)
  {
    assert !IsContainer(v) ==> Members(job.contract, b, k, v);
  }

  lemma {:induction false} ArrayPreserved(job: Job, b: P.Budget, k: Keywords, v: Value)
    requires job.Done() && HashFree(job.c.host, Object(k)) && CompileArray(job.c, k).Ok? && v.Arr?
    ensures P.Holds(job.doc, b, CompileArray(job.c, k).value, v) <==> TypedHold(job.contract, b, k, v)
    decreases P.Level(b), v, P.Room(Names(job.contract), b), 1, k, 0
  {
    var kind := CompileArray(job.c, k).value.kind;
    forall i | 0 <= i < |v.items|
      ensures i < |kind.prefixItems| ==>
                (P.Holds(job.doc, P.Descend(b), kind.prefixItems[i], v.items[i]) <==>
                 Valid(job.contract, P.Descend(b), List(k.prefixItems)[i], v.items[i]))
      ensures kind.items.Some? ==>
                (P.Holds(job.doc, P.Descend(b), kind.items.value, v.items[i]) <==>
                 Valid(job.contract, P.Descend(b), k.items.value, v.items[i]))
    {
      if i < |kind.prefixItems| {
        CompilePreserves(job, P.Descend(b), List(k.prefixItems)[i], v.items[i]);
      }
      if kind.items.Some? {
        CompilePreserves(job, P.Descend(b), k.items.value, v.items[i]);
      }
    }
  }

  lemma {:induction false} ObjectPreserved(job: Job, b: P.Budget, k: Keywords, v: Value)
    requires job.Done() && HashFree(job.c.host, Object(k)) && CompileObject(job.c, k).Ok? && v.Obj?
    ensures P.Holds(job.doc, b, CompileObject(job.c, k).value, v) <==> TypedHold(job.contract, b, k, v)
    decreases P.Level(b), v, P.Room(Names(job.contract), b), 1, k, 0
  {
    var kind := CompileObject(job.c, k).value.kind;
    var members := MemberList(k.properties);
    forall i | 0 <= i < |members| && Has(v.fields, members[i].name)
      ensures var child := v.fields[IndexOf(v.fields, members[i].name)].value;
              P.Holds(job.doc, P.Descend(b), kind.properties[i].plan, child) <==>
              Valid(job.contract, P.Descend(b), members[i].schema, child)
    {
      CompilePreserves(job, P.Descend(b), members[i].schema, v.fields[IndexOf(v.fields, members[i].name)].value);
    }
    forall i | 0 <= i < |v.fields| && kind.additional.Some?
      ensures P.Holds(job.doc, P.Descend(b), kind.additional.value, v.fields[i].value) <==>
              Valid(job.contract, P.Descend(b), k.additional.value, v.fields[i].value)
    {
      CompilePreserves(job, P.Descend(b), k.additional.value, v.fields[i].value);
    }
    ObjectAgrees(job, b, k, kind, v);
  }

  lemma ObjectAgrees(job: Job, b: P.Budget, k: Keywords, kind: P.Kind, v: Value)
    requires kind.ObjectKind? && v.Obj? && kind.required == Required(k)
    requires |kind.properties| == |MemberList(k.properties)| && (kind.additional.Some? <==> k.additional.Some?)
    requires forall i :: 0 <= i < |kind.properties| ==> kind.properties[i].name == MemberList(k.properties)[i].name
    requires forall i :: 0 <= i < |kind.properties| && Has(v.fields, kind.properties[i].name) ==>
               var child := v.fields[IndexOf(v.fields, kind.properties[i].name)].value;
               (P.Holds(job.doc, P.Descend(b), kind.properties[i].plan, child) <==>
                Valid(job.contract, P.Descend(b), MemberList(k.properties)[i].schema, child))
    requires k.additional.Some? ==>
               forall i :: 0 <= i < |v.fields| ==>
                 (P.Holds(job.doc, P.Descend(b), kind.additional.value, v.fields[i].value)
                  <==> Valid(job.contract, P.Descend(b), k.additional.value, v.fields[i].value))
    ensures P.KindHolds(job.doc, b, kind, v) <==> TypedHold(job.contract, b, k, v)
  {
    forall key: string ensures P.Declares(kind.properties, key) <==> Declares(MemberList(k.properties), key) {
      DeclaresSame(kind.properties, MemberList(k.properties), key);
    }
  }

  lemma DeclaresSame(properties: seq<P.Property>, members: seq<Member>, key: string)
    requires |properties| == |members|
    requires forall i :: 0 <= i < |members| ==> properties[i].name == members[i].name
    ensures P.Declares(properties, key) <==> Declares(members, key)
  {
    if j :| 0 <= j < |members| && members[j].name == key {
      assert properties[j].name == key;
    }
  }

  /** The whole document: what the evaluator accepts is what the contract accepts. */
  lemma ContractPreserved(contract: Contract, portable: string -> bool, b: P.Budget, v: Value)
    requires HashFreeContract(contract) && CompileDocument(contract, portable).Ok?
    ensures var doc := CompileDocument(contract, portable).value;
            P.Holds(doc, b, doc.root, v) <==> Valid(contract, b, contract.root, v)
  {
    var job := JobDone(contract, portable);
    CompilePreserves(job, b, contract.root, v);
  }

  // ----- A definition called `#` -----

  const NoKeywords := Keywords(
    None, None, None, NoBranches, NoBranches, NoBranches, [], false,
    P.StringLimits(None, None, None, None), P.NumberRange(None, None, None, None, None),
    None, NoBranches, None, None, NoProperties, None, None)

  /** The root refers by `r` to a definition that accepts everything and whose name is `#`. */
  function HashContract(host: P.Host, r: string): Contract {
    Contract(Object(NoKeywords.(ref := Some(r))), map["#" := Boolean(true)], host)
  }

  function HashDocument(host: P.Host, r: string): P.Document {
    P.Document(P.Node(false, P.Ref(r)), map["#" := P.Fixed(true)], host)
  }

  /** A schema with a reference and no other keyword compiles to that reference. */
  lemma ReferenceAlone(c: Context, r: string)
    requires DecodeReference(c.host, r) == Some("#") && "#" in c.names
    ensures CompileNode(c, Object(NoKeywords.(ref := Some(r)))) == Ok(P.Node(false, P.Ref(r)))
  {
    var k := NoKeywords.(ref := Some(r));
    var plan := P.Node(false, P.Ref(r));
    assert CompileReference(c, k) == Ok([plan]);
    assert CompileValues(k).value == [];
    assert CompileBranches(c, NoBranches) == Ok([]);
    assert CompileApplicators(c, k) == Join(Join(Ok([]), Ok([])), Ok([])) == Ok([]);
    assert !TypedKeyword(k) && CompileTypePart(c, k) == Ok([]);
    assert CompileParts(c, k) == Join(Join(Ok([plan]), Ok([])), Join(Ok([]), Ok([])));
    assert CompileParts(c, k).value == [plan];
  }

  lemma HashCompiles(host: P.Host, r: string, portable: string -> bool)
    requires Mistaken(host, r)
    ensures CompileDocument(HashContract(host, r), portable) == Ok(HashDocument(host, r))
  {
    var contract := HashContract(host, r);
    var c := Context(contract.definitions.Keys, host, portable);
    ReferenceAlone(c, r);
    assert CompileNode(c, contract.root) == Ok(HashDocument(host, r).root);
    assert CompileNode(c, contract.definitions["#"]) == Ok(P.Fixed(true));
    assert CompileDocument(contract, portable).value.definitions == HashDocument(host, r).definitions;
  }

  lemma HashRejected(host: P.Host, r: string, v: Value)
    requires Mistaken(host, r)
    ensures !P.Holds(HashDocument(host, r), P.Guard({}), HashDocument(host, r).root, v)
  {
    LookupIsExact(host, r);
    var doc := HashDocument(host, r);
    assert !P.NameHolds(doc, P.Guard({"#"}), "#", v);
    assert !P.KindHolds(doc, P.Guard({"#"}), P.Ref(r), v);
    assert P.Follow(P.Guard({}), "#") == P.Guard({"#"});
    assert !P.NameHolds(doc, P.Guard({}), "#", v);
  }

  lemma HashAccepted(host: P.Host, r: string, v: Value)
    requires Mistaken(host, r)
    ensures Valid(HashContract(host, r), P.Guard({}), HashContract(host, r).root, v)
  {
    LookupIsExact(host, r);
    var c := HashContract(host, r);
    var b := P.Guard({});
    var k := c.root.k;
    assert Valid(c, P.Guard({"#"}), Boolean(true), v);
    assert P.Follow(b, "#") == P.Guard({"#"});
    assert Unrolled(c, b, "#", Boolean(true), v);
    assert Referenced(c, b, Resolve(host, r), v);
    assert SomeValid(c, b, k.anyOf, v) && OneValid(c, b, k.oneOf, v) && EveryValid(c, b, k.allOf, v);
    assert Assertions(c, k, v) && Applicators(c, b, k, v) && Members(c, b, k, v);
  }

  /** However the reference to `#` is written: the compiler accepts the contract, the schema accepts
      every instance, and the evaluator rejects all. It follows the root instead, and its guard
      stops the second visit. */
  lemma HashNameIsConfused(host: P.Host, r: string, portable: string -> bool, v: Value)
    requires Mistaken(host, r)
    ensures CompileDocument(HashContract(host, r), portable) == Ok(HashDocument(host, r))
    ensures Valid(HashContract(host, r), P.Guard({}), HashContract(host, r).root, v)
    ensures !P.Holds(HashDocument(host, r), P.Guard({}), HashDocument(host, r).root, v)
  {
    HashCompiles(host, r, portable);
    HashAccepted(host, r, v);
    HashRejected(host, r, v);
  }

  // ----- Which references are safe -----

  /** Every reference in the schema is one of these. */
  predicate RefersWithin(s: Schema, refs: set<string>)
    decreases s
  {
    match s
    case Boolean(_) => true
    case Object(k) =>
      && (k.ref.Some? ==> k.ref.value in refs)
      && AllReferWithin(k.anyOf, refs) && AllReferWithin(k.oneOf, refs) && AllReferWithin(k.allOf, refs)
      && AllReferWithin(k.prefixItems, refs)
      && (k.items.Some? ==> RefersWithin(k.items.value, refs))
      && (k.additional.Some? ==> RefersWithin(k.additional.value, refs))
      && (k.properties.Properties? ==>
            forall i :: 0 <= i < |k.properties.members| ==> RefersWithin(k.properties.members[i].schema, refs))
  }

  predicate AllReferWithin(branches: Branches, refs: set<string>)
    decreases branches
  {
    branches.Branches? ==> forall i :: 0 <= i < |branches.list| ==> RefersWithin(branches.list[i], refs)
  }

  ghost predicate ContractRefersWithin(c: Contract, host: P.Host, refs: set<string>) {
    && c.host == host && RefersWithin(c.root, refs)
    && forall name :: name in c.definitions ==> RefersWithin(c.definitions[name], refs)
  }

  lemma {:induction false} SafeIsHashFree(host: P.Host, s: Schema, refs: set<string>)
    requires RefersWithin(s, refs) && forall r :: r in refs ==> !Mistaken(host, r)
    ensures HashFree(host, s)
    decreases s
  {
    if s.Object? {
      var k := s.k;
      AllSafe(host, k.anyOf, refs);
      AllSafe(host, k.oneOf, refs);
      AllSafe(host, k.allOf, refs);
      AllSafe(host, k.prefixItems, refs);
      if k.items.Some? {
        SafeIsHashFree(host, k.items.value, refs);
      }
      if k.additional.Some? {
        SafeIsHashFree(host, k.additional.value, refs);
      }
      if k.properties.Properties? {
        forall i | 0 <= i < |k.properties.members| ensures HashFree(host, k.properties.members[i].schema) {
          SafeIsHashFree(host, k.properties.members[i].schema, refs);
        }
      }
    }
  }

  lemma {:induction false} AllSafe(host: P.Host, branches: Branches, refs: set<string>)
    requires AllReferWithin(branches, refs) && forall r :: r in refs ==> !Mistaken(host, r)
    ensures HashFreeAll(host, branches)
    decreases branches
  {
    if branches.Branches? {
      forall i | 0 <= i < |branches.list| ensures HashFree(host, branches.list[i]) {
        SafeIsHashFree(host, branches.list[i], refs);
      }
    }
  }

  /** If the contract compiles, the evaluator gives its verdict on `v`. */
  ghost predicate Agrees(c: Contract, portable: string -> bool, v: Value) {
    var outcome := CompileDocument(c, portable);
    outcome.Ok? ==>
      (P.Holds(outcome.value, P.Guard({}), outcome.value.root, v) <==> Valid(c, P.Guard({}), c.root, v))
  }

  /** References are safe in every contract exactly when none of them is mistaken for the root. */
  lemma SafeReferences(host: P.Host, refs: set<string>, portable: string -> bool)
    ensures (forall r :: r in refs ==> !Mistaken(host, r)) <==>
            (forall c, v :: ContractRefersWithin(c, host, refs) ==> Agrees(c, portable, v))
  {
    if forall r :: r in refs ==> !Mistaken(host, r) {
      forall c, v | ContractRefersWithin(c, host, refs) ensures Agrees(c, portable, v) {
        SafeContract(c, host, refs, portable, v);
      }
    } else {
      var r :| r in refs && Mistaken(host, r);
      UnsafeContract(host, r, refs, portable);
      assert !Agrees(HashContract(host, r), portable, Null);
    }
  }

  lemma UnsafeContract(host: P.Host, r: string, refs: set<string>, portable: string -> bool)
    requires r in refs && Mistaken(host, r)
    ensures ContractRefersWithin(HashContract(host, r), host, refs) && !Agrees(HashContract(host, r), portable, Null)
  {
    HashNameIsConfused(host, r, portable, Null);
    var c := HashContract(host, r);
    assert AllReferWithin(NoBranches, refs) && RefersWithin(c.root, refs);
    assert RefersWithin(c.definitions["#"], refs);
  }

  lemma SafeContract(c: Contract, host: P.Host, refs: set<string>, portable: string -> bool, v: Value)
    requires ContractRefersWithin(c, host, refs) && forall r :: r in refs ==> !Mistaken(host, r)
    ensures Agrees(c, portable, v)
  {
    SafeIsHashFree(host, c.root, refs);
    forall name | name in c.definitions ensures HashFree(host, c.definitions[name]) {
      SafeIsHashFree(host, c.definitions[name], refs);
    }
    if CompileDocument(c, portable).Ok? {
      ContractPreserved(c, portable, P.Guard({}), v);
    }
  }
}
