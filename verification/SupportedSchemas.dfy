/** Which contracts can be compiled: a condition on the schemas alone. */
module SupportedSchemas {
  import opened Json
  import opened References
  import opened JsonSchema
  import opened ValidatorCompiler
  import Recency
  import P = ValidationPlan

  const Types: set<string> := {"null", "boolean", "string", "number", "integer", "array", "object"}

  /** The reference points to the root or to a definition of the contract. A reference to a
      definition called `#` passes even where there is none, since it is taken for the root. */
  ghost predicate Resolvable(contract: Contract, reference: string) {
    reference == "#" ||
    exists name :: (name in contract.definitions || name == "#") && PointsTo(contract.host, reference, name)
  }

  /** No keyword is present that speaks of one type of instances only. */
  predicate Untyped(k: Keywords) {
    && k.text.minLength.None? && k.text.maxLength.None? && k.text.pattern.None? && k.text.format.None?
    && k.number.minimum.None? && k.number.maximum.None? && k.number.exclusiveMinimum.None?
    && k.number.exclusiveMaximum.None? && k.number.multipleOf.None?
    && k.items.None? && k.prefixItems.NoBranches? && k.minItems.None? && k.maxItems.None?
    && k.properties.NoProperties? && k.required.None? && k.additional.None?
  }

  /** Some number satisfies both bounds. */
  ghost predicate InOrder(low: Option<nat>, high: Option<nat>) {
    exists n: nat :: P.AtLeast(low, n) && P.AtMost(high, n)
  }

  lemma CrossedMeans(low: Option<nat>, high: Option<nat>)
    ensures Crossed(low, high) <==> !InOrder(low, high)
  {
    var n := if low.Some? then low.value else 0;
    assert Crossed(low, high) || (P.AtLeast(low, n) && P.AtMost(high, n));
  }

  ghost predicate Supported(contract: Contract, portable: string -> bool, s: Schema)
    decreases s
  {
    s.Boolean? ||
    (&& (s.k.ref.Some? ==> Resolvable(contract, s.k.ref.value))
     && (s.k.enumeration.Some? ==> s.k.enumeration.value != [])
     && SupportedBranches(contract, portable, s.k.anyOf)
     && SupportedBranches(contract, portable, s.k.oneOf)
     && SupportedBranches(contract, portable, s.k.allOf)
     && (s.k.types == [] ==> Untyped(s.k))
     && SupportedTypes(contract, portable, s.k, s.k.types))
  }

  ghost predicate SupportedBranches(contract: Contract, portable: string -> bool, branches: Branches)
    decreases branches
  {
    branches.Branches? ==> branches.list != [] && AllSupported(contract, portable, branches.list)
  }

  ghost predicate AllSupported(contract: Contract, portable: string -> bool, schemas: seq<Schema>)
    decreases schemas
  {
    forall i :: 0 <= i < |schemas| ==> Supported(contract, portable, schemas[i])
  }

  ghost predicate SupportedTypes(contract: Contract, portable: string -> bool, k: Keywords, types: seq<string>)
    decreases k, 1
  {
    forall i :: 0 <= i < |types| ==> SupportedType(contract, portable, k, types[i])
  }

  /** Only the keywords of the types that are listed matter. */
  ghost predicate SupportedType(contract: Contract, portable: string -> bool, k: Keywords, name: string)
    decreases k, 0
  {
    && name in Types
    && (name == "string" ==>
          && InOrder(k.text.minLength, k.text.maxLength)
          && (k.text.pattern.Some? ==> portable(k.text.pattern.value))
          && (k.text.format.Some? ==> k.text.format.value in Formats))
    && (name == "number" || name == "integer" ==> k.number.multipleOf.Some? ==> k.number.multipleOf.value > 0.0)
    && (name == "array" ==>
          && InOrder(k.minItems, k.maxItems)
          && (k.items.Some? ==> Supported(contract, portable, k.items.value))
          && (k.prefixItems.Branches? ==> AllSupported(contract, portable, k.prefixItems.list)))
    && (name == "object" ==>
          && Recency.NoDuplicates(Required(k))
          && (k.additional.Some? ==> Supported(contract, portable, k.additional.value))
          && (k.properties.Properties? ==>
                forall i :: 0 <= i < |k.properties.members| ==>
                              Supported(contract, portable, k.properties.members[i].schema)))
  }

  ghost predicate SupportedContract(contract: Contract, portable: string -> bool) {
    && Supported(contract, portable, contract.root)
    && forall name :: name in contract.definitions ==> Supported(contract, portable, contract.definitions[name])
  }

  function ContextOf(contract: Contract, portable: string -> bool): Context {
    Context(contract.definitions.Keys, contract.host, portable)
  }

  // ----- What compiles -----

  lemma {:induction false} NodeCompiles(contract: Contract, portable: string -> bool, s: Schema)
    ensures CompileNode(ContextOf(contract, portable), s).Ok? <==> Supported(contract, portable, s)
    decreases s, 3
  {
    if s.Object? {
      var c, k := ContextOf(contract, portable), s.k;
      ReferenceCompiles(contract, portable, k);
      BranchesCompile(contract, portable, k.anyOf);
      BranchesCompile(contract, portable, k.oneOf);
      BranchesCompile(contract, portable, k.allOf);
      TypesCompile(contract, portable, k, k.types);
      assert CompileTypePart(c, k).Ok? <==>
             if k.types == [] then !TypedKeyword(k) else CompileTypes(c, k, k.types).Ok?;
      assert CompileApplicators(c, k).Ok? <==>
             CompileBranches(c, k.anyOf).Ok? && CompileBranches(c, k.oneOf).Ok? && CompileBranches(c, k.allOf).Ok?;
      assert CompileValues(k).Ok? <==> (k.enumeration.Some? ==> k.enumeration.value != []);
      assert CompileNode(c, s).Ok? <==> CompileParts(c, k).Ok?;
    }
  }

  lemma ReferenceCompiles(contract: Contract, portable: string -> bool, k: Keywords)
    ensures CompileReference(ContextOf(contract, portable), k).Ok? <==>
            (k.ref.Some? ==> Resolvable(contract, k.ref.value))
  {
    if k.ref.Some? && k.ref.value != "#" {
      forall name
        ensures DecodeReference(contract.host, k.ref.value) == Some(name) <==>
                  PointsTo(contract.host, k.ref.value, name)
      {
        DecodeMeans(contract.host, k.ref.value, name);
      }
    }
  }

  lemma {:induction false} BranchesCompile(contract: Contract, portable: string -> bool, branches: Branches)
    ensures CompileBranches(ContextOf(contract, portable), branches).Ok? <==>
              SupportedBranches(contract, portable, branches)
    decreases branches, 2
  {
    if branches.Branches? {
      AllCompile(contract, portable, branches.list);
    }
  }

  lemma {:induction false} AllCompile(contract: Contract, portable: string -> bool, schemas: seq<Schema>)
    ensures CompileAll(ContextOf(contract, portable), schemas).Ok? <==> AllSupported(contract, portable, schemas)
    decreases schemas, 1
  {
    if schemas != [] {
      NodeCompiles(contract, portable, schemas[0]);
      AllCompile(contract, portable, schemas[1..]);
      assert schemas == [schemas[0]] + schemas[1..];
    }
  }

  lemma {:induction false} TypesCompile(contract: Contract, portable: string -> bool, k: Keywords, types: seq<string>)
    ensures CompileTypes(ContextOf(contract, portable), k, types).Ok? <==>
            SupportedTypes(contract, portable, k, types)
    decreases k, 2, |types|
  {
    if types != [] {
      TypeCompiles(contract, portable, k, types[0]);
      TypesCompile(contract, portable, k, types[1..]);
      OneTypeMore(contract, portable, k, types);
    }
  }

  lemma OneTypeMore(contract: Contract, portable: string -> bool, k: Keywords, types: seq<string>)
    requires types != []
    ensures SupportedTypes(contract, portable, k, types) <==>
            SupportedType(contract, portable, k, types[0]) && SupportedTypes(contract, portable, k, types[1..])
  {
    assert types == [types[0]] + types[1..];
  }

  lemma {:induction false} TypeCompiles(contract: Contract, portable: string -> bool, k: Keywords, name: string)
    ensures CompileType(ContextOf(contract, portable), k, name).Ok? <==> SupportedType(contract, portable, k, name)
    decreases k, 1
  {
    if name == "array" {
      ArrayCompiles(contract, portable, k);
    } else if name == "object" {
      ObjectCompiles(contract, portable, k);
    } else if name == "string" {
      CrossedMeans(k.text.minLength, k.text.maxLength);
    }
  }

  lemma {:induction false} ArrayCompiles(contract: Contract, portable: string -> bool, k: Keywords)
    ensures CompileArray(ContextOf(contract, portable), k).Ok? <==> SupportedType(contract, portable, k, "array")
    decreases k, 0
  {
    CrossedMeans(k.minItems, k.maxItems);
    OptionCompiles(contract, portable, k.items);
    ListCompiles(contract, portable, k.prefixItems);
  }

  lemma {:induction false} ObjectCompiles(contract: Contract, portable: string -> bool, k: Keywords)
    ensures CompileObject(ContextOf(contract, portable), k).Ok? <==> SupportedType(contract, portable, k, "object")
    decreases k, 0
  {
    OptionCompiles(contract, portable, k.additional);
    if k.properties.Properties? {
      MembersCompile(contract, portable, k.properties.members);
    }
  }

  lemma {:induction false} OptionCompiles(contract: Contract, portable: string -> bool, s: Option<Schema>)
    ensures CompileOptional(ContextOf(contract, portable), s).Ok? <==>
              (s.Some? ==> Supported(contract, portable, s.value))
    decreases s
  {
    if s.Some? {
      NodeCompiles(contract, portable, s.value);
    }
  }

  lemma {:induction false} ListCompiles(contract: Contract, portable: string -> bool, branches: Branches)
    ensures CompileList(ContextOf(contract, portable), branches).Ok? <==>
            (branches.Branches? ==> AllSupported(contract, portable, branches.list))
    decreases branches
  {
    if branches.Branches? {
      AllCompile(contract, portable, branches.list);
    }
  }

  lemma {:induction false} MembersCompile(contract: Contract, portable: string -> bool, members: seq<Member>)
    ensures CompileMembers(ContextOf(contract, portable), members).Ok? <==>
            forall i :: 0 <= i < |members| ==> Supported(contract, portable, members[i].schema)
    decreases members
  {
    if members != [] {
      NodeCompiles(contract, portable, members[0].schema);
      MembersCompile(contract, portable, members[1..]);
      assert members == [members[0]] + members[1..];
    }
  }

  /** A contract compiles if and only if it is supported. */
  lemma CompilesIfSupported(contract: Contract, portable: string -> bool)
    ensures CompileDocument(contract, portable).Ok? <==> SupportedContract(contract, portable)
  {
    NodeCompiles(contract, portable, contract.root);
    forall name | name in contract.definitions
      ensures CompileNode(ContextOf(contract, portable), contract.definitions[name]).Ok? <==>
              Supported(contract, portable, contract.definitions[name])
    {
      NodeCompiles(contract, portable, contract.definitions[name]);
    }
  }
}
