/** Validation entry points: a plan, and a JSON Schema contract end to end. */
module Validate {
  import opened Json
  import opened ValidationPlan
  import opened EvaluationSpend
  import opened EvaluationWalk
  import opened OneOfLimits
  import opened LooseReading
  import opened NestingDepth
  import opened DepthLimits
  import opened LeastFixedPoint
  import opened RankedReferences
  import opened Evaluator
  import JsonSchema
  import ValidatorCompiler
  import CompilerCorrectness
  import SupportedSchemas

  datatype Result = Accepted(value: Value) | Rejected(issues: seq<Issue>) | BadLimits

  predicate GoodLimits(limits: Limits) {
    1 <= limits.maxIssues && 1 <= limits.maxOperations && 1 <= limits.maxProperties
  }

  /** Nothing to check lies too deep or is too wide. */
  ghost predicate Spacious(doc: Document, limits: Limits, value: Value) {
    Clear(doc, Root(doc, value), 0, limits)
  }

  /** The operations and the width suffice for the evaluation. */
  ghost predicate Ample(doc: Document, limits: Limits, value: Value) {
    && Spend(doc, Guard({}), doc.root, value) <= limits.maxOperations
    && NarrowBelow(doc, Root(doc, value), limits.maxProperties)
  }

  /** `limited` tells whether some limit was hit. Without that the verdict is the unlimited one;
      with room in depth and width a limit is hit exactly if the operations do not cover the
      evaluation. Whatever the limits, an acceptance is right with each `oneOf` read as `anyOf`, and
      no chain of steps without a choice leads to something to check beyond the limit on depth.
      Without unions, enough operations and width make this exact: what is accepted is what holds
      and does not nest too deep. */
  method ValidateWithPlan(doc: Document, limits: Limits, value: Value) returns (r: Result, ghost limited: bool)
    ensures r.BadLimits? <==> !GoodLimits(limits)
    ensures r.Accepted? ==> r.value == value
    ensures r.Rejected? ==> 1 <= |r.issues| <= limits.maxIssues
    ensures GoodLimits(limits) && !limited ==> (r.Accepted? <==> Holds(doc, Guard({}), doc.root, value))
    ensures GoodLimits(limits) && Spacious(doc, limits, value) ==>
              (limited <==> Spend(doc, Guard({}), doc.root, value) > limits.maxOperations)
    ensures r.Accepted? ==> Holds(Relaxed(doc), Guard({}), Relax(doc.root), value)
    ensures r.Accepted? ==> PlainlyNear(doc, Root(doc, value), 0, limits.maxDepth)
    ensures UnionFreeDocument(doc) && r.Accepted? ==> Near(doc, Root(doc, value), 0, limits.maxDepth)
    ensures GoodLimits(limits) && UnionFreeDocument(doc) && Ample(doc, limits, value) ==>
              (r.Accepted? <==> && Holds(doc, Guard({}), doc.root, value)
                                && Near(doc, Root(doc, value), 0, limits.maxDepth))
    ensures OneOfFreeDocument(doc) && r.Accepted? ==> Holds(doc, Guard({}), doc.root, value)
    ensures GoodLimits(limits) && Foreseeable(doc.root) ==>
              (r.Accepted? <==> LimitedVerdict(doc, doc.root, value, limits.maxDepth, 0, limits.maxOperations))
    ensures GoodLimits(limits) && UnionFor(doc.root, value) && Spacious(doc, limits, value) ==>
              PaidVerdict(doc, Guard({}), doc.root.kind.branches, doc.root.kind.oneOf, value, limits.maxOperations - 1,
                          r.Accepted?)
    ensures UnionFor(doc.root, value) && OneOfAtRoot(doc, doc.root.kind.branches) && r.Accepted? ==>
              HoldCount(doc, Guard({}), doc.root.kind.branches, value, |doc.root.kind.branches|) > 0
  {
    if !GoodLimits(limits) {
      return BadLimits, false;
    }
    if UnionFreeDocument(doc) {
      UnionFreeDocumentIsOneOfFree(doc);
      PlainlyIsNear(doc, Root(doc, value), 0, limits.maxDepth);
    }
    if OneOfFreeDocument(doc) {
      RelaxFreeDocument(doc);
    }
    r, limited := EvaluateRoot(doc, limits, value);
    if r.Accepted? {
      PassesLoosely(doc, Guard({}), doc.root, value, 0, limits.maxDepth);
      PassesNear(doc, Root(doc, value), 0, limits.maxDepth);
    }
    if r.Accepted? && UnionFor(doc.root, value) && OneOfAtRoot(doc, doc.root.kind.branches) {
      SomeBranchHolds(doc, value);
    }
  }

  method EvaluateRoot(doc: Document, limits: Limits, value: Value) returns (r: Result, ghost limited: bool)
    requires GoodLimits(limits)
    ensures if r.Accepted? then r.value == value else r.Rejected? && 1 <= |r.issues| <= limits.maxIssues
    ensures !limited ==> (r.Accepted? <==> Holds(doc, Guard({}), doc.root, value))
    ensures Spacious(doc, limits, value) ==>
              (limited <==> Spend(doc, Guard({}), doc.root, value) > limits.maxOperations)
    ensures r.Accepted? ==> Passes(doc, Guard({}), doc.root, value, 0, limits.maxDepth)
    ensures Foreseeable(doc.root) ==>
              (r.Accepted? <==> LimitedVerdict(doc, doc.root, value, limits.maxDepth, 0, limits.maxOperations))
    ensures UnionFor(doc.root, value) && Spacious(doc, limits, value) ==>
              PaidVerdict(doc, Guard({}), doc.root.kind.branches, doc.root.kind.oneOf, value, limits.maxOperations - 1,
                          r.Accepted?)
  {
    var state := new EvaluationState(doc, limits);
    assert state.GuardAt(value) == Guard({});
    if UnionFor(doc.root, value) && Spacious(doc, limits, value) {
      RoomBelow(doc, limits, value);
    }
    var valid := state.Evaluate(doc.root, value, [], 0, Guard({}), limits.maxOperations);
    limited := state.tripped;
    r := if valid then Accepted(value) else Rejected(state.primaryCollector.issues);
  }

  /** A loose acceptance of the root is a proper one of some branch. */
  lemma SomeBranchHolds(doc: Document, value: Value)
    requires UnionFor(doc.root, value) && OneOfAtRoot(doc, doc.root.kind.branches)
    requires Holds(Relaxed(doc), Guard({}), Relax(doc.root), value)
    ensures HoldCount(doc, Guard({}), doc.root.kind.branches, value, |doc.root.kind.branches|) > 0
  {
    var branches := doc.root.kind.branches;
    assert Relax(doc.root) == Node(doc.root.nullable, Union(RelaxAll(branches), false));
    BranchesUntouched(doc, branches, Guard({}), value);
    var i :| 0 <= i < |branches| && Holds(Relaxed(doc), Guard({}), branches[i], value);
    HoldCountCovers(doc, Guard({}), branches, value, i, |branches|);
  }

  lemma RoomBelow(doc: Document, limits: Limits, value: Value)
    requires UnionFor(doc.root, value) && Spacious(doc, limits, value)
    ensures ClearBranches(doc, Guard({}), doc.root.kind.branches, value, 0, limits)
  {
    ClearInside(doc, Guard({}), doc.root.nullable, doc.root.kind, value, 0, limits);
    ClearCompositeMeans(doc, Guard({}), doc.root.kind, value, 0, limits);
  }

  // ----- `oneOf` under limits -----

  /** Both branches accept every value, so exactly one never does. With three operations the second
      branch is not reached. */
  method OneOfBeyondOperations(host: Host, value: Value) returns (doc: Document, r: Result)
    ensures doc.root == Node(false, Union([Fixed(true), Fixed(true)], true)) && r == Accepted(value)
    ensures !Holds(doc, Guard({}), doc.root, value)
  {
    var branches := [Fixed(true), Fixed(true)];
    doc := Document(Node(false, Union(branches, true)), map[], host);
    ghost var limited;
    r, limited := ValidateWithPlan(doc, Limits(64, 100, 3, 10_000), value);
    assert FirstTwo(doc, branches, value, 0, 1);
    OperationsBetween(doc, branches, value, 2);
    OneMeans(doc, Guard({}), branches, value);
  }

  /** The same with no depth to spare: the second branch is reached, and refused for its depth. */
  method OneOfBeyondDepth(host: Host, value: Value) returns (doc: Document, r: Result)
    ensures doc.root == Node(false, Union([Fixed(true), Node(false, Any)], true)) && r == Accepted(value)
    ensures !Holds(doc, Guard({}), doc.root, value)
  {
    var branches := [Fixed(true), Node(false, Any)];
    doc := Document(Node(false, Union(branches, true)), map[], host);
    ghost var limited;
    r, limited := ValidateWithPlan(doc, Limits(0, 100, 100_000, 10_000), value);
    assert AcceptsAlone(doc, branches, value, true, 0, 99_999, 0);
    assert Hidden(doc, branches, value, true, 99_999, 0, 1);
    OneOfWronglyAccepted(doc, branches, value, true, 99_999);
    OneMeans(doc, Guard({}), branches, value);
  }

  /** Any two branches that hold can be hidden: with the operations that `SomeLimitIsWrong` finds, the
      validator accepts. */
  method AcceptsWrongly(doc: Document, limits: Limits, value: Value) returns (r: Result)
    requires GoodLimits(limits) && Spacious(doc, limits, value) && UnionFor(doc.root, value) && doc.root.kind.oneOf
    requires HoldCount(doc, Guard({}), doc.root.kind.branches, value, |doc.root.kind.branches|) >= 2
    requires CountsOne(doc, doc.root.kind.branches, value, limits.maxOperations)
    ensures r == Accepted(value) && !Holds(doc, Guard({}), doc.root, value)
  {
    ghost var limited;
    r, limited := ValidateWithPlan(doc, limits, value);
    OneMeans(doc, Guard({}), doc.root.kind.branches, value);
  }

  /** The schema accepts the value once its references are unrolled often enough, with no guard. */
  ghost predicate Unrollable(contract: JsonSchema.Contract, value: Value) {
    exists n: nat :: JsonSchema.Valid(contract, Fuel(n), contract.root, value)
  }

  lemma UnrolledIsGuarded(contract: JsonSchema.Contract, portable: string -> bool, value: Value)
    requires CompilerCorrectness.HashFreeContract(contract) && ValidatorCompiler.CompileDocument(contract, portable).Ok?
    requires OneOfFreeDocument(ValidatorCompiler.CompileDocument(contract, portable).value)
    ensures var doc := ValidatorCompiler.CompileDocument(contract, portable).value;
            Unrollable(contract, value) <==> Holds(doc, Guard({}), doc.root, value)
  {
    var doc := ValidatorCompiler.CompileDocument(contract, portable).value;
    forall n: nat
      ensures JsonSchema.Valid(contract, Fuel(n), contract.root, value) <==> Holds(doc, Fuel(n), doc.root, value)
    {
      CompilerCorrectness.ContractPreserved(contract, portable, Fuel(n), value);
    }
    GuardIsFiniteUnrolling(doc, doc.root, value);
  }

  /** Where no chain of references returns to a name on the same value, the guard plays no part, even
      with `oneOf`: the verdict is that of every unrolling that is long enough. */
  lemma RankedContract(contract: JsonSchema.Contract, portable: string -> bool, rank: string -> nat, top: nat, n: nat,
                       value: Value)
    requires CompilerCorrectness.HashFreeContract(contract) && ValidatorCompiler.CompileDocument(contract, portable).Ok?
    requires Ranked(ValidatorCompiler.CompileDocument(contract, portable).value, rank, top)
            && Reach(top, top, value) <= n
    ensures JsonSchema.Valid(contract, Guard({}), contract.root, value) <==>
            JsonSchema.Valid(contract, Fuel(n), contract.root, value)
  {
    var doc := ValidatorCompiler.CompileDocument(contract, portable).value;
    CompilerCorrectness.ContractPreserved(contract, portable, Guard({}), value);
    CompilerCorrectness.ContractPreserved(contract, portable, Fuel(n), value);
    GuardIsLongUnrolling(doc, rank, top, doc.root, value, n);
  }

  /** Compiles a contract and validates an instance. Unless some definition is called `#`, the
      verdict is that of the schema where no limit is hit, which enough operations, depth and width
      ensure. Without `oneOf` this is the verdict of the unrolled schema, with no guard, and an
      acceptance never depends on the limits. */
  method ValidateInstance(contract: JsonSchema.Contract, portable: string -> bool, limits: Limits, value: Value)
    returns (compiled: bool, r: Result, ghost limited: bool)
    ensures compiled <==> SupportedSchemas.SupportedContract(contract, portable)
    ensures compiled <==> ValidatorCompiler.CompileDocument(contract, portable).Ok?
    ensures compiled && CompilerCorrectness.HashFreeContract(contract) && GoodLimits(limits) && !limited ==>
              (r.Accepted? <==> JsonSchema.Valid(contract, Guard({}), contract.root, value))
    ensures compiled && GoodLimits(limits) ==>
              Spacious(ValidatorCompiler.CompileDocument(contract, portable).value, limits, value) ==>
                var doc := ValidatorCompiler.CompileDocument(contract, portable).value;
                (limited <==> Spend(doc, Guard({}), doc.root, value) > limits.maxOperations)
    ensures compiled && CompilerCorrectness.HashFreeContract(contract) &&
            OneOfFreeDocument(ValidatorCompiler.CompileDocument(contract, portable).value) ==>
              && (r.Accepted? ==> Unrollable(contract, value))
              && (GoodLimits(limits) && !limited && Unrollable(contract, value) ==> r.Accepted?)
    ensures compiled && r.Rejected? ==> 1 <= |r.issues| <= limits.maxIssues
  {
    SupportedSchemas.CompilesIfSupported(contract, portable);
    var outcome := ValidatorCompiler.CompileDocument(contract, portable);
    if outcome.Fail? {
      return false, BadLimits, false;
    }
    if CompilerCorrectness.HashFreeContract(contract) {
      CompilerCorrectness.ContractPreserved(contract, portable, Guard({}), value);
      if OneOfFreeDocument(outcome.value) {
        UnrolledIsGuarded(contract, portable, value);
      }
    }
    r, limited := ValidateWithPlan(outcome.value, limits, value);
    compiled := true;
  }
}
