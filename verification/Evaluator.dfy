/** The plan evaluator with its limits on depth, operations, properties and issues. */
module Evaluator {
  import opened Json
  import opened ValidationPlan
  import opened EvaluationSpend
  import opened EvaluationWalk
  import opened OneOfLimits
  import opened NestingDepth

  datatype Segment = Key(key: string) | Index(index: nat)

  datatype Issue = Issue(path: seq<Segment>, code: string)

  datatype RefFrame = RefFrame(name: string, value: Value)

  // ----- Pairs of trees still to be compared -----

  datatype EqualPair = EqualPair(left: Value, right: Value, path: seq<Segment>)

  ghost predicate AllEqual(pending: seq<EqualPair>) {
    forall i :: 0 <= i < |pending| ==> pending[i].left == pending[i].right
  }

  function PairCost(p: EqualPair): nat {
    EqualCost(p.left, p.right) - 3
  }

  function PendingCost(pending: seq<EqualPair>): nat {
    if pending == [] then 0 else PairCost(pending[|pending| - 1]) + PendingCost(pending[..|pending| - 1])
  }

  lemma {:induction false} PendingCostConcat(x: seq<EqualPair>, y: seq<EqualPair>)
    ensures PendingCost(x + y) == PendingCost(x) + PendingCost(y)
  {
    if y == [] {
      assert x + y == x;
    } else {
      assert (x + y)[..|x + y| - 1] == x + y[..|y| - 1];
      PendingCostConcat(x, y[..|y| - 1]);
    }
  }

  lemma OnePending(pair: EqualPair)
    ensures AllEqual([pair]) <==> pair.left == pair.right
    ensures PendingCost([pair]) == PairCost(pair)
  {
    assert [pair][0] == pair && [pair][..0] == [];
  }

  /** The pairs of items from `from` on, in the order of the stack: the last item first. */
  function ItemPairs(left: seq<Value>, right: seq<Value>, path: seq<Segment>, from: nat): seq<EqualPair>
    requires |left| == |right| && from <= |left|
    decreases |left| - from
  {
    if from == |left| then []
    else ItemPairs(left, right, path, from + 1) + [EqualPair(left[from], right[from], path + [Index(from)])]
  }

  function FieldPairs(left: seq<Field>, right: seq<Field>, path: seq<Segment>, from: nat): seq<EqualPair>
    requires |left| == |right| && from <= |left|
    decreases |left| - from
  {
    if from == |left| then []
    else FieldPairs(left, right, path, from + 1)
         + [EqualPair(left[from].value, right[from].value, path + [Key(left[from].key)])]
  }

  lemma AllEqualConcat(x: seq<EqualPair>, y: seq<EqualPair>)
    ensures AllEqual(x + y) <==> AllEqual(x) && AllEqual(y)
  {
    if AllEqual(x + y) {
      assert forall i :: 0 <= i < |x| ==> (x + y)[i] == x[i];
      assert forall i :: 0 <= i < |y| ==> (x + y)[|x| + i] == y[i];
    }
  }

  lemma {:induction false} ItemPairsMean(left: seq<Value>, right: seq<Value>, path: seq<Segment>, from: nat)
    requires |left| == |right| && from <= |left|
    ensures AllEqual(ItemPairs(left, right, path, from)) <==> left[from..] == right[from..]
    decreases |left| - from
  {
    if from < |left| {
      ItemPairsMean(left, right, path, from + 1);
      var last := EqualPair(left[from], right[from], path + [Index(from)]);
      AllEqualConcat(ItemPairs(left, right, path, from + 1), [last]);
      OnePending(last);
      assert left[from..] == [left[from]] + left[from + 1..];
      assert right[from..] == [right[from]] + right[from + 1..];
    }
  }

  lemma {:induction false} ItemPairsCost(left: seq<Value>, right: seq<Value>, path: seq<Segment>, from: nat)
    requires |left| == |right| && from <= |left|
    ensures PendingCost(ItemPairs(left, right, path, from)) + 3 * (|left| - from)
            == 3 * (SizeItems(left[from..]) + SizeItems(right[from..]))
    decreases |left| - from
  {
    if from < |left| {
      ItemPairsCost(left, right, path, from + 1);
      var last := EqualPair(left[from], right[from], path + [Index(from)]);
      PendingCostConcat(ItemPairs(left, right, path, from + 1), [last]);
      OnePending(last);
      assert left[from..][1..] == left[from + 1..] && right[from..][1..] == right[from + 1..];
    }
  }

  lemma {:induction false} FieldPairsMean(left: seq<Field>, right: seq<Field>, path: seq<Segment>, from: nat)
    requires SameKeys(left, right) && from <= |left|
    ensures AllEqual(FieldPairs(left, right, path, from)) <==> left[from..] == right[from..]
    decreases |left| - from
  {
    if from < |left| {
      FieldPairsMean(left, right, path, from + 1);
      var last := EqualPair(left[from].value, right[from].value, path + [Key(left[from].key)]);
      AllEqualConcat(FieldPairs(left, right, path, from + 1), [last]);
      OnePending(last);
      assert left[from..] == [left[from]] + left[from + 1..];
      assert right[from..] == [right[from]] + right[from + 1..];
    }
  }

  lemma {:induction false} FieldPairsCost(left: seq<Field>, right: seq<Field>, path: seq<Segment>, from: nat)
    requires |left| == |right| && from <= |left|
    ensures PendingCost(FieldPairs(left, right, path, from)) + 3 * (|left| - from)
            == 3 * (SizeFields(left[from..]) + SizeFields(right[from..]))
    decreases |left| - from
  {
    if from < |left| {
      FieldPairsCost(left, right, path, from + 1);
      var last := EqualPair(left[from].value, right[from].value, path + [Key(left[from].key)]);
      PendingCostConcat(FieldPairs(left, right, path, from + 1), [last]);
      OnePending(last);
      assert left[from..][1..] == left[from + 1..] && right[from..][1..] == right[from + 1..];
    }
  }

  // ----- The operations that the pairs on the stack still take -----

  /** The top pair comes next; the comparison ends at the first pair that differs. */
  function PendingSpend(pending: seq<EqualPair>): nat {
    if pending == [] then 0
    else
      var top := pending[|pending| - 1];
      EqualSpend(top.left, top.right) + if top.left == top.right then PendingSpend(pending[..|pending| - 1]) else 0
  }

  lemma PendingSpendTop(rest: seq<EqualPair>, top: EqualPair)
    ensures PendingSpend(rest + [top]) ==
            EqualSpend(top.left, top.right) + if top.left == top.right then PendingSpend(rest) else 0
  {
    assert (rest + [top])[..|rest|] == rest;
  }

  lemma {:induction false} ItemPairsPending(rest: seq<EqualPair>, left: seq<Value>, right: seq<Value>,
                                            path: seq<Segment>,
                                            from: nat)
    requires |left| == |right| && from <= |left|
    ensures PendingSpend(rest + ItemPairs(left, right, path, from)) ==
            ItemPairsSpend(left[from..], right[from..])
            + if left[from..] == right[from..] then PendingSpend(rest) else 0
    decreases |left| - from
  {
    if from == |left| {
      assert rest + ItemPairs(left, right, path, from) == rest;
    } else {
      ItemPairsPending(rest, left, right, path, from + 1);
      var top := EqualPair(left[from], right[from], path + [Index(from)]);
      var below := rest + ItemPairs(left, right, path, from + 1);
      assert rest + ItemPairs(left, right, path, from) == below + [top];
      PendingSpendTop(below, top);
      assert left[from..] == [left[from]] + left[from + 1..];
      assert right[from..] == [right[from]] + right[from + 1..];
    }
  }

  lemma {:induction false} FieldPairsPending(rest: seq<EqualPair>, left: seq<Field>, right: seq<Field>,
                                             path: seq<Segment>,
                                             from: nat)
    requires SameKeys(left, right) && from <= |left|
    ensures PendingSpend(rest + FieldPairs(left, right, path, from)) ==
            FieldPairsSpend(left[from..], right[from..])
            + if left[from..] == right[from..] then PendingSpend(rest) else 0
    decreases |left| - from
  {
    if from == |left| {
      assert rest + FieldPairs(left, right, path, from) == rest;
    } else {
      FieldPairsPending(rest, left, right, path, from + 1);
      var top := EqualPair(left[from].value, right[from].value, path + [Key(left[from].key)]);
      var below := rest + FieldPairs(left, right, path, from + 1);
      assert rest + FieldPairs(left, right, path, from) == below + [top];
      PendingSpendTop(below, top);
      assert left[from..] == [left[from]] + left[from + 1..];
      assert right[from..] == [right[from]] + right[from + 1..];
    }
  }

  /** Nothing speaks against the pair so far, and the pairs inside are to be compared. */
  predicate Opens(pair: EqualPair) {
    || (pair.left.Arr? && pair.right.Arr? && |pair.left.items| == |pair.right.items|)
    || (pair.left.Obj? && pair.right.Obj? && SameKeys(pair.left.fields, pair.right.fields))
    || (!IsContainer(pair.left) && pair.left == pair.right)
  }

  function Inside(pair: EqualPair): seq<EqualPair>
    requires Opens(pair)
  {
    if pair.left.Arr? then ItemPairs(pair.left.items, pair.right.items, pair.path, 0)
    else if pair.left.Obj? then FieldPairs(pair.left.fields, pair.right.fields, pair.path, 0)
    else []
  }

  lemma InsideMeans(pair: EqualPair)
    requires Opens(pair)
    ensures AllEqual(Inside(pair)) <==> pair.left == pair.right
    ensures PendingCost(Inside(pair)) < PairCost(pair)
  {
    if pair.left.Arr? {
      ItemPairsMean(pair.left.items, pair.right.items, pair.path, 0);
      ItemPairsCost(pair.left.items, pair.right.items, pair.path, 0);
      assert pair.left.items[0..] == pair.left.items && pair.right.items[0..] == pair.right.items;
    } else if pair.left.Obj? {
      FieldPairsMean(pair.left.fields, pair.right.fields, pair.path, 0);
      FieldPairsCost(pair.left.fields, pair.right.fields, pair.path, 0);
      assert pair.left.fields[0..] == pair.left.fields && pair.right.fields[0..] == pair.right.fields;
    }
  }

  /** Taking the top pair off the stack costs one step; what remains is what is inside, above the rest. */
  lemma InsidePending(rest: seq<EqualPair>, pair: EqualPair)
    ensures PendingSpend(rest + [pair]) == StepSpend(pair.left, pair.right)
                                           + if Opens(pair) then PendingSpend(rest + Inside(pair)) else 0
    ensures !Opens(pair) ==> pair.left != pair.right
  {
    PendingSpendTop(rest, pair);
    if pair.left.Arr? && Opens(pair) {
      ItemPairsPending(rest, pair.left.items, pair.right.items, pair.path, 0);
      assert pair.left.items[0..] == pair.left.items && pair.right.items[0..] == pair.right.items;
    } else if pair.left.Obj? && Opens(pair) {
      FieldPairsPending(rest, pair.left.fields, pair.right.fields, pair.path, 0);
      assert pair.left.fields[0..] == pair.left.fields && pair.right.fields[0..] == pair.right.fields;
    } else if Opens(pair) {
      assert rest + Inside(pair) == rest;
    }
  }

  ghost function FollowedOn(refs: seq<RefFrame>, v: Value): set<string> {
    set i | 0 <= i < |refs| && refs[i].value == v :: refs[i].name
  }

  lemma FollowOneMore(refs: seq<RefFrame>, name: string, v: Value)
    ensures FollowedOn(refs + [RefFrame(name, v)], v) == FollowedOn(refs, v) + {name}
  {
    var more := refs + [RefFrame(name, v)];
    forall x | x in FollowedOn(refs, v) ensures x in FollowedOn(more, v) {
      var i :| 0 <= i < |refs| && refs[i].value == v && refs[i].name == x;
      assert more[i] == refs[i];
    }
    assert more[|refs|] == RefFrame(name, v);
  }

  /** The top pair of a stack, what it takes, and what is left of it. */
  lemma TakesTop(pending: seq<EqualPair>, rest: seq<EqualPair>, pair: EqualPair)
    requires pending != [] && pair == pending[|pending| - 1] && rest == pending[..|pending| - 1]
    ensures AllEqual(pending) <==> AllEqual(rest) && pair.left == pair.right
    ensures PendingCost(pending) == PendingCost(rest) + PairCost(pair)
    ensures PendingSpend(pending) == StepSpend(pair.left, pair.right)
                                     + if Opens(pair) then PendingSpend(rest + Inside(pair)) else 0
    ensures !Opens(pair) ==> pair.left != pair.right
  {
    assert pending == rest + [pair];
    OnePending(pair);
    AllEqualConcat(rest, [pair]);
    InsidePending(rest, pair);
  }

  class IssueCollector {
    const maxIssues: nat
    var issues: seq<Issue>

    constructor (maxIssues: nat)
      ensures this.maxIssues == maxIssues && issues == []
    {
      this.maxIssues := maxIssues;
      issues := [];
    }

    method Add(path: seq<Segment>, code: string)
      modifies this
      ensures issues == if |old(issues)| >= maxIssues then old(issues) else old(issues) + [Issue(path, code)]
    {
      if |issues| >= maxIssues {
        return;
      }
      issues := issues + [Issue(path, code)];
    }
  }

  /** What a walk over nested values comes to: its verdict, that under the limit on depth, whether
      nothing lies too deep or is too wide, and the operations that it takes. */
  datatype Whole = Whole(holds: bool, passes: bool, clear: bool, spend: nat)

  class EvaluationState {
    const doc: Document
    const limits: Limits
    const primaryCollector: IssueCollector
    var collector: IssueCollector
    var activeValues: set<Value>
    var refs: seq<RefFrame>
    var operations: nat
    var operationLimitReported: bool
    /** Some limit on operations, depth or properties has cut the evaluation short. */
    ghost var tripped: bool

    constructor (doc: Document, limits: Limits)
      requires limits.maxIssues >= 1
      ensures Valid() && fresh(collector) && collector == primaryCollector
      ensures this.doc == doc && this.limits == limits
      ensures collector.maxIssues == limits.maxIssues && collector.issues == []
      ensures activeValues == {} && refs == [] && operations == 0 && !tripped
    {
      this.doc := doc;
      this.limits := limits;
      var first := new IssueCollector(limits.maxIssues);
      collector, primaryCollector := first, first;
      activeValues, refs, operations, operationLimitReported, tripped := {}, [], 0, false, false;
    }

    ghost predicate Valid()
      reads this, collector, primaryCollector
    {
      && operations <= limits.maxOperations
      && 1 <= collector.maxIssues && |collector.issues| <= collector.maxIssues
      && 1 <= primaryCollector.maxIssues && |primaryCollector.issues| <= primaryCollector.maxIssues
      && (operationLimitReported ==> tripped && primaryCollector.issues != [] && operations == limits.maxOperations)
    }

    /** Everything in progress surrounds `v`, or is a reference followed on `v` itself. */
    ghost predicate Placed(v: Value)
      reads this
    {
      && (forall a :: a in activeValues ==> Size(v) < Size(a))
      && (forall i :: 0 <= i < |refs| ==> refs[i].value == v || Size(v) < Size(refs[i].value))
    }

    /** The references being followed on `v`. */
    ghost function GuardAt(v: Value): Budget
      reads this
    {
      Guard(FollowedOn(refs, v))
    }

    /** What every step keeps: the collector in use, the stack of references and the set of
        active values are restored; operations and issues only grow. */
    twostate predicate Kept()
      reads this, collector, primaryCollector
    {
      && Valid()
      && collector == old(collector) && refs == old(refs) && activeValues == old(activeValues)
      && old(operations) <= operations
      && (old(tripped) ==> tripped)
      && (old(operationLimitReported) ==> operationLimitReported)
      && |old(collector.issues)| <= |collector.issues|
      && |old(primaryCollector.issues)| <= |primaryCollector.issues|
    }

    /** Unless a limit was hit, exactly `spend` operations were taken, apart from those in `left`,
        which are still to come. Where nothing to check lies too deep or is too wide, a limit was hit
        only because the operations do not cover `spend`. */
    twostate predicate Within(clear: bool, spend: nat, left: nat)
      reads this
    {
      && (!tripped ==> operations + left == old(operations) + spend)
      && (old(!tripped) && clear && tripped ==>
            operationLimitReported && old(operations) + spend > limits.maxOperations)
    }

    ghost predicate Explained()
      reads this, collector
    {
      collector.issues != [] || operationLimitReported
    }

    /** The operations left after `spent`. */
    ghost function Left(spent: nat): nat {
      if spent <= limits.maxOperations then limits.maxOperations - spent else 0
    }

    /** `valid` is the verdict of one evaluation whose unlimited verdict is `verdict`: a rejection is
        explained; unless a limit was hit the two agree; and whatever the limits, an acceptance
        `passes`: it is right with each `oneOf` read as `anyOf`, and nothing it rests on lies too deep. */
    twostate predicate Judged(valid: bool, verdict: bool, passes: bool)
      reads this, collector, primaryCollector
    {
      && Kept()
      && (!valid ==> Explained())
      && (!tripped ==> valid == verdict)
      && (valid ==> passes)
    }

    /** A loop in progress: the parts seen so far were all `valid`, `ahead` is the verdict on
        the rest and `total` the verdict on the whole. */
    twostate predicate Walking(valid: bool, ahead: bool, total: bool, passAhead: bool, passTotal: bool)
      reads this, collector, primaryCollector
    {
      && Kept()
      && (!valid ==> Explained())
      && (!tripped ==> (valid && ahead <==> total))
      && (valid && passAhead ==> passTotal)
    }

    // ----- Budget of operations -----

    method ConsumeOperation(path: seq<Segment>) returns (ok: bool)
      requires Valid()
      modifies this`operations, this`operationLimitReported, this`tripped, primaryCollector
      ensures Kept()
      ensures ok ==> operations == old(operations) + 1 && tripped == old(tripped)
                     && operationLimitReported == old(operationLimitReported)
                     && primaryCollector.issues == old(primaryCollector.issues)
      ensures !ok ==> tripped && operationLimitReported && operations == old(operations) == limits.maxOperations
      ensures !ok ==> primaryCollector.issues ==
                        if old(operationLimitReported) || |old(primaryCollector.issues)| >= primaryCollector.maxIssues
                        then old(primaryCollector.issues)
                        else old(primaryCollector.issues) + [Issue(path, "maxOperations")]
    {
      if operations >= limits.maxOperations {
        tripped := true;
        if !operationLimitReported {
          operationLimitReported := true;
          primaryCollector.Add(path, "maxOperations");
        }
        return false;
      }
      operations := operations + 1;
      return true;
    }

    method Report(path: seq<Segment>, code: string)
      requires Valid()
      modifies collector
      ensures Kept() && Explained()
      ensures unchanged(this)
    {
      collector.Add(path, code);
    }

    // ----- Structural equality -----

    /** Enumerates the own keys of an object; fails above the property limit. */
    method ReadKeys(fields: seq<Field>, path: seq<Segment>) returns (ok: bool)
      requires Valid()
      modifies this`operations, this`operationLimitReported, this`tripped, collector, primaryCollector
      ensures Kept()
      ensures !ok ==> tripped && Explained() && (operationLimitReported || |fields| > limits.maxProperties)
      ensures ok ==> operations == old(operations) + 1 + |fields| && tripped == old(tripped)
      ensures ok <==> old(operations) + 1 + |fields| <= limits.maxOperations && |fields| <= limits.maxProperties
    {
      ok := ConsumeOperation(path);
      if !ok {
        return;
      }
      for i := 0 to |fields|
        invariant Kept() && ok && tripped == old(tripped)
        invariant operations == old(operations) + 1 + i
        invariant i <= limits.maxProperties
      {
        ok := ConsumeOperation(path + [Key(fields[i].key)]);
        if !ok {
          return;
        }
        if i + 1 > limits.maxProperties {
          Report(path, "maxProperties");
          tripped := true;
          return false;
        }
      }
    }

    /** What one comparison step has come to, of whose cost `paid` was taken before. */
    twostate predicate Compared(pair: EqualPair, ok: bool, more: seq<EqualPair>, paid: nat)
      reads this, collector, primaryCollector
    {
      && Kept()
      && (ok ==> Opens(pair) && more == Inside(pair) && tripped == old(tripped))
      && (!ok && !tripped ==> !Opens(pair))
      && (!tripped ==> operations + paid == old(operations) + StepSpend(pair.left, pair.right))
      && (old(!tripped) && PairCost(pair) <= limits.maxProperties && tripped ==>
            operationLimitReported && old(operations) + StepSpend(pair.left, pair.right) > limits.maxOperations + paid)
    }

    /** One comparison step on arrays: pushes the pairs of items, unless the lengths differ. */
    method CompareItems(pair: EqualPair) returns (ok: bool, more: seq<EqualPair>)
      requires Valid() && pair.left.Arr? && pair.right.Arr?
      modifies this`operations, this`operationLimitReported, this`tripped, collector, primaryCollector
      ensures Compared(pair, ok, more, 1)
    {
      var left, right := pair.left.items, pair.right.items;
      more := [];
      ok := ConsumeOperation(pair.path);
      if !ok {
        return;
      }
      if |left| > limits.maxProperties || |right| > limits.maxProperties {
        Report(pair.path, "maxProperties");
        tripped := true;
        return false, more;
      }
      if |left| != |right| {
        return false, more;
      }
      for index := |left| downto 0
        invariant Kept() && ok && tripped == old(tripped)
        invariant operations == old(operations) + 1 + |left| - index
        invariant more == ItemPairs(left, right, pair.path, index)
      {
        ok := ConsumeOperation(pair.path + [Index(index)]);
        if !ok {
          return;
        }
        more := more + [EqualPair(left[index], right[index], pair.path + [Index(index)])];
      }
    }

    /** One comparison step on objects: pushes the pairs of properties, unless the keys differ. */
    method CompareFields(pair: EqualPair) returns (ok: bool, more: seq<EqualPair>)
      requires Valid() && pair.left.Obj? && pair.right.Obj?
      modifies this`operations, this`operationLimitReported, this`tripped, collector, primaryCollector
      ensures Compared(pair, ok, more, 1)
    {
      var left, right := pair.left.fields, pair.right.fields;
      more := [];
      ok := ReadKeys(left, pair.path);
      var rightOk := ReadKeys(right, pair.path);
      ok := ok && rightOk && |left| == |right|;
      if ok {
        ok, more := PushFields(pair, left, right);
      }
    }

    /** Pushes the pairs of properties, the last one first, up to the first key that differs. */
    method PushFields(pair: EqualPair, left: seq<Field>, right: seq<Field>) returns (ok: bool, more: seq<EqualPair>)
      requires Valid() && |left| == |right|
      modifies this`operations, this`operationLimitReported, this`tripped, primaryCollector
      ensures Kept()
      ensures ok ==> SameKeys(left, right) && more == FieldPairs(left, right, pair.path, 0) && tripped == old(tripped)
      ensures !ok && !tripped ==> !SameKeys(left, right)
      ensures !tripped ==> operations == old(operations) + KeysSpend(left, right, |left|)
      ensures old(!tripped) && tripped ==>
                operationLimitReported && old(operations) + KeysSpend(left, right, |left|) > limits.maxOperations
    {
      ok, more := true, [];
      for index := |left| downto 0
        invariant Kept() && ok && tripped == old(tripped)
        invariant operations + KeysSpend(left, right, index) == old(operations) + KeysSpend(left, right, |left|)
        invariant forall i :: index <= i < |left| ==> left[i].key == right[i].key
        invariant more == FieldPairs(left, right, pair.path, index)
      {
        if left[index].key != right[index].key {
          return false, more;
        }
        ok := ConsumeOperation(pair.path + [Key(left[index].key)]);
        if !ok {
          return;
        }
        more := more + [EqualPair(left[index].value, right[index].value, pair.path + [Key(left[index].key)])];
      }
    }

    /** Takes one pair off the stack; `more` are the pairs that remain in its place. */
    method ComparePair(pair: EqualPair) returns (ok: bool, more: seq<EqualPair>)
      requires Valid()
      modifies this`operations, this`operationLimitReported, this`tripped, collector, primaryCollector
      ensures Compared(pair, ok, more, 0)
    {
      more := [];
      ok := ConsumeOperation(pair.path);
      if !ok || (!IsContainer(pair.left) && pair.left == pair.right) {
        return;
      }
      if pair.left.Arr? && pair.right.Arr? {
        ok, more := CompareItems(pair);
      } else if pair.left.Obj? && pair.right.Obj? {
        ok, more := CompareFields(pair);
      } else {
        ok := false;
      }
    }

    /** Decides equality of two trees with an explicit stack. */
    method DeepEqual(left: Value, right: Value, path: seq<Segment>) returns (equal: bool)
      requires Valid()
      modifies this`operations, this`operationLimitReported, this`tripped, collector, primaryCollector
      ensures Kept()
      ensures equal ==> left == right
      ensures !equal && !tripped ==> left != right
      ensures Within(EqualCost(left, right) <= limits.maxProperties, EqualSpend(left, right), 0)
    {
      var pending := [EqualPair(left, right, path)];
      OnePending(pending[0]);
      PendingSpendTop([], pending[0]);
      assert [] + pending == pending;
      while pending != []
        invariant Kept() && tripped == old(tripped)
        invariant AllEqual(pending) <==> left == right
        invariant PendingCost(pending) < EqualCost(left, right)
        invariant !tripped ==> operations + PendingSpend(pending) == old(operations) + EqualSpend(left, right)
        decreases PendingCost(pending)
      {
        var pair, rest := pending[|pending| - 1], pending[..|pending| - 1];
        TakesTop(pending, rest, pair);
        var ok, more := ComparePair(pair);
        if !ok {
          return false;
        }
        InsideMeans(pair);
        AllEqualConcat(rest, more);
        PendingCostConcat(rest, more);
        pending := rest + more;
      }
      return true;
    }

    // ----- The evaluator -----

    /** Everything in progress surrounds `v` or is `v`. */
    ghost predicate Encloses(v: Value)
      reads this
    {
      && (forall a :: a in activeValues ==> Size(v) <= Size(a))
      && (forall i :: 0 <= i < |refs| ==> Size(v) <= Size(refs[i].value))
    }

    lemma InsidePlaced(v: Value, w: Value)
      requires Encloses(v) && Size(w) < Size(v)
      ensures Placed(w) && GuardAt(w) == Guard({})
    {
    }

    /** With `left` operations: for simple plans and unions of them the verdict under every limit on
        operations and depth, and for any union, where depth and width suffice and no limit was hit
        before, the verdict by the operations that are left. */
    ghost predicate Foretold(plan: Plan, value: Value, depth: nat, b: Budget, left: nat, unhurt: bool, valid: bool)
      requires b.Guard?
    {
      && (Foreseeable(plan) ==> valid == LimitedVerdict(doc, plan, value, limits.maxDepth, depth, left))
      && (valid ==> left >= 1)
      && (UnionFor(plan, value) && depth <= limits.maxDepth && unhurt && left >= 1
          && SpaciousAt(b, plan.kind.branches, value, depth) ==>
            PaidVerdict(doc, b, plan.kind.branches, plan.kind.oneOf, value, left - 1, valid))
    }

    method Evaluate(plan: Plan, value: Value, path: seq<Segment>, depth: nat, ghost b: Budget, ghost left: nat)
      returns (valid: bool)
      requires Valid() && Placed(value) && b == GuardAt(value) && left == Left(operations)
      modifies this, collector, primaryCollector
      ensures Judged(valid, Holds(doc, b, plan, value), Passes(doc, b, plan, value, depth, limits.maxDepth))
      ensures Within(Clear(doc, Place(b, plan, value), depth, limits), Spend(doc, b, plan, value), 0)
      ensures Foretold(plan, value, depth, b, left, old(!tripped), valid)
      ensures Simple(plan) ==> operations == old(operations) + if left >= 1 then 1 else 0
      decreases value, Room(Names(doc), b), 1, plan, 1
    {
      var ok := ConsumeOperation(path);
      if !ok {
        return false;
      }
      valid := EvaluatePaid(plan, value, path, depth, b, left);
    }

    /** A plan that has taken its own operation. */
    method EvaluatePaid(plan: Plan, value: Value, path: seq<Segment>, depth: nat, ghost b: Budget, ghost left: nat)
      returns (valid: bool)
      requires Valid() && Placed(value) && b == GuardAt(value) && left == Left(operations) + 1
      modifies this, collector, primaryCollector
      ensures Judged(valid, Holds(doc, b, plan, value), Passes(doc, b, plan, value, depth, limits.maxDepth))
      ensures Within(Clear(doc, Place(b, plan, value), depth, limits), Spend(doc, b, plan, value) - 1, 0)
      ensures Foretold(plan, value, depth, b, left, old(!tripped), valid)
      ensures Simple(plan) ==> operations == old(operations)
      decreases value, Room(Names(doc), b), 1, plan, 0
    {
      if plan.Fixed? {
        valid := Check(plan.accept, path, "never", true);
      } else {
        valid := EvaluateNode(plan, value, path, depth, b);
      }
    }

    /** A plan that is not a constant, once it has taken its own operation. */
    method EvaluateNode(plan: Plan, value: Value, path: seq<Segment>, depth: nat, ghost b: Budget)
      returns (valid: bool)
      requires Valid() && Placed(value) && b == GuardAt(value) && plan.Node?
      modifies this, collector, primaryCollector
      ensures Judged(valid, Holds(doc, b, plan, value),
                     Passes(doc, b, plan, value, depth, limits.maxDepth))
      ensures Within(Clear(doc, Place(b, plan, value), depth, limits),
                     Spend(doc, b, plan, value) - 1, 0)
      ensures if plan.nullable && value.Null? then valid && operations == old(operations)
              else if depth <= limits.maxDepth then Tallied(plan.kind, value, depth, b, valid)
              else !valid && operations == old(operations)
      decreases value, Room(Names(doc), b), 1, plan.kind, 4
    {
      if plan.nullable && value.Null? {
        return true;
      }
      if Clear(doc, Place(b, plan, value), depth, limits) {
        ClearInside(doc, b, plan.nullable, plan.kind, value, depth, limits);
      }
      valid := EvaluateAtDepth(plan.kind, value, path, depth, b);
    }

    method EvaluateAtDepth(kind: Kind, value: Value, path: seq<Segment>, depth: nat, ghost b: Budget)
      returns (valid: bool)
      requires Valid() && Placed(value) && b == GuardAt(value)
      modifies this, collector, primaryCollector
      ensures Judged(valid, KindHolds(doc, b, kind, value),
                     depth <= limits.maxDepth
                         && KindPasses(doc, b, kind, value, depth, limits.maxDepth))
      ensures Within(depth <= limits.maxDepth && ClearKind(doc, b, kind, value, depth, limits),
                     KindSpend(doc, b, kind, value), 0)
      ensures if depth <= limits.maxDepth then Tallied(kind, value, depth, b, valid)
              else !valid && operations == old(operations)
      decreases value, Room(Names(doc), b), 1, kind, 3
    {
      if depth > limits.maxDepth {
        tripped := true;
        Report(path, "maxDepth");
        return false;
      }
      valid := EvaluateKind(kind, value, path, depth, b);
    }

    /** The same for a kind, once its plan has taken its own operation. */
    twostate predicate Tallied(kind: Kind, value: Value, depth: nat, b: Budget, valid: bool)
      requires b.Guard?
      reads this
    {
      && (ForeseeableKind(kind) ==>
            valid == LimitedKind(doc, kind, value, depth >= limits.maxDepth, Left(old(operations))))
      && (SimpleKind(kind) ==> operations == old(operations))
      && (kind.Union? && old(!tripped) && SpaciousAt(b, kind.branches, value, depth) ==>
            PaidVerdict(doc, b, kind.branches, kind.oneOf, value, Left(old(operations)), valid))
    }

    method EvaluateKind(kind: Kind, value: Value, path: seq<Segment>, depth: nat, ghost b: Budget)
      returns (valid: bool)
      requires Valid() && Placed(value) && b == GuardAt(value)
      modifies this, collector, primaryCollector
      ensures Judged(valid, KindHolds(doc, b, kind, value),
                     KindPasses(doc, b, kind, value, depth, limits.maxDepth))
      ensures Within(ClearKind(doc, b, kind, value, depth, limits),
                     KindSpend(doc, b, kind, value), 0)
      ensures Tallied(kind, value, depth, b, valid)
      decreases value, Room(Names(doc), b), 1, kind, 2
    {
      if Scalar(kind) {
        valid := EvaluateScalar(kind, value, path, depth, b);
      } else if Composite(kind) {
        valid := EvaluateComposite(kind, value, path, depth, b);
      } else {
        valid := EvaluateNested(kind, value, path, depth, b);
      }
    }

    predicate Composite(kind: Kind) {
      kind.Union? || kind.Intersection? || kind.Ref?
    }

    /** Other plans on the same value. */
    method EvaluateComposite(kind: Kind, value: Value, path: seq<Segment>, depth: nat, ghost b: Budget)
      returns (valid: bool)
      requires Valid() && Placed(value) && b == GuardAt(value) && Composite(kind)
      modifies this, collector, primaryCollector
      ensures Judged(valid, KindHolds(doc, b, kind, value),
                     KindPasses(doc, b, kind, value, depth, limits.maxDepth))
      ensures Within(ClearKind(doc, b, kind, value, depth, limits),
                     KindSpend(doc, b, kind, value), 0)
      ensures Tallied(kind, value, depth, b, valid)
      decreases value, Room(Names(doc), b), 1, kind, 1
    {
      ClearCompositeMeans(doc, b, kind, value, depth, limits);
      match kind
      case Union(_, _) =>
        valid := EvaluateUnion(kind, value, path, depth, b);
      case Intersection(_) =>
        valid := EvaluateIntersection(kind, value, path, depth, b);
      case Ref(reference) =>
        valid := EvaluateReference(reference, value, path, depth, b);
    }

    predicate Scalar(kind: Kind) {
      SimpleKind(kind) || kind.StringKind? || kind.Literal? || kind.Enum?
    }

    /** The kinds without plans inside. */
    method EvaluateScalar(kind: Kind, value: Value, path: seq<Segment>, depth: nat, ghost b: Budget)
      returns (valid: bool)
      requires Valid() && b.Guard? && Scalar(kind)
      modifies this`operations, this`operationLimitReported, this`tripped, collector, primaryCollector
      ensures Judged(valid, KindHolds(doc, b, kind, value),
                     KindHolds(doc, b, kind, value))
      ensures Within(NarrowKind(kind, value, limits.maxProperties),
                     KindSpend(doc, b, kind, value), 0)
      ensures SimpleKind(kind) ==> valid == KindHolds(doc, Guard({}), kind, value) && operations == old(operations)
    {
      match kind
      case Any =>
        return true;
      case Never =>
        Report(path, "never");
        return false;
      case NullKind =>
        valid := CheckType(value.Null?, path);
      case BooleanKind =>
        valid := CheckType(value.Bool?, path);
      case StringKind(_) =>
        valid := EvaluateString(kind, value, path, depth, b);
      case NumberKind(_, _) =>
        valid := EvaluateNumber(kind, value, path, b);
      case Literal(_) =>
        valid := EvaluateLiteral(kind, value, path, depth, b);
      case Enum(_) =>
        valid := EvaluateEnum(kind, value, path, depth, b);
    }

    method EvaluateNested(kind: Kind, value: Value, path: seq<Segment>, depth: nat, ghost b: Budget)
      returns (valid: bool)
      requires Valid() && Placed(value) && b == GuardAt(value)
              && (kind.ArrayKind? || kind.TupleKind? || kind.ObjectKind?)
      modifies this, collector, primaryCollector
      ensures Judged(valid, KindHolds(doc, b, kind, value),
                     KindPasses(doc, b, kind, value, depth, limits.maxDepth))
      ensures Within(ClearKind(doc, b, kind, value, depth, limits),
                     KindSpend(doc, b, kind, value), 0)
      decreases value, Room(Names(doc), b), 1, kind, 0
    {
      NestedMeans(doc, b, kind, value);
      NestedPasses(doc, b, kind, value, depth, limits);
      if !Fits(kind, value) {
        valid := CheckType(false, path);
        return;
      }
      valid := EvaluateEntered(kind, value, path, depth);
    }

    /** Arrays, tuples and objects: the value is active while its parts are evaluated. */
    method EvaluateEntered(kind: Kind, value: Value, path: seq<Segment>, depth: nat) returns (valid: bool)
      requires Valid() && Placed(value) && Fits(kind, value)
      modifies this, collector, primaryCollector
      ensures Judged(valid, NestedHolds(doc, kind, value),
                     KindPasses(doc, Guard({}), kind, value, depth, limits.maxDepth))
      ensures Within(ClearNested(doc, kind, value, depth, limits), NestedSpend(doc, kind, value), 0)
      decreases value, 0, 0, 4
    {
      var entered := EnterValue(value, path);
      assert entered;
      if kind.ArrayKind? {
        valid := EvaluateArray(kind, value, path, depth);
      } else if kind.TupleKind? {
        valid := EvaluateTuple(kind, value, path, depth);
      } else {
        valid := EvaluateObject(kind, value, path, depth);
      }
      activeValues := activeValues - {value};
    }

    method CheckType(matches: bool, path: seq<Segment>) returns (valid: bool)
      requires Valid()
      modifies collector
      ensures unchanged(this) && Judged(valid, matches, matches) && valid == matches
    {
      if !matches {
        Report(path, "type");
      }
      return matches;
    }

    method Check(condition: bool, path: seq<Segment>, code: string, valid: bool) returns (still: bool)
      requires Valid() && (!valid ==> Explained())
      modifies collector
      ensures unchanged(this) && Kept()
      ensures still == (valid && condition) && (!still ==> Explained())
    {
      if !condition {
        Report(path, code);
      }
      still := valid && condition;
    }

    method EvaluateString(kind: Kind, value: Value, path: seq<Segment>, depth: nat, ghost b: Budget)
      returns (valid: bool)
      requires Valid() && b.Guard? && kind.StringKind?
      modifies this`operations, this`operationLimitReported, this`tripped, collector, primaryCollector
      ensures Judged(valid, KindHolds(doc, b, kind, value),
                     KindHolds(doc, b, kind, value))
      ensures Within(true, KindSpend(doc, b, kind, value), 0)
    {
      if !value.Str? {
        valid := CheckType(false, path);
        return;
      }
      var length := 0;
      while length < |value.s|
        invariant Kept() && length <= |value.s|
        invariant Within(true, |value.s|, |value.s| - length)
      {
        var ok := ConsumeOperation(path);
        if !ok {
          return false;
        }
        length := length + 1;
      }
      var l := kind.limits;
      valid := Check(AtLeast(l.minLength, length), path, "minLength", true);
      valid := Check(AtMost(l.maxLength, length), path, "maxLength", valid);
      valid := Check(l.pattern.Some? ==> doc.host.matches(l.pattern.value, value.s), path, "pattern", valid);
      valid := Check(l.format.Some? ==> doc.host.conforms(l.format.value, value.s), path, "format", valid);
    }

    method EvaluateNumber(kind: Kind, value: Value, path: seq<Segment>, ghost b: Budget) returns (valid: bool)
      requires Valid() && b.Guard? && kind.NumberKind?
      modifies collector
      ensures unchanged(this)
      ensures Judged(valid, KindHolds(doc, b, kind, value), KindHolds(doc, b, kind, value))
      ensures valid == KindHolds(doc, b, kind, value)
    {
      if !value.Num? || (kind.integer && !IsInteger(value)) {
        valid := CheckType(false, path);
        return;
      }
      var r, n := kind.range, value.n;
      valid := Check(r.minimum.Some? ==> r.minimum.value <= n, path, "minimum", true);
      valid := Check(r.maximum.Some? ==> n <= r.maximum.value, path, "maximum", valid);
      valid := Check(r.exclusiveMinimum.Some? ==> r.exclusiveMinimum.value < n, path, "exclusiveMinimum", valid);
      valid := Check(r.exclusiveMaximum.Some? ==> n < r.exclusiveMaximum.value, path, "exclusiveMaximum", valid);
      valid := Check(r.multipleOf.Some? ==> doc.host.multiple(n, r.multipleOf.value), path, "multipleOf", valid);
    }

    method EvaluateLiteral(kind: Kind, value: Value, path: seq<Segment>, depth: nat, ghost b: Budget)
      returns (valid: bool)
      requires Valid() && b.Guard? && kind.Literal?
      modifies this`operations, this`operationLimitReported, this`tripped, collector, primaryCollector
      ensures Judged(valid, KindHolds(doc, b, kind, value),
                     KindHolds(doc, b, kind, value))
      ensures Within(NarrowKind(kind, value, limits.maxProperties),
                     KindSpend(doc, b, kind, value), 0)
    {
      valid := DeepEqual(kind.value, value, path);
      if !valid {
        Report(path, "const");
      }
    }

    method EvaluateEnum(kind: Kind, value: Value, path: seq<Segment>, depth: nat, ghost b: Budget)
      returns (valid: bool)
      requires Valid() && b.Guard? && kind.Enum?
      modifies this`operations, this`operationLimitReported, this`tripped, collector, primaryCollector
      ensures Judged(valid, KindHolds(doc, b, kind, value),
                     KindHolds(doc, b, kind, value))
      ensures Within(NarrowKind(kind, value, limits.maxProperties),
                     KindSpend(doc, b, kind, value), 0)
    {
      ghost var narrow, spend := NarrowKind(kind, value, limits.maxProperties), EnumSpend(kind.values, value, 0);
      for i := 0 to |kind.values|
        invariant Kept()
        invariant !tripped ==> value !in kind.values[..i]
        invariant Within(narrow, spend, EnumSpend(kind.values, value, i))
      {
        var ok, equal := TryMember(kind.values[i], value, path);
        if !ok || equal {
          return equal;
        }
      }
      assert kind.values[..|kind.values|] == kind.values;
      Report(path, "enum");
      return false;
    }

    method EvaluateIntersection(kind: Kind, value: Value, path: seq<Segment>, depth: nat, ghost b: Budget)
      returns (valid: bool)
      requires Valid() && Placed(value) && b == GuardAt(value) && kind.Intersection?
      modifies this, collector, primaryCollector
      ensures Judged(valid, KindHolds(doc, b, kind, value),
                     KindPasses(doc, b, kind, value, depth, limits.maxDepth))
      ensures Within(ClearBranches(doc, b, kind.allOf, value, depth, limits),
                     KindSpend(doc, b, kind, value), 0)
      decreases value, Room(Names(doc), b), 1, kind, 0
    {
      IntersectionMeans(doc, b, kind, value);
      valid := EvaluateAll(kind.allOf, value, path, depth, b);
    }

    method TryMember(candidate: Value, value: Value, path: seq<Segment>) returns (ok: bool, equal: bool)
      requires Valid()
      modifies this`operations, this`operationLimitReported, this`tripped, collector, primaryCollector
      ensures Kept() && (!ok ==> tripped && !equal && Explained())
      ensures equal ==> candidate == value
      ensures !equal && !tripped ==> candidate != value
      ensures Within(EqualCost(candidate, value) <= limits.maxProperties, 1 + EqualSpend(candidate, value), 0)
    {
      equal := false;
      ok := ConsumeOperation(path);
      if ok {
        equal := DeepEqual(candidate, value, path);
      }
    }

    method EvaluateAll(branches: seq<Plan>, value: Value, path: seq<Segment>, depth: nat, ghost b: Budget)
      returns (valid: bool)
      requires Valid() && Placed(value) && b == GuardAt(value)
      modifies this, collector, primaryCollector
      ensures Judged(valid, EveryBranch(doc, b, branches, value, 0),
                     BranchesPass(doc, b, branches, value, 0, depth, limits.maxDepth))
      ensures Within(ClearBranches(doc, b, branches, value, depth, limits),
                     BranchesSpend(doc, b, branches, value, 0), 0)
      decreases value, Room(Names(doc), b), 1, branches
    {
            ghost var spend := BranchesSpend(doc, b, branches, value, 0);
      ghost var clear := ClearBranches(doc, b, branches, value, depth, limits);
      valid := true;
      for i := 0 to |branches|
        invariant Walking(valid, EveryBranch(doc, b, branches, value, i), EveryBranch(doc, b, branches, value, 0),
                          BranchesPass(doc, b, branches, value, i, depth, limits.maxDepth),
                          BranchesPass(doc, b, branches, value, 0, depth, limits.maxDepth))
        invariant Within(clear, spend, BranchesSpend(doc, b, branches, value, i))
      {
        var branch := EvaluateConjunct(branches[i], value, path, depth, b);
        valid := valid && branch;
      }
    }

    /** Takes an operation for a branch of an intersection and evaluates it. */
    method EvaluateConjunct(plan: Plan, value: Value, path: seq<Segment>, depth: nat, ghost b: Budget)
      returns (valid: bool)
      requires Valid() && Placed(value) && b == GuardAt(value)
      modifies this, collector, primaryCollector
      ensures Judged(valid, Holds(doc, b, plan, value),
                     Passes(doc, b, plan, value, depth + 1, limits.maxDepth))
      ensures Within(Clear(doc, Place(b, plan, value), depth + 1, limits),
                     1 + Spend(doc, b, plan, value), 0)
      decreases value, Room(Names(doc), b), 1, plan, 2
    {
      var ok := ConsumeOperation(path);
      if !ok {
        return false;
      }
      valid := Evaluate(plan, value, path, depth + 1, b, Left(operations));
    }

    method EvaluateReference(reference: string, value: Value, path: seq<Segment>, depth: nat, ghost b: Budget)
      returns (valid: bool)
      requires Valid() && Placed(value) && b == GuardAt(value)
      modifies this, collector, primaryCollector
      ensures Judged(valid, NameHolds(doc, b, NormalizeReference(doc.host, reference), value),
                     NamePasses(doc, b, NormalizeReference(doc.host, reference), value, depth,
                                limits.maxDepth))
      ensures Within(ClearName(doc, b, NormalizeReference(doc.host, reference), value, depth,
                               limits), 1 + NameSpend(doc, b,
                                                      NormalizeReference(doc.host, reference), value), 0)
      decreases value, Room(Names(doc), b), 0, 2
    {
      var ok := ConsumeOperation(path);
      if !ok {
        return false;
      }
      var name := NormalizeReference(doc.host, reference);
      if Target(doc, name).None? {
        Report(path, "ref");
        return false;
      }
      if exists i :: 0 <= i < |refs| && refs[i].name == name && refs[i].value == value {
        Report(path, if value in activeValues then "cycle" else "refCycle");
        return false;
      }
      valid := FollowReference(name, value, path, depth, b);
    }

    method FollowReference(name: string, value: Value, path: seq<Segment>, depth: nat, ghost b: Budget)
      returns (valid: bool)
      requires Valid() && Placed(value) && b == GuardAt(value) && Target(doc, name).Some? && CanFollow(b, name)
      modifies this, collector, primaryCollector
      ensures Judged(valid, NameHolds(doc, b, name, value),
                     NamePasses(doc, b, name, value, depth, limits.maxDepth))
      ensures Within(ClearName(doc, b, name, value, depth, limits),
                     NameSpend(doc, b, name, value), 0)
      decreases value, Room(Names(doc), b), 0, 1
    {
      FollowingMeans(doc, b, name, value);
      valid := EvaluateUnder(name, Target(doc, name).value, value, path, depth + 1, Follow(b, name));
    }

    /** Evaluates a plan while `name` counts as being followed on `value`. */
    method EvaluateUnder(name: string, plan: Plan, value: Value, path: seq<Segment>, depth: nat, ghost b: Budget)
      returns (valid: bool)
      requires Valid() && Placed(value) && name in Names(doc) && CanFollow(GuardAt(value), name)
      requires b == Follow(GuardAt(value), name)
      modifies this, collector, primaryCollector
      ensures Judged(valid, Holds(doc, b, plan, value), Passes(doc, b, plan, value, depth, limits.maxDepth))
      ensures Within(Clear(doc, Place(b, plan, value), depth, limits), Spend(doc, b, plan, value), 0)
      decreases value, Room(Names(doc), GuardAt(value)), 0, 0
    {
      FollowShrinks(Names(doc), GuardAt(value), name);
      PushReference(name, value);
      valid := Evaluate(plan, value, path, depth, b, Left(operations));
      refs := refs[..|refs| - 1];
    }

    method PushReference(name: string, value: Value)
      requires Valid() && Placed(value) && CanFollow(GuardAt(value), name)
      modifies this`refs
      ensures Valid() && Placed(value) && refs == old(refs) + [RefFrame(name, value)]
      ensures GuardAt(value) == Follow(old(GuardAt(value)), name)
    {
      FollowOneMore(refs, name, value);
      refs := refs + [RefFrame(name, value)];
    }

    method EvaluateUnion(kind: Kind, value: Value, path: seq<Segment>, depth: nat, ghost b: Budget)
      returns (valid: bool)
      requires Valid() && Placed(value) && b == GuardAt(value) && kind.Union?
      modifies this, collector, primaryCollector
      ensures Judged(valid, KindHolds(doc, b, kind, value),
                     KindPasses(doc, b, kind, value, depth, limits.maxDepth))
      ensures Within(ClearBranches(doc, b, kind.branches, value, depth, limits),
                     KindSpend(doc, b, kind, value), 0)
      ensures Tallied(kind, value, depth, b, valid)
      decreases value, Room(Names(doc), b), 1, kind, 0
    {
      UnionMeans(doc, b, kind, value);
      valid := Select(kind.branches, kind.oneOf, value, path, depth, b);
    }

    method Select(branches: seq<Plan>, oneOf: bool, value: Value, path: seq<Segment>, depth: nat, ghost b: Budget)
      returns (valid: bool)
      requires Valid() && Placed(value) && b == GuardAt(value)
      modifies this, collector, primaryCollector
      ensures Judged(valid, Selected(oneOf, HoldCount(doc, b, branches, value, |branches|)),
                     SomePasses(doc, b, branches, value, depth, limits.maxDepth))
      ensures Within(ClearBranches(doc, b, branches, value, depth, limits), BranchesSpend(doc, b, branches, value, 0),
                     0)
      ensures AllSimple(branches) ==>
                var matches := SimpleMatches(doc, branches, value, depth >= limits.maxDepth, 0, Left(old(operations)));
                valid == Selected(oneOf, matches)
      ensures old(!tripped) && SpaciousAt(b, branches, value, depth) ==>
                PaidVerdict(doc, b, branches, oneOf, value, Left(old(operations)), valid)
      decreases value, Room(Names(doc), b), 1, branches, 1
    {
      var matches, trace := CountMatches(branches, value, path, depth, b);
      TraceSelects(doc, b, branches, value, oneOf, old(!tripped) && SpaciousAt(b, branches, value, depth),
                   limits.maxDepth, depth, Left(old(operations)), trace);
      valid := Check(Selected(oneOf, matches), path, if oneOf then "oneOf" else "union", true);
    }

    /** Depth and width are within the limits whatever the branches do. */
    ghost predicate SpaciousAt(b: Budget, branches: seq<Plan>, value: Value, depth: nat)
      requires b.Guard?
    {
      ClearBranches(doc, b, branches, value, depth, limits)
    }

    /** Counts the branches that accept, until the operations run out. */
    method CountMatches(branches: seq<Plan>, value: Value, path: seq<Segment>, depth: nat, ghost b: Budget)
      returns (matches: nat, ghost trace: seq<Ran>)
      requires Valid() && Placed(value) && b == GuardAt(value)
      modifies this, primaryCollector
      ensures Kept() && matches == Valids(trace)
      ensures Trace(doc, b, branches, value, old(!tripped) && SpaciousAt(b, branches, value, depth),
                    limits.maxDepth, depth, Left(old(operations)), trace)
      ensures LeftAfter(Left(old(operations)), trace) == Left(operations)
      ensures |trace| < |branches| ==> tripped && operationLimitReported && operations == limits.maxOperations
      ensures |trace| == |branches| ==> tripped == if trace == [] then old(tripped) else CutAfter(trace)
      ensures tripped && old(!tripped) && SpaciousAt(b, branches, value, depth) ==> operationLimitReported
      decreases value, Room(Names(doc), b), 1, branches, 0
    {
      ghost var left, room := Left(operations), !tripped && SpaciousAt(b, branches, value, depth);
      matches, trace := 0, [];
      for i := 0 to |branches|
        invariant Kept() && |trace| == i && matches == Valids(trace)
        invariant Trace(doc, b, branches, value, room, limits.maxDepth, depth, left, trace)
        invariant LeftAfter(left, trace) == Left(operations) && (CutAfter(trace) ==> tripped)
        invariant tripped == if trace == [] then old(tripped) else CutAfter(trace)
        invariant tripped && room ==> operationLimitReported
      {
        var reached, branch;
        reached, branch, trace := CountNext(branches, i, value, path, depth, room, left, trace, b);
        if !reached {
          break;
        }
        matches := matches + if branch then 1 else 0;
      }
    }

    /** Branch `i`, after those in `before`. */
    method CountNext(branches: seq<Plan>, i: nat, value: Value, path: seq<Segment>, depth: nat, ghost room: bool,
                     ghost left: nat, ghost before: seq<Ran>, ghost b: Budget)
      returns (reached: bool, valid: bool, ghost trace: seq<Ran>)
      requires Valid() && Placed(value) && b == GuardAt(value) && |before| == i < |branches|
      requires Trace(doc, b, branches, value, room, limits.maxDepth, depth, left, before)
      requires LeftAfter(left, before) == Left(operations) && (CutAfter(before) ==> tripped)
      requires room ==>
                SpaciousAt(b, branches, value, depth) && tripped == CutAfter(before)
                    && (tripped ==> operationLimitReported)
      modifies this, primaryCollector
      ensures Kept()
      ensures !reached ==>
                tripped && operationLimitReported && trace == before && operations == limits.maxOperations
      ensures reached ==>
                && |trace| == |before| + 1 && Valids(trace) == Valids(before) + (if valid then 1 else 0)
                && CutAfter(trace) == tripped
      ensures Trace(doc, b, branches, value, room, limits.maxDepth, depth, left, trace)
      ensures LeftAfter(left, trace) == Left(operations)
      ensures tripped && room ==> operationLimitReported
      decreases value, Room(Names(doc), b), 1, branches[i], 4
    {
      reached, valid := CountBranch(branches[i], value, path, depth, b, room && !CutAfter(before));
      trace := before;
      if reached {
        ghost var ran := Ran(valid, LeftAfter(left, before), Left(operations), tripped);
        TraceMore(doc, b, branches, value, room, limits.maxDepth, depth, left, before, ran);
        trace := before + [ran];
      }
    }

    /** Takes an operation for a branch and, if one was left, evaluates the branch. */
    method CountBranch(plan: Plan, value: Value, path: seq<Segment>, depth: nat, ghost b: Budget, ghost room: bool)
      returns (reached: bool, valid: bool)
      requires Valid() && Placed(value) && b == GuardAt(value)
      requires room ==> !tripped && Clear(doc, Place(b, plan, value), depth + 1, limits)
      modifies this, primaryCollector
      ensures Kept() && reached == (old(operations) < limits.maxOperations)
      ensures !reached ==> tripped && operationLimitReported && operations == old(operations)
      ensures reached ==>
                Fitting(doc, b, plan, value, room, limits.maxDepth, depth,
                        Ran(valid, Left(old(operations)), Left(operations), tripped))
      ensures room && tripped ==> operationLimitReported
      decreases value, Room(Names(doc), b), 1, plan, 3
    {
      reached := ConsumeOperation(path);
      valid := false;
      if reached {
        valid := EvaluateBranch(plan, value, path, depth + 1, b);
      }
    }

    /** Evaluates one alternative under a collector of its own that is dropped afterwards. */
    method EvaluateBranch(plan: Plan, value: Value, path: seq<Segment>, depth: nat, ghost b: Budget)
      returns (valid: bool)
      requires Valid() && Placed(value) && b == GuardAt(value)
      modifies this, primaryCollector
      ensures Kept()
      ensures !tripped ==> valid == Holds(doc, b, plan, value)
      ensures valid ==> Passes(doc, b, plan, value, depth, limits.maxDepth)
      ensures Within(Clear(doc, Place(b, plan, value), depth, limits), Spend(doc, b, plan, value), 0)
      ensures Foretold(plan, value, depth, b, Left(old(operations)), old(!tripped), valid)
      ensures Simple(plan) ==> operations == old(operations) + if old(operations) < limits.maxOperations then 1 else 0
      decreases value, Room(Names(doc), b), 1, plan, 2
    {
      var previous := collector;
      collector := new IssueCollector(1);
      valid := Evaluate(plan, value, path, depth, b, Left(operations));
      collector := previous;
    }

    // ----- Nested values -----

    method EnterValue(value: Value, path: seq<Segment>) returns (entered: bool)
      requires Valid()
      modifies this`activeValues, collector
      ensures Valid() && entered == (value !in old(activeValues))
      ensures activeValues == old(activeValues) + {value}
      ensures entered ==> collector.issues == old(collector.issues)
    {
      if value in activeValues {
        Report(path, "cycle");
        return false;
      }
      activeValues := activeValues + {value};
      return true;
    }

    /** Spends one operation, then evaluates a value nested in `whole`. */
    method EvaluateInside(plan: Plan, value: Value, whole: Value, path: seq<Segment>, depth: nat) returns (valid: bool)
      requires Valid() && Encloses(whole) && Size(value) < Size(whole)
      modifies this, collector, primaryCollector
      ensures Judged(valid, Holds(doc, Guard({}), plan, value),
                     Passes(doc, Guard({}), plan, value, depth + 1, limits.maxDepth))
      ensures Within(Clear(doc, Place(Guard({}), plan, value), depth + 1, limits),
                     1 + Spend(doc, Guard({}), plan, value), 0)
      decreases value, |Names(doc)| + 1
    {
      var ok := ConsumeOperation(path);
      if !ok {
        return false;
      }
      InsidePlaced(whole, value);
      assert Names(doc) - {} == Names(doc);
      valid := Evaluate(plan, value, path, depth + 1, Guard({}), Left(operations));
    }

    method EvaluateArray(kind: Kind, value: Value, path: seq<Segment>, depth: nat) returns (valid: bool)
      requires Valid() && Encloses(value) && kind.ArrayKind? && value.Arr?
      modifies this, collector, primaryCollector
      ensures Judged(valid, NestedHolds(doc, kind, value),
                     KindPasses(doc, Guard({}), kind, value, depth, limits.maxDepth))
      ensures Within(ClearNested(doc, kind, value, depth, limits), NestedSpend(doc, kind, value), 0)
      decreases value, 0, 0, 2
    {
      valid := Check(AtLeast(kind.minItems, |value.items|), path, "minItems", true);
      valid := Check(AtMost(kind.maxItems, |value.items|), path, "maxItems", valid);
      var items := EvaluateItems(kind.items, kind.prefixItems, value, path, depth);
      valid := valid && items;
    }

    method EvaluateItems(rest: Option<Plan>, prefix: seq<Plan>, value: Value, path: seq<Segment>, depth: nat)
      returns (valid: bool)
      requires Valid() && Encloses(value) && value.Arr?
      modifies this, collector, primaryCollector
      ensures Judged(valid, EveryItem(doc, rest, prefix, value, 0),
                     ItemsPass(doc, rest, prefix, value, 0, depth, limits.maxDepth))
      ensures Within(ClearItems(doc, rest, prefix, value, depth, limits), ItemsSpend(doc, rest, prefix, value, 0), 0)
      decreases value, 0, 0, 1
    {
      var i;
      valid, i := EvaluatePrefix(rest, prefix, value, path, depth, WholeItems(rest, prefix, value, depth, 0));
      var others := EvaluateRest(rest, prefix, value, path, depth, i, WholeItems(rest, prefix, value, depth, i));
      valid := valid && others;
    }

    ghost function WholeItems(rest: Option<Plan>, prefix: seq<Plan>, value: Value, depth: nat, from: nat): Whole
      requires value.Arr?
    {
      Whole(EveryItem(doc, rest, prefix, value, from),
            ItemsPass(doc, rest, prefix, value, from, depth, limits.maxDepth),
            ClearItems(doc, rest, prefix, value, depth, limits), ItemsSpend(doc, rest, prefix, value, from))
    }

    /** The items under their own prefix plans. */
    method EvaluatePrefix(rest: Option<Plan>, prefix: seq<Plan>, value: Value, path: seq<Segment>, depth: nat,
                          ghost whole: Whole)
      returns (valid: bool, i: nat)
      requires Valid() && Encloses(value) && value.Arr? && whole == WholeItems(rest, prefix, value, depth, 0)
      modifies this, collector, primaryCollector
      ensures i <= |value.items| && (i < |value.items| ==> |prefix| <= i)
      ensures Walks(valid, EveryItem(doc, rest, prefix, value, i),
                    ItemsPass(doc, rest, prefix, value, i, depth, limits.maxDepth), ItemsSpend(doc, rest, prefix,
                                                                                               value, i), whole)
      decreases value, 0, 0, 0
    {
      valid, i := true, 0;
      while i < |value.items| && i < |prefix|
        invariant i <= |value.items| && i <= |prefix|
        invariant Walks(valid, EveryItem(doc, rest, prefix, value, i),
                        ItemsPass(doc, rest, prefix, value, i, depth, limits.maxDepth), 
                        ItemsSpend(doc, rest, prefix, value, i), whole)
      {
        var item := EvaluateItem(rest, prefix, value, i, path, depth);
        ItemStep(doc, rest, prefix, value, i, depth, limits);
        valid := valid && item;
        i := i + 1;
      }
    }

    twostate predicate Walked(valid: bool, whole: Whole)
      reads this, collector, primaryCollector
    {
      Judged(valid, whole.holds, whole.passes) && Within(whole.clear, whole.spend, 0)
    }

    /** A walk in progress, with what lies ahead and what the whole comes to. */
    twostate predicate Walks(valid: bool, ahead: bool, passAhead: bool, left: nat, whole: Whole)
      reads this, collector, primaryCollector
    {
      && Walking(valid, ahead, whole.holds, passAhead, whole.passes)
      && Within(whole.clear, whole.spend, left)
    }

    method EvaluateItem(rest: Option<Plan>, prefix: seq<Plan>, value: Value, at: nat, path: seq<Segment>, depth: nat)
      returns (valid: bool)
      requires Valid() && Encloses(value) && value.Arr? && at < |value.items| && at < |prefix|
      modifies this, collector, primaryCollector
      ensures Judged(valid, ItemHolds(doc, rest, prefix, value, at),
                     ItemPasses(doc, rest, prefix, value, at, depth, limits.maxDepth))
      ensures Within(ClearItem(doc, rest, prefix, value, at, depth, limits),
                     1 + ItemSpend(doc, rest, prefix, value, at), 0)
      decreases value.items[at], |Names(doc)| + 2
    {
      valid := EvaluateInside(prefix[at], value.items[at], value, path + [Index(at)], depth);
    }

    /** The items beyond the prefix; a boolean plan is decided without evaluating it. */
    method EvaluateRest(rest: Option<Plan>, prefix: seq<Plan>, value: Value, path: seq<Segment>, depth: nat, from: nat,
                        ghost whole: Whole)
      returns (valid: bool)
      requires Valid() && Encloses(value) && value.Arr? && whole == WholeItems(rest, prefix, value, depth, from)
      requires from <= |value.items| && (from < |value.items| ==> |prefix| <= from)
      modifies this, collector, primaryCollector
      ensures Walked(valid, whole)
      decreases value, 0, 0, 0
    {
      valid := true;
      for i := from to |value.items|
        invariant Walks(valid, EveryItem(doc, rest, prefix, value, i),
                        ItemsPass(doc, rest, prefix, value, i, depth, limits.maxDepth),
                        ItemsSpend(doc, rest, prefix, value, i), whole)
      {
        var item := EvaluateExtra(rest, prefix, value, i, path, depth);
        ItemStep(doc, rest, prefix, value, i, depth, limits);
        valid := valid && item;
      }
    }

    method EvaluateExtra(rest: Option<Plan>, prefix: seq<Plan>, value: Value, at: nat, path: seq<Segment>, depth: nat)
      returns (valid: bool)
      requires Valid() && Encloses(value) && value.Arr? && |prefix| <= at < |value.items|
      modifies this, collector, primaryCollector
      ensures Judged(valid, ItemHolds(doc, rest, prefix, value, at),
                     ItemPasses(doc, rest, prefix, value, at, depth, limits.maxDepth))
      ensures Within(ClearItem(doc, rest, prefix, value, at, depth, limits),
                     1 + ItemSpend(doc, rest, prefix, value, at), 0)
      decreases value.items[at], |Names(doc)| + 2
    {
      if rest.Some? && rest.value.Node? {
        valid := EvaluateInside(rest.value, value.items[at], value, path + [Index(at)], depth);
        return;
      }
      var ok := ConsumeOperation(path + [Index(at)]);
      if !ok {
        return false;
      }
      valid := Check(rest.None? || rest.value.accept, path + [Index(at)], "items", true);
    }

    method EvaluateTuple(kind: Kind, value: Value, path: seq<Segment>, depth: nat) returns (valid: bool)
      requires Valid() && Encloses(value) && kind.TupleKind? && value.Arr?
      modifies this, collector, primaryCollector
      ensures Judged(valid, NestedHolds(doc, kind, value),
                     KindPasses(doc, Guard({}), kind, value, depth, limits.maxDepth))
      ensures Within(ClearNested(doc, kind, value, depth, limits), NestedSpend(doc, kind, value), 0)
      decreases value, 0, 0, 2
    {
      ghost var whole := WholeTuple(kind.rest, kind.members, value, depth);
      valid := EvaluateMembers(kind.rest, kind.members, value, path, depth, whole);
      if |kind.members| <= |value.items| {
        var tail := EvaluateTail(kind.rest, kind.members, value, path, depth);
        valid := valid && tail;
      }
    }

    /** The verdict on a tuple whose items before `from` are fine. */
    ghost predicate TupleAhead(rest: Option<Plan>, members: seq<Plan>, value: Value, from: nat)
      requires value.Arr?
    {
      && |members| <= |value.items| && (rest.None? ==> |value.items| == |members|)
      && EveryItem(doc, rest, members, value, from)
    }

    ghost predicate TuplePasses(rest: Option<Plan>, members: seq<Plan>, value: Value, from: nat, depth: nat)
      requires value.Arr?
    {
      && |members| <= |value.items| && (rest.None? ==> |value.items| == |members|)
      && ItemsPass(doc, rest, members, value, from, depth, limits.maxDepth)
    }

    ghost function WholeTuple(rest: Option<Plan>, members: seq<Plan>, value: Value, depth: nat): Whole
      requires value.Arr?
    {
      Whole(TupleAhead(rest, members, value, 0), TuplePasses(rest, members, value, 0, depth),
            ClearItems(doc, rest, members, value, depth, limits),
            TupleSpend(doc, rest, members, value, 0))
    }

    /** The members of a tuple, all of which must be present. */
    method EvaluateMembers(rest: Option<Plan>, members: seq<Plan>, value: Value, path: seq<Segment>, depth: nat,
                           ghost whole: Whole)
      returns (valid: bool)
      requires Valid() && Encloses(value) && value.Arr? && whole == WholeTuple(rest, members, value, depth)
      modifies this, collector, primaryCollector
      ensures valid ==> |members| <= |value.items|
      ensures Walks(valid, TupleAhead(rest, members, value, |members|),
                    TuplePasses(rest, members, value, |members|, depth),
                    TupleSpend(doc, rest, members, value, |members|), whole)
      decreases value, 0, 0, 1
    {
      valid := true;
      for i := 0 to |members|
        invariant valid ==> i <= |value.items|
        invariant Walks(valid, TupleAhead(rest, members, value, i), TuplePasses(rest, members, value, i, depth),
                        TupleSpend(doc, rest, members, value, i), whole)
      {
        var item := EvaluateMember(rest, members, value, i, path, depth);
        MemberStep(doc, rest, members, value, i, depth, limits);
        valid := valid && item;
      }
    }

    method EvaluateMember(rest: Option<Plan>, members: seq<Plan>, value: Value, at: nat, path: seq<Segment>, depth: nat)
      returns (valid: bool)
      requires Valid() && Encloses(value) && value.Arr? && at < |members|
      modifies this, collector, primaryCollector
      ensures Judged(valid, at < |value.items| && ItemHolds(doc, rest, members, value, at),
                     at < |value.items| && ItemPasses(doc, rest, members, value, at, depth, limits.maxDepth))
      ensures Within(at < |value.items| ==> ClearItem(doc, rest, members, value, at, depth, limits),
                     1 + MemberSpend(doc, rest, members, value, at), 0)
      decreases value, 0, 0, 0
    {
      if at >= |value.items| {
        valid := MissingMember(path + [Index(at)], depth);
      } else {
        valid := EvaluateItem(rest, members, value, at, path, depth);
      }
    }

    /** The items beyond the members of a tuple. */
    method EvaluateTail(rest: Option<Plan>, members: seq<Plan>, value: Value, path: seq<Segment>, depth: nat)
      returns (valid: bool)
      requires Valid() && Encloses(value) && value.Arr? && |members| <= |value.items|
      modifies this, collector, primaryCollector
      ensures Judged(valid, TupleAhead(rest, members, value, |members|),
                     TuplePasses(rest, members, value, |members|, depth))
      ensures Within(ClearItems(doc, rest, members, value, depth, limits),
                     TupleSpend(doc, rest, members, value, |members|), 0)
      decreases value, 0, 0, 1
    {
      if |value.items| > |members| && (rest.None? || rest.value == Fixed(false)) {
        valid := Check(false, path + [Index(|members|)], "tuple", true);
        return;
      }
      valid := EvaluateOthers(rest, members, value, path, depth, WholeTail(rest, members, value, depth));
    }

    ghost function WholeTail(rest: Option<Plan>, members: seq<Plan>, value: Value, depth: nat): Whole
      requires value.Arr?
    {
      Whole(EveryItem(doc, rest, members, value, |members|),
            ItemsPass(doc, rest, members, value, |members|, depth, limits.maxDepth),
            ClearItems(doc, rest, members, value, depth, limits), TupleSpend(doc, rest, members, value, |members|))
    }

    method EvaluateOthers(rest: Option<Plan>, members: seq<Plan>, value: Value, path: seq<Segment>, depth: nat,
                          ghost whole: Whole)
      returns (valid: bool)
      requires Valid() && Encloses(value) && value.Arr? && |members| <= |value.items|
      requires |value.items| > |members| ==> rest.Some? && rest.value != Fixed(false)
      requires whole == WholeTail(rest, members, value, depth)
      modifies this, collector, primaryCollector
      ensures Walked(valid, whole)
      decreases value, 0, 0, 0
    {
      valid := true;
      for i := |members| to |value.items|
        invariant Walks(valid, EveryItem(doc, rest, members, value, i),
                        ItemsPass(doc, rest, members, value, i, depth, limits.maxDepth),
                        TupleSpend(doc, rest, members, value, i), whole)
      {
        var item := EvaluateOther(rest, members, value, i, path, depth);
        OtherStep(doc, rest, members, value, i, depth, limits);
        valid := valid && item;
      }
    }

    method EvaluateOther(rest: Option<Plan>, members: seq<Plan>, value: Value, at: nat, path: seq<Segment>, depth: nat)
      returns (valid: bool)
      requires Valid() && Encloses(value) && value.Arr? && |members| <= at < |value.items| && rest.Some?
      modifies this, collector, primaryCollector
      ensures Judged(valid, ItemHolds(doc, rest, members, value, at),
                     ItemPasses(doc, rest, members, value, at, depth, limits.maxDepth))
      ensures Within(ClearItem(doc, rest, members, value, at, depth, limits),
                     1 + MemberSpend(doc, rest, members, value, at), 0)
      decreases value.items[at], |Names(doc)| + 2
    {
      valid := EvaluateInside(rest.value, value.items[at], value, path + [Index(at)], depth);
    }

    method MissingMember(path: seq<Segment>, depth: nat) returns (valid: bool)
      requires Valid()
      modifies this`operations, this`operationLimitReported, this`tripped, collector, primaryCollector
      ensures Judged(valid, false, false) && !valid
      ensures Within(true, 1, 0)
    {
      var ok := ConsumeOperation(path);
      if ok {
        Report(path, "required");
      }
      return false;
    }

    method EvaluateObject(kind: Kind, value: Value, path: seq<Segment>, depth: nat) returns (valid: bool)
      requires Valid() && Encloses(value) && kind.ObjectKind? && value.Obj?
      modifies this, collector, primaryCollector
      ensures Judged(valid, NestedHolds(doc, kind, value),
                     KindPasses(doc, Guard({}), kind, value, depth, limits.maxDepth))
      ensures Within(ClearNested(doc, kind, value, depth, limits), NestedSpend(doc, kind, value), 0)
      decreases value, 0, 0, 3
    {
      var first := CheckRequired(kind.required, value, path, depth);
      var second := EvaluateProperties(kind.properties, value, path, depth);
      var third := EvaluateAdditional(kind.additional, kind.properties, value, path, depth);
      valid := first && second && third;
    }

    method CheckRequired(required: seq<string>, value: Value, path: seq<Segment>, depth: nat) returns (valid: bool)
      requires Valid() && value.Obj?
      modifies this`operations, this`operationLimitReported, this`tripped, collector, primaryCollector
      ensures Judged(valid, EveryPresent(required, value, 0), EveryPresent(required, value, 0))
      ensures Within(true, |required|, 0)
    {
      valid := true;
      for i := 0 to |required|
        invariant Walking(valid, EveryPresent(required, value, i), EveryPresent(required, value, 0),
                          EveryPresent(required, value, i), EveryPresent(required, value, 0))
        invariant Within(true, |required|, |required| - i)
      {
        var ok := ConsumeOperation(path + [Key(required[i])]);
        if !ok {
          return false;
        }
        valid := Check(Has(value.fields, required[i]), path + [Key(required[i])], "required", valid);
      }
    }

    method EvaluateProperties(properties: seq<Property>, value: Value, path: seq<Segment>, depth: nat)
      returns (valid: bool)
      requires Valid() && Encloses(value) && value.Obj?
      modifies this, collector, primaryCollector
      ensures Judged(valid, EveryProperty(doc, properties, value, 0),
                     PropertiesPass(doc, properties, value, 0, depth, limits.maxDepth))
      ensures Within(ClearProperties(doc, properties, value, depth, limits),
                     PropertiesSpend(doc, properties, value, 0), 0)
      decreases value, 0, 0, 1
    {
      ghost var spend := PropertiesSpend(doc, properties, value, 0);
      valid := true;
      for i := 0 to |properties|
        invariant Walking(valid, EveryProperty(doc, properties, value, i), EveryProperty(doc, properties, value, 0),
                          PropertiesPass(doc, properties, value, i, depth, limits.maxDepth),
                          PropertiesPass(doc, properties, value, 0, depth, limits.maxDepth))
        invariant Within(ClearProperties(doc, properties, value, depth, limits), spend,
                         PropertiesSpend(doc, properties, value, i))
      {
        var item := EvaluateProperty(properties[i], value, path, depth);
        valid := valid && item;
      }
    }

    method EvaluateProperty(property: Property, value: Value, path: seq<Segment>, depth: nat) returns (valid: bool)
      requires Valid() && Encloses(value) && value.Obj?
      modifies this, collector, primaryCollector
      ensures Judged(valid, PropertyHolds(doc, property, value),
                     PropertyPasses(doc, property, value, depth, limits.maxDepth))
      ensures Within(ClearProperty(doc, property, value, depth, limits), PropertySpend(doc, property, value), 0)
      decreases value, 0, 0, 0
    {
      var at := IndexOf(value.fields, property.name);
      if at < |value.fields| {
        valid := EvaluateInside(property.plan, value.fields[at].value, value, path + [Key(property.name)], depth);
      } else {
        valid := ConsumeOperation(path + [Key(property.name)]);
      }
    }

    method EvaluateAdditional(additional: Option<Plan>, properties: seq<Property>, value: Value, path: seq<Segment>,
                              depth: nat)
      returns (valid: bool)
      requires Valid() && Encloses(value) && value.Obj?
      modifies this, collector, primaryCollector
      ensures Judged(valid, additional.Some? ==> EveryField(doc, additional.value, properties, value, 0),
                     additional.Some? ==>
                         FieldsPass(doc, additional.value, properties, value, 0, depth, limits.maxDepth))
      ensures Within(ClearAdditional(doc, additional, properties, value, depth, limits),
                     AdditionalSpend(doc, additional, properties, value), 0)
      decreases value, 0, 0, 2
    {
      if additional.None? || additional.value == Fixed(true) {
        if additional.Some? {
          EveryFieldMeans(doc, additional.value, properties, value, 0);
          FieldsAllPass(doc, properties, value, 0, depth, limits.maxDepth);
        }
        return true;
      }
      valid := ReadKeys(value.fields, path);
      if valid {
        valid := EvaluateFields(additional.value, properties, value, path, depth);
      }
    }

    /** The fields that are not declared. */
    method EvaluateFields(additional: Plan, properties: seq<Property>, value: Value, path: seq<Segment>, depth: nat)
      returns (valid: bool)
      requires Valid() && Encloses(value) && value.Obj?
      modifies this, collector, primaryCollector
      ensures Judged(valid, EveryField(doc, additional, properties, value, 0),
                     FieldsPass(doc, additional, properties, value, 0, depth, limits.maxDepth))
      ensures Within(ClearFields(doc, additional, properties, value, depth, limits),
                     FieldsSpend(doc, additional, properties, value, 0), 0)
      decreases value, 0, 0, 1
    {
      ghost var whole := Whole(EveryField(doc, additional, properties, value, 0),
                               FieldsPass(doc, additional, properties, value, 0, depth, limits.maxDepth),
                               ClearFields(doc, additional, properties, value, depth, limits),
                               FieldsSpend(doc, additional, properties, value, 0));
      valid := true;
      for i := 0 to |value.fields|
        invariant Walks(valid, EveryField(doc, additional, properties, value, i),
                        FieldsPass(doc, additional, properties, value, i, depth, limits.maxDepth),
                        FieldsSpend(doc, additional, properties, value, i), whole)
      {
        var item := EvaluateField(additional, properties, value, i, path, depth);
        FieldStep(doc, additional, properties, value, i, depth, limits);
        valid := valid && item;
      }
    }

    method EvaluateField(additional: Plan, properties: seq<Property>, value: Value, at: nat, path: seq<Segment>,
                         depth: nat)
      returns (valid: bool)
      requires Valid() && Encloses(value) && value.Obj? && at < |value.fields|
      modifies this, collector, primaryCollector
      ensures Judged(valid, FieldHolds(doc, additional, properties, value.fields[at]),
                     FieldPasses(doc, additional, properties, value, at, depth, limits.maxDepth))
      ensures Within(ClearField(doc, additional, properties, value.fields[at], depth, limits),
                     FieldSpend(doc, additional, properties, value, at), 0)
      decreases value, 0, 0, 0
    {
      var key, field := value.fields[at].key, value.fields[at].value;
      if Declares(properties, key) {
        return true;
      }
      if additional == Fixed(false) {
        valid := Check(false, path + [Key(key)], "additionalProperties", true);
        return;
      }
      InsidePlaced(value, field);
      valid := Evaluate(additional, field, path + [Key(key)], depth + 1, Guard({}), Left(operations));
    }
  }
}
