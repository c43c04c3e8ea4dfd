/** What a union of branches comes to when the limits stop its evaluation. */
module OneOfLimits {
  import opened Json
  import opened ValidationPlan
  import opened EvaluationSpend
  import opened EvaluationWalk
  import opened NestingDepth

  // ----- Branches that take one operation each -----

  predicate SimpleKind(k: Kind) {
    k.Any? || k.Never? || k.NullKind? || k.BooleanKind? || k.NumberKind?
  }

  predicate Simple(p: Plan) {
    p.Fixed? || SimpleKind(p.kind)
  }

  predicate AllSimple(branches: seq<Plan>) {
    forall i :: 0 <= i < |branches| ==> Simple(branches[i])
  }

  /** The verdict on a simple plan; `deep` is beyond the limit on depth. */
  ghost predicate SimpleHolds(doc: Document, p: Plan, v: Value, deep: bool)
    requires Simple(p)
  {
    match p
    case Fixed(accept) => accept
    case Node(nullable, kind) => (nullable && v.Null?) || (!deep && KindHolds(doc, Guard({}), kind, v))
  }

  /** The accepting branches among those reached with `left` operations: each branch takes two, and
      one that gets only one counts as a non-match. */
  ghost function SimpleMatches(doc: Document, branches: seq<Plan>, v: Value, deep: bool, from: nat, left: nat): nat
    requires AllSimple(branches)
    decreases |branches| - from
  {
    if from >= |branches| || left < 2 then 0
    else (if SimpleHolds(doc, branches[from], v, deep) then 1 else 0)
         + SimpleMatches(doc, branches, v, deep, from + 1, left - 2)
  }

  predicate Foreseeable(p: Plan) {
    p.Node? ==> ForeseeableKind(p.kind)
  }

  predicate ForeseeableKind(k: Kind) {
    SimpleKind(k) || (k.Union? && AllSimple(k.branches))
  }

  /** The verdict on a simple plan or a union of simple plans, with `left` operations at `depth`. */
  ghost predicate LimitedVerdict(doc: Document, p: Plan, v: Value, maxDepth: nat, depth: nat, left: nat)
    requires Foreseeable(p)
  {
    left >= 1 &&
    match p
    case Fixed(accept) => accept
    case Node(nullable, kind) =>
      (nullable && v.Null?) || (depth <= maxDepth && LimitedKind(doc, kind, v, depth >= maxDepth, left - 1))
  }

  /** `deep` tells whether branches lie beyond the limit on depth. */
  ghost predicate LimitedKind(doc: Document, k: Kind, v: Value, deep: bool, left: nat)
    requires ForeseeableKind(k)
  {
    if k.Union? then Selected(k.oneOf, SimpleMatches(doc, k.branches, v, deep, 0, left))
    else KindHolds(doc, Guard({}), k, v)
  }

  /** One branch more, with an operation taken for the branch and, if one is left, for its plan. */
  lemma SimpleStep(doc: Document, branches: seq<Plan>, v: Value, maxDepth: nat, depth: nat, i: nat, left: nat,
                   valid: bool,
                   after: nat)
    requires AllSimple(branches) && i < |branches| && left >= 1
    requires valid == LimitedVerdict(doc, branches[i], v, maxDepth, depth + 1, left - 1)
    requires after == if left >= 2 then left - 2 else 0
    ensures (if valid then 1 else 0) + SimpleMatches(doc, branches, v, depth >= maxDepth, i + 1, after)
            == SimpleMatches(doc, branches, v, depth >= maxDepth, i, left)
  {
  }

  /** Branch `i` is reached and accepts, and no other branch that is reached does. */
  ghost predicate AcceptsAlone(doc: Document, branches: seq<Plan>, v: Value, deep: bool, from: nat, left: nat, i: nat)
    requires AllSimple(branches)
  {
    && from <= i < |branches| && 2 * (i - from + 1) <= left && SimpleHolds(doc, branches[i], v, deep)
    && forall j :: from <= j < |branches| && j != i && 2 * (j - from + 1) <= left ==>
        !SimpleHolds(doc, branches[j], v, deep)
  }

  lemma {:induction false} SimpleNone(doc: Document, branches: seq<Plan>, v: Value, deep: bool, from: nat, left: nat)
    requires AllSimple(branches)
    ensures SimpleMatches(doc, branches, v, deep, from, left) == 0 <==>
            forall j :: from <= j < |branches| && 2 * (j - from + 1) <= left ==> !SimpleHolds(doc, branches[j], v, deep)
    decreases |branches| - from
  {
    if from < |branches| && left >= 2 {
      SimpleNone(doc, branches, v, deep, from + 1, left - 2);
    }
  }

  lemma {:induction false} SimpleOne(doc: Document, branches: seq<Plan>, v: Value, deep: bool, from: nat, left: nat)
    requires AllSimple(branches)
    ensures SimpleMatches(doc, branches, v, deep, from, left) == 1 <==>
            exists i: nat :: AcceptsAlone(doc, branches, v, deep, from, left, i)
    decreases |branches| - from
  {
    if from < |branches| && left >= 2 {
      SimpleOne(doc, branches, v, deep, from + 1, left - 2);
      AloneStep(doc, branches, v, deep, from, left, from);
      if i: nat :| AcceptsAlone(doc, branches, v, deep, from, left, i) {
        AloneStep(doc, branches, v, deep, from, left, i);
      }
      var next, less := from + 1, left - 2;
      if i: nat :| AcceptsAlone(doc, branches, v, deep, next, less, i) {
        AloneStep(doc, branches, v, deep, from, left, i);
      }
    }
  }

  lemma AloneStep(doc: Document, branches: seq<Plan>, v: Value, deep: bool, from: nat, left: nat, i: nat)
    requires AllSimple(branches) && from < |branches| && left >= 2
    ensures AcceptsAlone(doc, branches, v, deep, from, left, i) <==>
            if SimpleHolds(doc, branches[from], v, deep)
            then i == from && SimpleMatches(doc, branches, v, deep, from + 1, left - 2) == 0
            else AcceptsAlone(doc, branches, v, deep, from + 1, left - 2, i)
  {
    SimpleNone(doc, branches, v, deep, from + 1, left - 2);
  }

  lemma SimpleWithin(doc: Document, p: Plan, v: Value, deep: bool)
    requires Simple(p)
    ensures SimpleHolds(doc, p, v, deep) ==> Holds(doc, Guard({}), p, v)
    ensures !deep ==> (SimpleHolds(doc, p, v, deep) <==> Holds(doc, Guard({}), p, v))
  {
  }

  /** The count that the limits allow is one, and that of all branches is not. */
  ghost predicate WronglyOne(doc: Document, branches: seq<Plan>, v: Value, deep: bool, left: nat)
    requires AllSimple(branches)
  {
    SimpleMatches(doc, branches, v, deep, 0, left) == 1 && HoldCount(doc, Guard({}), branches, v, |branches|) != 1
  }

  /** Two branches, of which the limits show only the first. */
  ghost predicate Hidden(doc: Document, branches: seq<Plan>, v: Value, deep: bool, left: nat, i: nat, k: nat)
    requires AllSimple(branches)
  {
    && AcceptsAlone(doc, branches, v, deep, 0, left, i)
    && k < |branches| && k != i && Holds(doc, Guard({}), branches[k], v)
  }

  /** Exactly when the limits make a `oneOf` accept wrongly: one branch accepts alone among those
      that are reached, and another one holds that is not reached or lies too deep. */
  lemma OneOfWronglyAccepted(doc: Document, branches: seq<Plan>, v: Value, deep: bool, left: nat)
    requires AllSimple(branches)
    ensures WronglyOne(doc, branches, v, deep, left) <==>
              exists i: nat, k: nat :: Hidden(doc, branches, v, deep, left, i, k)
  {
    SimpleOne(doc, branches, v, deep, 0, left);
    forall i: nat | AcceptsAlone(doc, branches, v, deep, 0, left, i)
      ensures WronglyOne(doc, branches, v, deep, left) <==> exists k: nat :: Hidden(doc, branches, v, deep, left, i, k)
    {
      SimpleWithin(doc, branches[i], v, deep);
      HoldCountOne(doc, Guard({}), branches, v, |branches|, i);
      if WronglyOne(doc, branches, v, deep, left) {
        var k :| 0 <= k < |branches| && k != i && Holds(doc, Guard({}), branches[k], v);
        assert Hidden(doc, branches, v, deep, left, i, k);
      }
    }
    if WronglyOne(doc, branches, v, deep, left) {
      var i: nat :| AcceptsAlone(doc, branches, v, deep, 0, left, i);
      var k: nat :| Hidden(doc, branches, v, deep, left, i, k);
      assert Hidden(doc, branches, v, deep, left, i, k);
    }
  }

  /** The first two branches that hold. */
  ghost predicate FirstTwo(doc: Document, branches: seq<Plan>, v: Value, i: nat, j: nat) {
    && i < j < |branches| && Holds(doc, Guard({}), branches[i], v) && Holds(doc, Guard({}), branches[j], v)
    && forall k :: 0 <= k < j && k != i ==> !Holds(doc, Guard({}), branches[k], v)
  }

  /** Within the limit on depth: the operations reach the first branch that holds, and not the
      second one. */
  lemma OperationsBetween(doc: Document, branches: seq<Plan>, v: Value, left: nat)
    requires AllSimple(branches)
    ensures WronglyOne(doc, branches, v, false, left) <==>
            exists i: nat, j: nat :: FirstTwo(doc, branches, v, i, j) && 2 * (i + 1) <= left < 2 * (j + 1)
  {
    OneOfWronglyAccepted(doc, branches, v, false, left);
    forall k | 0 <= k < |branches|
      ensures SimpleHolds(doc, branches[k], v, false) <==> Holds(doc, Guard({}), branches[k], v)
    {
      SimpleWithin(doc, branches[k], v, false);
    }
    if i: nat, k: nat :| Hidden(doc, branches, v, false, left, i, k) {
      var j := SecondAfter(doc, branches, v, i, k);
      assert FirstTwo(doc, branches, v, i, j);
    }
    if i: nat, j: nat :| FirstTwo(doc, branches, v, i, j) && 2 * (i + 1) <= left < 2 * (j + 1) {
      assert AcceptsAlone(doc, branches, v, false, 0, left, i);
      assert Hidden(doc, branches, v, false, left, i, j);
    }
  }

  lemma {:induction false} SecondAfter(doc: Document, branches: seq<Plan>, v: Value, i: nat, k: nat) returns (j: nat)
    requires i < |branches| && k < |branches| && k != i && Holds(doc, Guard({}), branches[k], v)
    ensures j <= k && j != i && Holds(doc, Guard({}), branches[j], v)
    ensures forall l :: 0 <= l < j && l != i ==> !Holds(doc, Guard({}), branches[l], v)
    decreases k
  {
    if l :| 0 <= l < k && l != i && Holds(doc, Guard({}), branches[l], v) {
      j := SecondAfter(doc, branches, v, i, l);
    } else {
      j := k;
    }
  }

  // ----- Any branches -----

  /** The branches that hold among those that `left` operations pay for in full. */
  ghost function PaidMatches(doc: Document, b: Budget, branches: seq<Plan>, v: Value, from: nat, left: nat): nat
    requires b.Guard?
    decreases |branches| - from
  {
    if from >= |branches| || left <= Spend(doc, b, branches[from], v) then 0
    else (if Holds(doc, b, branches[from], v) then 1 else 0)
         + PaidMatches(doc, b, branches, v, from + 1, left - 1 - Spend(doc, b, branches[from], v))
  }

  /** The operations that are left for the first branch that is not paid for in full. */
  ghost function CutRest(doc: Document, b: Budget, branches: seq<Plan>, v: Value, from: nat, left: nat): nat
    requires b.Guard?
    decreases |branches| - from
  {
    if from >= |branches| then 0
    else if left <= Spend(doc, b, branches[from], v) then left
    else CutRest(doc, b, branches, v, from + 1, left - 1 - Spend(doc, b, branches[from], v))
  }

  /** `matches` counts the branches that hold among those that `left` operations pay for in full,
      and possibly the one that they do not pay for in full. */
  ghost predicate CountsPaid(doc: Document, b: Budget, branches: seq<Plan>, v: Value, left: nat, matches: nat)
    requires b.Guard?
  {
    var paid := PaidMatches(doc, b, branches, v, 0, left);
    paid <= matches <= paid + if CutRest(doc, b, branches, v, 0, left) < 2 then 0 else 1
  }

  /** The verdict on this value is that of a union. */
  predicate UnionFor(p: Plan, v: Value) {
    p.Node? && !(p.nullable && v.Null?) && p.kind.Union?
  }

  /** The verdict on a union whose branches `left` operations pay for in part: that of the count of
      those paid for in full, or of one more if the next branch had operations enough to accept. */
  ghost predicate PaidVerdict(doc: Document, b: Budget, branches: seq<Plan>, oneOf: bool, v: Value, left: nat,
                              valid: bool)
    requires b.Guard?
  {
    var paid := PaidMatches(doc, b, branches, v, 0, left);
    valid == Selected(oneOf, paid) ||
    (CutRest(doc, b, branches, v, 0, left) >= 2 && valid == Selected(oneOf, paid + 1))
  }

  /** A count in progress at branch `i`: exact so far, or final since the operations ran out. */
  ghost predicate Tally(doc: Document, b: Budget, branches: seq<Plan>, v: Value, i: nat, left: nat, rest: nat,
                        cut: bool,
                        matches: nat)
    requires b.Guard?
  {
    if cut then rest == 0 && CountsPaid(doc, b, branches, v, left, matches)
    else
      && matches + PaidMatches(doc, b, branches, v, i, rest) == PaidMatches(doc, b, branches, v, 0, left)
      && CutRest(doc, b, branches, v, i, rest) == CutRest(doc, b, branches, v, 0, left)
  }

  lemma TallyEnds(doc: Document, b: Budget, branches: seq<Plan>, v: Value, i: nat, left: nat, rest: nat, cut: bool,
                  matches: nat)
    requires b.Guard? && Tally(doc, b, branches, v, i, left, rest, cut, matches) && (i >= |branches| || rest == 0)
    ensures CountsPaid(doc, b, branches, v, left, matches)
  {
  }

  /** One branch more: paid for in full, or cut, when only two operations let it accept. */
  lemma TallyStep(doc: Document, b: Budget, branches: seq<Plan>, v: Value, i: nat, left: nat, rest: nat, matches: nat,
                  valid: bool, after: nat, cut: bool)
    requires b.Guard? && i < |branches| && Tally(doc, b, branches, v, i, left, rest, false, matches)
    requires if cut then after == 0 && rest <= Spend(doc, b, branches[i], v) && (valid ==> rest >= 2)
             else rest == after + 1 + Spend(doc, b, branches[i], v) && valid == Holds(doc, b, branches[i], v)
    ensures Tally(doc, b, branches, v, i + 1, left, after, cut, matches + if valid then 1 else 0)
  {
  }

  /** With operations for all branches, all that hold are counted. */
  lemma {:induction false} AllPaid(doc: Document, b: Budget, branches: seq<Plan>, v: Value, from: nat, left: nat)
    requires b.Guard? && from <= |branches| && BranchesSpend(doc, b, branches, v, from) <= left
    ensures HoldCount(doc, b, branches, v, from) + PaidMatches(doc, b, branches, v, from, left)
            == HoldCount(doc, b, branches, v, |branches|)
    decreases |branches| - from
  {
    if from < |branches| {
      AllPaid(doc, b, branches, v, from + 1, left - 1 - Spend(doc, b, branches[from], v));
    }
  }

  /** The operations that pay for everything up to the first branch that holds. */
  lemma {:induction false} FirstMatchPaid(doc: Document, b: Budget, branches: seq<Plan>, v: Value, from: nat, i: nat)
    returns (left: nat)
    requires b.Guard? && from <= i < |branches| && Holds(doc, b, branches[i], v)
    ensures PaidMatches(doc, b, branches, v, from, left) == 1 && CutRest(doc, b, branches, v, from, left) == 0
    decreases i - from
  {
    var here := 1 + Spend(doc, b, branches[from], v);
    if Holds(doc, b, branches[from], v) {
      left := here;
      assert PaidMatches(doc, b, branches, v, from + 1, 0) == 0;
    } else {
      var more := FirstMatchPaid(doc, b, branches, v, from + 1, i);
      left := here + more;
    }
  }

  /** With this many operations no branch is cut in its middle, and one is counted. */
  ghost predicate CountsOne(doc: Document, branches: seq<Plan>, v: Value, operations: nat) {
    && operations >= 1 && CutRest(doc, Guard({}), branches, v, 0, operations - 1) < 2
    && PaidMatches(doc, Guard({}), branches, v, 0, operations - 1) == 1
  }

  /** Some limit on operations makes a `oneOf` accept wrongly exactly if two of its branches hold. */
  lemma SomeLimitIsWrong(doc: Document, branches: seq<Plan>, v: Value)
    ensures (exists operations: nat ::
               CountsOne(doc, branches, v, operations) && !KindHolds(doc, Guard({}), Union(branches, true), v))
            <==> HoldCount(doc, Guard({}), branches, v, |branches|) >= 2
  {
    OneMeans(doc, Guard({}), branches, v);
    HoldCountPositive(doc, Guard({}), branches, v, |branches|);
    if i: nat :| i < |branches| && Holds(doc, Guard({}), branches[i], v) {
      var left := FirstMatchPaid(doc, Guard({}), branches, v, 0, i);
      assert CountsOne(doc, branches, v, left + 1);
    }
    if operations: nat :| CountsOne(doc, branches, v, operations) {
      PaidIsCounted(doc, Guard({}), branches, v, 0, operations - 1);
    }
  }

  lemma {:induction false} PaidIsCounted(doc: Document, b: Budget, branches: seq<Plan>, v: Value, from: nat, left: nat)
    requires b.Guard? && from <= |branches|
    ensures HoldCount(doc, b, branches, v, from) + PaidMatches(doc, b, branches, v, from, left)
            <= HoldCount(doc, b, branches, v, |branches|)
    decreases |branches| - from
  {
    if from < |branches| {
      HoldCountGrows(doc, b, branches, v, from, |branches|);
      if left > Spend(doc, b, branches[from], v) {
        PaidIsCounted(doc, b, branches, v, from + 1, left - 1 - Spend(doc, b, branches[from], v));
      }
    }
  }

  lemma {:induction false} HoldCountGrows(doc: Document, b: Budget, branches: seq<Plan>, v: Value, m: nat, n: nat)
    requires m <= n <= |branches|
    ensures HoldCount(doc, b, branches, v, m) <= HoldCount(doc, b, branches, v, n)
  {
    if m < n {
      HoldCountGrows(doc, b, branches, v, m, n - 1);
    }
  }

  // ----- The branches as they ran -----

  /** One branch that was reached: its verdict, the operations left before and after, and whether
      some limit has been hit by then. */
  datatype Ran = Ran(valid: bool, before: nat, after: nat, cut: bool)

  /** What a limited evaluation may come to, at `depth` below a union. With `room` only the limit on
      operations can be hit. */
  ghost predicate Fitting(doc: Document, b: Budget, p: Plan, v: Value, room: bool, maxDepth: nat, depth: nat, r: Ran)
    requires b.Guard?
  {
    && r.before >= 1
    && (!r.cut ==> r.valid == Holds(doc, b, p, v) && r.before == r.after + 1 + Spend(doc, b, p, v))
    && (r.cut && room ==> r.after == 0 && r.before <= Spend(doc, b, p, v))
    && (r.valid ==> r.before >= 2 && Passes(doc, b, p, v, depth + 1, maxDepth))
    && (Simple(p) ==>
          && r.valid == LimitedVerdict(doc, p, v, maxDepth, depth + 1, r.before - 1)
          && r.after == if r.before >= 2 then r.before - 2 else 0)
  }

  function LeftAfter(left: nat, trace: seq<Ran>): nat {
    if trace == [] then left else trace[|trace| - 1].after
  }

  predicate CutAfter(trace: seq<Ran>) {
    trace != [] && trace[|trace| - 1].cut
  }

  function Valids(trace: seq<Ran>): nat {
    if trace == [] then 0 else Valids(trace[..|trace| - 1]) + if trace[|trace| - 1].valid then 1 else 0
  }

  /** The branches ran one after another, from `left` operations on. */
  ghost predicate Trace(doc: Document, b: Budget, branches: seq<Plan>, v: Value, room: bool, maxDepth: nat, depth: nat,
                        left: nat, trace: seq<Ran>)
    requires b.Guard?
    decreases |trace|
  {
    && |trace| <= |branches|
    && (trace == [] ||
        var before, last := trace[..|trace| - 1], trace[|trace| - 1];
        && Trace(doc, b, branches, v, room, maxDepth, depth, left, before)
        && last.before == LeftAfter(left, before) && (CutAfter(before) ==> last.cut)
        && Fitting(doc, b, branches[|before|], v, room && !CutAfter(before), maxDepth, depth, last))
  }

  lemma TraceMore(doc: Document, b: Budget, branches: seq<Plan>, v: Value, room: bool, maxDepth: nat, depth: nat,
                  left: nat, trace: seq<Ran>, r: Ran)
    requires b.Guard? && Trace(doc, b, branches, v, room, maxDepth, depth, left, trace) && |trace| < |branches|
    requires r.before == LeftAfter(left, trace) && (CutAfter(trace) ==> r.cut)
    requires Fitting(doc, b, branches[|trace|], v, room && !CutAfter(trace), maxDepth, depth, r)
    ensures Trace(doc, b, branches, v, room, maxDepth, depth, left, trace + [r])
    ensures Valids(trace + [r]) == Valids(trace) + if r.valid then 1 else 0
  {
    assert (trace + [r])[..|trace|] == trace;
  }

  lemma {:induction false} TraceTally(doc: Document, b: Budget, branches: seq<Plan>, v: Value, room: bool,
                                      maxDepth: nat,
                                      depth: nat, left: nat, trace: seq<Ran>)
    requires b.Guard? && Trace(doc, b, branches, v, room, maxDepth, depth, left, trace) && (!CutAfter(trace) || room)
    ensures Tally(doc, b, branches, v, |trace|, left, LeftAfter(left, trace), CutAfter(trace), Valids(trace))
    decreases |trace|
  {
    if trace != [] {
      var before, last := trace[..|trace| - 1], trace[|trace| - 1];
      TraceTally(doc, b, branches, v, room, maxDepth, depth, left, before);
      TallyStep(doc, b, branches, v, |before|, left, last.before, Valids(before), last.valid, last.after, last.cut);
    }
  }

  lemma {:induction false} TraceSpend(doc: Document, b: Budget, branches: seq<Plan>, v: Value, room: bool,
                                      maxDepth: nat,
                                      depth: nat, left: nat, trace: seq<Ran>)
    requires b.Guard? && Trace(doc, b, branches, v, room, maxDepth, depth, left, trace) && (!CutAfter(trace) || room)
    ensures !CutAfter(trace) ==>
              LeftAfter(left, trace) + BranchesSpend(doc, b, branches, v, 0)
              == left + BranchesSpend(doc, b, branches, v, |trace|)
    ensures CutAfter(trace) ==> left < BranchesSpend(doc, b, branches, v, 0)
    decreases |trace|
  {
    if trace != [] {
      var before := trace[..|trace| - 1];
      TraceSpend(doc, b, branches, v, room, maxDepth, depth, left, before);
      assert BranchesSpend(doc, b, branches, v, |before|)
          == 1 + Spend(doc, b, branches[|before|], v) + BranchesSpend(doc, b, branches, v, |trace|);
    }
  }

  lemma {:induction false} TraceSimple(doc: Document, b: Budget, branches: seq<Plan>, v: Value, room: bool,
                                       maxDepth: nat,
                                       depth: nat, left: nat, trace: seq<Ran>)
    requires b.Guard? && Trace(doc, b, branches, v, room, maxDepth, depth, left, trace) && AllSimple(branches)
    ensures Valids(trace) + SimpleMatches(doc, branches, v, depth >= maxDepth, |trace|, LeftAfter(left, trace))
            == SimpleMatches(doc, branches, v, depth >= maxDepth, 0, left)
    decreases |trace|
  {
    if trace != [] {
      var before, last := trace[..|trace| - 1], trace[|trace| - 1];
      TraceSimple(doc, b, branches, v, room, maxDepth, depth, left, before);
      SimpleStep(doc, branches, v, maxDepth, depth, |before|, last.before, last.valid, last.after);
    }
  }

  lemma {:induction false} TracePasses(doc: Document, b: Budget, branches: seq<Plan>, v: Value, room: bool,
                                      maxDepth: nat,
                                      depth: nat, left: nat, trace: seq<Ran>)
    requires b.Guard? && Trace(doc, b, branches, v, room, maxDepth, depth, left, trace) && Valids(trace) > 0
    ensures SomePasses(doc, b, branches, v, depth, maxDepth)
    decreases |trace|
  {
    var before, last := trace[..|trace| - 1], trace[|trace| - 1];
    if !last.valid {
      TracePasses(doc, b, branches, v, room, maxDepth, depth, left, before);
    }
  }

  /** All that a finished run of the branches says: every branch was reached, or no operation is left. */
  lemma TraceMeans(doc: Document, b: Budget, branches: seq<Plan>, v: Value, room: bool, maxDepth: nat, depth: nat,
                   left: nat, trace: seq<Ran>)
    requires b.Guard? && Trace(doc, b, branches, v, room, maxDepth, depth, left, trace)
    requires |trace| == |branches| || LeftAfter(left, trace) == 0
    ensures !CutAfter(trace) || room ==> CountsPaid(doc, b, branches, v, left, Valids(trace))
    ensures |trace| == |branches| && !CutAfter(trace) ==>
              && Valids(trace) == HoldCount(doc, b, branches, v, |branches|)
              && left == LeftAfter(left, trace) + BranchesSpend(doc, b, branches, v, 0)
    ensures (CutAfter(trace) || |trace| < |branches|) && room ==> left < BranchesSpend(doc, b, branches, v, 0)
    ensures AllSimple(branches) ==> Valids(trace) == SimpleMatches(doc, branches, v, depth >= maxDepth, 0, left)
    ensures Valids(trace) > 0 ==> SomePasses(doc, b, branches, v, depth, maxDepth)
  {
    if Valids(trace) > 0 {
      TracePasses(doc, b, branches, v, room, maxDepth, depth, left, trace);
    }
    if AllSimple(branches) {
      TraceSimple(doc, b, branches, v, room, maxDepth, depth, left, trace);
    }
    if !CutAfter(trace) || room {
      TraceTally(doc, b, branches, v, room, maxDepth, depth, left, trace);
      TallyEnds(doc, b, branches, v, |trace|, left, LeftAfter(left, trace), CutAfter(trace), Valids(trace));
      TraceSpend(doc, b, branches, v, room, maxDepth, depth, left, trace);
      if |trace| == |branches| && !CutAfter(trace) {
        AllPaid(doc, b, branches, v, 0, left);
      }
    }
  }

  /** The same of the verdict that the count selects. */
  lemma TraceSelects(doc: Document, b: Budget, branches: seq<Plan>, v: Value, oneOf: bool, room: bool, maxDepth: nat,
                     depth: nat, left: nat, trace: seq<Ran>)
    requires b.Guard? && Trace(doc, b, branches, v, room, maxDepth, depth, left, trace)
    requires |trace| == |branches| || LeftAfter(left, trace) == 0
    ensures var valid := Selected(oneOf, Valids(trace));
            && (valid ==> SomePasses(doc, b, branches, v, depth, maxDepth))
            && (|trace| == |branches| && !CutAfter(trace) ==>
                  && valid == Selected(oneOf, HoldCount(doc, b, branches, v, |branches|))
                  && left == LeftAfter(left, trace) + BranchesSpend(doc, b, branches, v, 0))
            && ((CutAfter(trace) || |trace| < |branches|) && room ==> left < BranchesSpend(doc, b, branches, v, 0))
            && (room ==> PaidVerdict(doc, b, branches, oneOf, v, left, valid))
            && (AllSimple(branches) ==>
                  valid == Selected(oneOf, SimpleMatches(doc, branches, v, depth >= maxDepth, 0, left)))
  {
    TraceMeans(doc, b, branches, v, room, maxDepth, depth, left, trace);
  }
}
