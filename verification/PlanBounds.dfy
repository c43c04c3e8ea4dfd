/** The bounds check of validation plans, a depth-first walk with an explicit stack: an accepted
    plan is within every bound and free of cycles, and a plan is only rejected for something that
    it holds. */
module PlanBounds {
  import opened Json
  import opened PlanGraph

  datatype Verdict = Accepted | TooManyValues | TextTooLong | NotFinite | NotJson | TooDeep | Circular | TooManyChildren

  /** The marks agree with the nodes entered and the nodes left. */
  ghost predicate Marks(entered: seq<nat>, active: set<nat>, visited: set<nat>, done: seq<nat>) {
    && NoRepeats(done) && NoRepeats(entered)
    && (forall n :: n in active <==> n in entered)
    && (forall n :: n in visited <==> n in active || n in done)
    && (forall n :: n in active ==> n !in done)
  }

  lemma MarksEnter(entered: seq<nat>, active: set<nat>, visited: set<nat>, done: seq<nat>, n: nat)
    requires Marks(entered, active, visited, done) && n !in visited
    ensures Marks(entered + [n], active + {n}, visited + {n}, done)
  {
    assert (entered + [n])[..|entered|] == entered;
  }

  lemma MarksLeave(entered: seq<nat>, active: set<nat>, visited: set<nat>, done: seq<nat>, n: nat)
    requires Marks(entered + [n], active, visited, done)
    ensures Marks(entered, active - {n}, visited, done + [n])
  {
    assert (entered + [n])[..|entered|] == entered;
    assert (done + [n])[..|done|] == done;
  }

  // ----- The number of values -----

  /** Every value of the nodes walked so far has been counted or still waits. */
  ghost predicate Counted(g: Graph, roots: seq<Item>, pending: seq<Frame>, visited: set<nat>, walked: seq<nat>,
                          values: nat) {
    && NoRepeats(walked) && AllNear(g, roots, walked) && (forall n :: n in walked <==> n in visited)
    && values + Waiting(pending) == |roots| + Values(g, walked)
  }

  lemma CountsNode(g: Graph, roots: seq<Item>, pending: seq<Frame>, visited: set<nat>,
                                      walked: seq<nat>, values: nat, n: nat)
    requires pending != [] && Last(pending) == Frame(Node(n), Last(pending).depth, false) && Linked(g, roots, pending)
    requires Counted(g, roots, pending, visited, walked, values) && n in g && n !in visited
            && Last(pending).depth <= MaxDepth
    ensures Counted(g, roots,
                    Rest(pending) + [Frame(Node(n), Last(pending).depth, true)]
                    + Pushed(g[n], 0, Last(pending).depth + 1),
                    visited + {n}, walked + [n], values + 1)
  {
    var s := Rest(pending) + [Frame(Node(n), Last(pending).depth, true)];
    assert Rest(s) == Rest(pending);
    PushedWaiting(s, g[n], 0, Last(pending).depth + 1);
    var p := FramePath(g, roots, pending, n);
    assert (walked + [n])[..|walked|] == walked;
  }

  /** The nodes that can be reached, and no more values than allowed in them. */
  ghost predicate FitsIn(g: Graph, roots: seq<Item>, nodes: seq<nat>) {
    NoRepeats(nodes) && (forall n :: n in nodes <==> Reachable(g, roots, n)) && |roots| + Values(g, nodes) <= MaxValues
  }

  /** Reachable nodes that hold more values than allowed. */
  ghost predicate TooMuchIn(g: Graph, roots: seq<Item>, nodes: seq<nat>) {
    NoRepeats(nodes) && AllReachable(g, roots, nodes) && |roots| + Values(g, nodes) > MaxValues
  }

  /** What holds between two rounds of the walk. */
  ghost predicate Walking(g: Graph, roots: seq<Item>, pending: seq<Frame>, active: set<nat>, visited: set<nat>,
                          done: seq<nat>) {
    && Linked(g, roots, pending) && Owed(g, roots, pending, {}, done) && ChildrenFirst(g, done)
    && Marks(Entered(pending), active, visited, done)
  }

  /** The walk and its count. */
  ghost predicate Round(g: Graph, roots: seq<Item>, pending: seq<Frame>, active: set<nat>, visited: set<nat>,
                        done: seq<nat>, walked: seq<nat>, values: nat) {
    Walking(g, roots, pending, active, visited, done) && Counted(g, roots, pending, visited, walked, values)
  }

  /** Leaving the innermost node: all its children are cleared. */
  lemma Leaves(g: Graph, roots: seq<Item>, pending: seq<Frame>, active: set<nat>,
                                  visited: set<nat>, done: seq<nat>)
    requires pending != [] && Last(pending).exit && Walking(g, roots, pending, active, visited, done)
    ensures Last(pending).item.Node?
    ensures Walking(g, roots, Rest(pending), active - {Last(pending).item.id}, visited, done + [Last(pending).item.id])
  {
    var n := Last(pending).item.id;
    MarksLeave(Entered(Rest(pending)), active, visited, done, n);
    LeavesOwed(g, roots, pending, done, n);
    assert (done + [n])[..|done|] == done;
  }

  lemma LeavesOwed(g: Graph, roots: seq<Item>, pending: seq<Frame>, done: seq<nat>, n: nat)
    requires pending != [] && Last(pending).exit && Last(pending).item == Node(n) && Owed(g, roots, pending, {}, done)
    ensures ChildrenIn(g, n, done) && Owed(g, roots, Rest(pending), {}, done + [n])
  {
    OwedLess(g, roots, Rest(pending), {Node(n)}, {}, done, done + [n]);
  }

  /** Passing over a value that is cleared. */
  lemma Passes(g: Graph, roots: seq<Item>, pending: seq<Frame>, active: set<nat>, visited: set<nat>,
                                  done: seq<nat>)
    requires pending != [] && !Last(pending).exit && Walking(g, roots, pending, active, visited, done)
    requires Cleared(Last(pending).item, done)
    ensures Walking(g, roots, Rest(pending), active, visited, done)
  {
    OwedLess(g, roots, Rest(pending), {} + {Last(pending).item}, {}, done, done);
    assert Entered(Rest(pending)) == Entered(pending);
  }

  /** Entering a node seen for the first time. */
  lemma Enters(g: Graph, roots: seq<Item>, pending: seq<Frame>, active: set<nat>, visited: set<nat>,
                                  done: seq<nat>, n: nat, depth: nat)
    requires Closed(g) && pending != [] && !Last(pending).exit && Walking(g, roots, pending, active, visited, done)
    requires Last(pending).item == Node(n) && depth == Last(pending).depth && n in g && n !in visited
            && |g[n]| <= MaxChildren
    ensures Walking(g, roots, Rest(pending) + [Frame(Node(n), depth, true)] + Pushed(g[n], 0, depth + 1),
                    active + {n}, visited + {n}, done)
  {
    var s := Rest(pending) + [Frame(Node(n), depth, true)];
    assert Rest(s) == Rest(pending);
    assert Entered(pending) == Entered(Rest(pending)) && Entered(s) == Entered(pending) + [n];
    MarksEnter(Entered(pending), active, visited, done, n);
    LinkedMore(g, roots, Rest(pending), Frame(Node(n), depth, true));
    PushedLinked(g, roots, s, n, 0, depth + 1);
    PushedEnters(s, g[n], 0, depth + 1);
    EntersOwed(g, roots, pending, done, n, depth);
  }

  lemma LeavesRound(g: Graph, roots: seq<Item>, pending: seq<Frame>, active: set<nat>, visited: set<nat>,
                    done: seq<nat>,
                    walked: seq<nat>, values: nat)
    requires pending != [] && Last(pending).exit && Round(g, roots, pending, active, visited, done, walked, values)
    ensures Last(pending).item.Node?
    ensures Round(g, roots, Rest(pending), active - {Last(pending).item.id}, visited, done + [Last(pending).item.id],
                  walked, values)
  {
    Leaves(g, roots, pending, active, visited, done);
  }

  lemma PassesRound(g: Graph, roots: seq<Item>, pending: seq<Frame>, active: set<nat>, visited: set<nat>,
                    done: seq<nat>,
                    walked: seq<nat>, values: nat)
    requires pending != [] && !Last(pending).exit && Round(g, roots, pending, active, visited, done, walked, values)
    requires if Last(pending).item.Node? then Last(pending).item.id in visited && Last(pending).item.id !in active
             else Fine(Last(pending).item)
    ensures Round(g, roots, Rest(pending), active, visited, done, walked, values + 1)
  {
    Passes(g, roots, pending, active, visited, done);
  }

  /** The same with the count: the value is counted and those of the node wait. */
  lemma EntersRound(g: Graph, roots: seq<Item>, pending: seq<Frame>, active: set<nat>, visited: set<nat>,
                    done: seq<nat>,
                    walked: seq<nat>, values: nat, n: nat)
    requires Closed(g) && pending != [] && !Last(pending).exit && Last(pending).item == Node(n)
    requires Round(g, roots, pending, active, visited, done, walked, values)
    requires n in g && n !in visited && |g[n]| <= MaxChildren && Last(pending).depth <= MaxDepth
    ensures Round(g, roots,
                  Rest(pending) + [Frame(Node(n), Last(pending).depth, true)]
                  + Pushed(g[n], 0, Last(pending).depth + 1),
                  active + {n}, visited + {n}, done, walked + [n], values + 1)
  {
    Enters(g, roots, pending, active, visited, done, n, Last(pending).depth);
    CountsNode(g, roots, pending, visited, walked, values, n);
  }

  lemma EntersOwed(g: Graph, roots: seq<Item>, pending: seq<Frame>, done: seq<nat>, n: nat, depth: nat)
    requires pending != [] && !Last(pending).exit && Owed(g, roots, pending, {}, done)
    requires Last(pending).item == Node(n) && n in g && |g[n]| <= MaxChildren
    ensures Owed(g, roots, Rest(pending) + [Frame(Node(n), depth, true)] + Pushed(g[n], 0, depth + 1), {}, done)
  {
    var s := Rest(pending) + [Frame(Node(n), depth, true)];
    assert Rest(s) == Rest(pending) && Last(s) == Frame(Node(n), depth, true);
    assert {} + {Node(n)} == {Node(n)};
    assert AllHeld(g[n], ItemsIn(g[n], |g[n]|), done) by {
      assert g[n][..|g[n]|] == g[n];
    }
    PushedOwed(g, roots, s, n, 0, depth + 1, done);
    assert ItemsIn(g[n], 0) == {};
  }

  /** No cycle can be reached. */
  ghost predicate Acyclic(g: Graph, roots: seq<Item>) {
    forall p :: p != [] && Reachable(g, roots, p[0]) ==> !Cycle(g, p)
  }

  predicate NodeWithinBounds(g: Graph, n: nat) {
    n in g && |g[n]| <= MaxChildren && forall item :: item in g[n] && !item.Node? ==> Fine(item)
  }

  ghost predicate WithinBounds(g: Graph, roots: seq<Item>) {
    && (forall item :: item in roots && !item.Node? ==> Fine(item))
    && (forall n :: Reachable(g, roots, n) ==> NodeWithinBounds(g, n) && Near(g, roots, n))
  }

  /** What a plan holds when it gets this verdict. */
  ghost predicate Justified(g: Graph, roots: seq<Item>, verdict: Verdict) {
    match verdict
    case Accepted => Acyclic(g, roots) && WithinBounds(g, roots) && exists nodes :: FitsIn(g, roots, nodes)
    case TooManyValues => exists nodes :: TooMuchIn(g, roots, nodes)
    case TextTooLong => exists length: nat :: Part(g, roots, Text(length)) && length > MaxTextLength
    case NotFinite => Part(g, roots, Number(false))
    case NotJson => Part(g, roots, Foreign)
    case TooDeep => DeepChain(g, roots)
    case Circular => !Acyclic(g, roots)
    case TooManyChildren => exists n :: Reachable(g, roots, n) && n in g && |g[n]| > MaxChildren
  }

  method AssertPlanBounds(g: Graph, root: Item, definitions: Option<Item>) returns (verdict: Verdict)
    requires Closed(g) && Known(g, root) && (definitions.Some? ==> Known(g, definitions.value))
    ensures Justified(g, Roots(root, definitions), verdict)
  {
    ghost var roots := Roots(root, definitions);
    var pending := [Frame(root, 0, false)];
    if definitions.Some? {
      pending := pending + [Frame(definitions.value, 0, false)];
    }
    var active: set<nat>, visited: set<nat> := {}, {};
    ghost var done: seq<nat>, walked: seq<nat> := [], [];
    Begins(g, root, definitions);
    var values := 0;
    while pending != []
      invariant Round(g, roots, pending, active, visited, done, walked, values) && values <= MaxValues
      decreases MaxValues - values, |pending|
    {
      var frame := Last(pending);
      if frame.exit {
        LeavesRound(g, roots, pending, active, visited, done, walked, values);
        pending, active := Rest(pending), active - {frame.item.id};
        done := done + [frame.item.id];
        continue;
      }
      values := values + 1;
      if values > MaxValues {
        CountsTooMany(g, roots, pending, visited, walked, values);
        return TooManyValues;
      }
      verdict := CheckFrame(g, roots, frame, active, pending);
      if verdict != Accepted {
        return;
      }
      if !frame.item.Node? || frame.item.id in visited {
        PassesRound(g, roots, pending, active, visited, done, walked, values - 1);
        pending := Rest(pending);
        continue;
      }
      var n := frame.item.id;
      if |g[n]| > MaxChildren {
        return TooManyChildren;
      }
      EntersRound(g, roots, pending, active, visited, done, walked, values - 1, n);
      walked := walked + [n];
      visited, active := visited + {n}, active + {n};
      pending := PushChildren(Rest(pending) + [Frame(frame.item, frame.depth, true)], g[n], frame.depth + 1);
    }
    Concludes(g, roots, visited, walked, done, values);
    return Accepted;
  }

  /** Looks at one value: a leaf, or a node that must be neither too deep nor under way. */
  method CheckFrame(g: Graph, ghost roots: seq<Item>, frame: Frame, active: set<nat>, ghost pending: seq<Frame>)
    returns (verdict: Verdict)
    requires pending != [] && Linked(g, roots, pending) && frame == Last(pending) && !frame.exit
    requires forall n :: n in active <==> n in Entered(pending)
    ensures verdict in {Accepted, TextTooLong, NotFinite, NotJson, TooDeep, Circular}
    ensures verdict != Accepted ==> Justified(g, roots, verdict)
    ensures verdict == Accepted ==>
              if frame.item.Node? then frame.depth <= MaxDepth && frame.item.id !in active else Fine(frame.item)
    ensures frame.item.Node? ==>
              frame.item.id in g && (|g[frame.item.id]| > MaxChildren ==> Justified(g, roots, TooManyChildren))
  {
    FrameIsPart(g, roots, pending);
    if !frame.item.Node? {
      verdict := CheckLeaf(frame.item);
    } else if frame.depth > MaxDepth {
      DeepFrame(g, roots, pending, frame.item.id);
      verdict := TooDeep;
    } else if frame.item.id in active {
      assert Entered(Rest(pending)) == Entered(pending);
      ghost var p := MetAgain(g, roots, Rest(pending), frame.item.id);
      verdict := Circular;
    } else {
      verdict := Accepted;
    }
  }

  function Roots(root: Item, definitions: Option<Item>): seq<Item> {
    [root] + if definitions.Some? then [definitions.value] else []
  }

  method CheckLeaf(item: Item) returns (verdict: Verdict)
    requires !item.Node?
    ensures verdict == Accepted <==> Fine(item)
    ensures verdict in {Accepted, TextTooLong, NotFinite, NotJson}
    ensures verdict.TextTooLong? ==> item.Text? && item.length > MaxTextLength
    ensures verdict.NotFinite? ==> item == Number(false)
    ensures verdict.NotJson? ==> item == Foreign
  {
    match item
    case Text(length) => return if length > MaxTextLength then TextTooLong else Accepted;
    case Number(finite) => return if finite then Accepted else NotFinite;
    case Foreign => return NotJson;
    case _ => return Accepted;
  }

  /** Pushes the children, the last one first. */
  method PushChildren(s: seq<Frame>, children: seq<Item>, depth: nat) returns (pending: seq<Frame>)
    ensures pending == s + Pushed(children, 0, depth)
  {
    pending := s;
    for index := |children| downto 0
      invariant pending == s + Pushed(children, index, depth)
    {
      pending := pending + [Frame(children[index], depth, false)];
    }
  }

  lemma Begins(g: Graph, root: Item, definitions: Option<Item>)
    requires Known(g, root) && (definitions.Some? ==> Known(g, definitions.value))
    ensures Round(g, Roots(root, definitions),
                  [Frame(root, 0, false)] + (if definitions.Some? then [Frame(definitions.value, 0, false)] else []),
                  {}, {}, [], [], 0)
  {
    var roots := Roots(root, definitions);
    var first := [Frame(root, 0, false)];
    OneMore([], first[0]);
    assert [] + first == first;
    if definitions.Some? {
      var both := first + [Frame(definitions.value, 0, false)];
      OneMore(first, Frame(definitions.value, 0, false));
      assert roots == [root, definitions.value];
      assert root in roots && definitions.value in roots;
      assert Linked(g, roots, first);
      assert Owed(g, roots, [], {} + {definitions.value} + {root}, []);
      assert Owed(g, roots, first, {} + {definitions.value}, []);
    } else {
      assert roots == [root];
    }
  }

  lemma CountsTooMany(g: Graph, roots: seq<Item>, pending: seq<Frame>, visited: set<nat>, walked: seq<nat>, values: nat)
    requires pending != [] && !Last(pending).exit && values > MaxValues
    requires Counted(g, roots, pending, visited, walked, values - 1)
    ensures Justified(g, roots, TooManyValues)
  {
    assert TooMuchIn(g, roots, walked);
  }

  lemma Concludes(g: Graph, roots: seq<Item>, visited: set<nat>, walked: seq<nat>, done: seq<nat>,
                                     values: nat)
    requires ChildrenFirst(g, done) && AllCleared(roots, done) && Marks([], {}, visited, done)
    requires Counted(g, roots, [], visited, walked, values) && values <= MaxValues
    ensures Justified(g, roots, Accepted)
  {
    forall p | p != [] && Reachable(g, roots, p[0]) ensures !Cycle(g, p) {
      NoCycle(g, roots, done, p);
    }
    forall n | Reachable(g, roots, n) ensures NodeWithinBounds(g, n) && n in walked {
      ReachedIsFine(g, roots, done, n);
      var i := ReachedIsListed(g, roots, done, n);
    }
    assert FitsIn(g, roots, walked);
  }

  /** Each node is held in one place only. */
  ghost predicate Unshared(g: Graph, roots: seq<Item>) {
    forall p, q ::
      Path(g, p) && Path(g, q) && Node(p[0]) in roots && Node(q[0]) in roots && p[|p| - 1] == q[|q| - 1] ==> p == q
  }

  /** The walk looks at a shared node once, so it bounds one chain to each node. Without sharing
      that is every chain. */
  lemma UnsharedIsShallow(g: Graph, roots: seq<Item>)
    requires Justified(g, roots, Accepted) && Unshared(g, roots)
    ensures !DeepChain(g, roots)
  {
    if p :| Path(g, p) && Node(p[0]) in roots && |p| > MaxDepth + 1 {
      assert Reachable(g, roots, p[|p| - 1]);
    }
  }

  // ----- A deep chain through a shared node -----

  /** A chain of 120 nodes, whose node 60 is also the first child of the root. */
  function Shortcut(): (g: Graph)
    ensures forall n: nat :: n in g <==> n < 120
  {
    map n: nat | n < 120 :: ShortcutChildren(n)
  }

  function ShortcutChildren(n: nat): seq<Item> {
    if n == 0 then [Node(60), Node(1)] else if n < 119 then [Node(n + 1)] else []
  }

  /** The nodes from `from` to `to`. */
  function Along(from: nat, to: nat): (p: seq<nat>)
    requires from <= to
    ensures |p| == to - from + 1 && forall i :: 0 <= i < |p| ==> p[i] == from + i
  {
    seq(to - from + 1, i requires 0 <= i => from + i)
  }

  lemma AlongIsPath(from: nat, to: nat)
    requires 1 <= from <= to < 120
    ensures Path(Shortcut(), Along(from, to))
  {
    var g, p := Shortcut(), Along(from, to);
    forall i | 0 <= i < |p| - 1 ensures Edge(g, p[i], p[i + 1]) {
      assert g[p[i]] == [Node(p[i] + 1)] && [Node(p[i] + 1)][0] == Node(p[i + 1]);
    }
  }

  /** Through the root's child `first`. */
  lemma FromRoot(first: nat, to: nat) returns (p: seq<nat>)
    requires first == 1 || first == 60
    requires first <= to < 120
    ensures Path(Shortcut(), p) && p[0] == 0 && p[|p| - 1] == to && |p| == to - first + 2
  {
    p := [0] + Along(first, to);
    AlongIsPath(first, to);
    var g := Shortcut();
    assert g[0] == [Node(60), Node(1)] && [Node(60), Node(1)][0] == Node(60) && [Node(60), Node(1)][1] == Node(1);
    forall i | 0 <= i < |p| - 1 ensures Edge(g, p[i], p[i + 1]) {
      if i > 0 {
        assert Edge(g, Along(first, to)[i - 1], Along(first, to)[i]);
      }
    }
  }

  lemma EdgesGoUp(n: nat, m: nat)
    requires Edge(Shortcut(), n, m)
    ensures n < m < 120
  {
  }

  lemma {:induction false} PathsGoUp(p: seq<nat>)
    requires Path(Shortcut(), p)
    ensures |p| >= 2 ==> p[0] < p[|p| - 1]
    ensures p[0] < 120 ==> p[|p| - 1] < 120
    decreases |p|
  {
    if |p| >= 2 {
      EdgesGoUp(p[0], p[1]);
      PathsGoUp(p[1..]);
    }
  }

  lemma {:induction false} FewValues(nodes: seq<nat>)
    ensures Values(Shortcut(), nodes) <= 2 * |nodes|
  {
    if nodes != [] {
      FewValues(nodes[..|nodes| - 1]);
    }
  }

  lemma {:induction false} AlongNoRepeats(to: nat)
    ensures NoRepeats(Along(0, to))
  {
    assert Along(0, to)[..to] == if to == 0 then [] else Along(0, to - 1);
    if to > 0 {
      AlongNoRepeats(to - 1);
    }
  }

  /** All that an accepted plan has to satisfy, and a chain deeper than the bound all the same: the
      shared node and what is below it are looked at through the shorter chain. */
  lemma AcceptableYetDeep()
    ensures Closed(Shortcut()) && Justified(Shortcut(), [Node(0)], Accepted) && DeepChain(Shortcut(), [Node(0)])
  {
    var g, roots, nodes := Shortcut(), [Node(0)], Along(0, 119);
    forall n: nat ensures (n in nodes <==> Reachable(g, roots, n)) && (n < 120 ==> Near(g, roots, n)) {
      ShortcutReaches(n);
      assert n < 120 ==> nodes[n] == n;
    }
    forall p | p != [] && Reachable(g, roots, p[0]) ensures !Cycle(g, p) {
      if Path(g, p) {
        PathsGoUp(p);
      }
    }
    FewValues(nodes);
    AlongNoRepeats(119);
    assert FitsIn(g, roots, nodes);
    var p := FromRoot(1, 119);
    assert roots[0] == Node(0);
  }

  lemma ShortcutReaches(n: nat)
    ensures Reachable(Shortcut(), [Node(0)], n) <==> n < 120
    ensures n < 120 ==> Near(Shortcut(), [Node(0)], n)
  {
    var g, roots := Shortcut(), [Node(0)];
    assert roots[0] == Node(0);
    if n == 0 {
      var p := [0];
      assert Path(g, p) && Node(p[0]) in roots && p[|p| - 1] == n;
    } else if n < 120 {
      var p := FromRoot(if n < 60 then 1 else 60, n);
      assert Path(g, p) && Node(p[0]) in roots && p[|p| - 1] == n;
    }
    if p :| Path(g, p) && Node(p[0]) in roots && p[|p| - 1] == n {
      PathsGoUp(p);
    }
  }
}
