/** Validation plans as they arrive: a graph of objects that may share parts or lead back to
    themselves, and what a depth-first walk with an explicit stack knows of it. */
module PlanGraph {

  /** A value inside a plan. Arrays and records are nodes with an identity. */
  datatype Item =
    | Nothing
    | Boolean
    | Text(length: nat)
    | Number(finite: bool)
    | Foreign
    | Node(id: nat)

  type Graph = map<nat, seq<Item>>

  const MaxValues: nat := 100_000
  const MaxDepth: nat := 64
  const MaxChildren: nat := 10_000
  const MaxTextLength: nat := 65_536

  /** A value, other than a node, that a plan may hold. */
  predicate Fine(item: Item) {
    match item
    case Text(length) => length <= MaxTextLength
    case Number(finite) => finite
    case Foreign => false
    case _ => true
  }

  predicate Known(g: Graph, item: Item) {
    item.Node? ==> item.id in g
  }

  /** Every node mentioned anywhere has its children. */
  predicate Closed(g: Graph) {
    forall n, i :: n in g && 0 <= i < |g[n]| ==> Known(g, g[n][i])
  }

  predicate Edge(g: Graph, n: nat, m: nat) {
    n in g && Node(m) in g[n]
  }

  // ----- Paths and cycles -----

  predicate Path(g: Graph, p: seq<nat>) {
    p != [] && forall i :: 0 <= i < |p| - 1 ==> Edge(g, p[i], p[i + 1])
  }

  predicate Cycle(g: Graph, p: seq<nat>) {
    |p| >= 2 && Path(g, p) && p[0] == p[|p| - 1]
  }

  ghost predicate Reachable(g: Graph, roots: seq<Item>, n: nat) {
    exists p :: Path(g, p) && Node(p[0]) in roots && p[|p| - 1] == n
  }

  lemma ReachableStep(g: Graph, roots: seq<Item>, n: nat, m: nat)
    requires Reachable(g, roots, n) && Edge(g, n, m)
    ensures Reachable(g, roots, m)
  {
    var p :| Path(g, p) && Node(p[0]) in roots && p[|p| - 1] == n;
    var q := p + [m];
    assert Path(g, q) && Node(q[0]) in roots && q[|q| - 1] == m;
  }

  lemma ReachableRoot(g: Graph, roots: seq<Item>, n: nat)
    requires Node(n) in roots
    ensures Reachable(g, roots, n)
  {
    assert Path(g, [n]) && Node([n][0]) in roots && [n][|[n]| - 1] == n;
  }

  // ----- Order of completion -----

  /** A value that needs no further walk. */
  predicate Cleared(item: Item, done: seq<nat>) {
    if item.Node? then item.id in done else Fine(item)
  }

  predicate AllCleared(items: seq<Item>, done: seq<nat>) {
    forall item :: item in items ==> Cleared(item, done)
  }

  ghost predicate ChildrenIn(g: Graph, n: nat, done: seq<nat>) {
    n in g && |g[n]| <= MaxChildren && AllCleared(g[n], done)
  }

  /** Nodes listed after all their children. */
  ghost predicate ChildrenFirst(g: Graph, done: seq<nat>) {
    done == [] ||
    (ChildrenFirst(g, done[..|done| - 1]) && ChildrenIn(g, done[|done| - 1], done[..|done| - 1]))
  }

  lemma {:induction false} ChildrenBefore(g: Graph, done: seq<nat>, i: nat)
    requires ChildrenFirst(g, done) && i < |done|
    ensures ChildrenIn(g, done[i], done[..i])
  {
    if i < |done| - 1 {
      ChildrenBefore(g, done[..|done| - 1], i);
      assert done[..|done| - 1][..i] == done[..i];
    }
  }

  /** A path from a listed node stays on the list and moves towards its front. */
  lemma {:induction false} PathMovesDown(g: Graph, done: seq<nat>, p: seq<nat>, i: nat) returns (j: nat)
    requires ChildrenFirst(g, done) && Path(g, p) && i < |done| && p[0] == done[i]
    ensures j < |done| && p[|p| - 1] == done[j] && j <= i && (|p| >= 2 ==> j < i)
    decreases |p|
  {
    if |p| == 1 {
      return i;
    }
    ChildrenBefore(g, done, i);
    assert Edge(g, p[0], p[1]) && Cleared(Node(p[1]), done[..i]);
    var k :| 0 <= k < i && done[..i][k] == p[1];
    j := PathMovesDown(g, done, p[1..], k);
  }

  ghost predicate NoRepeats(s: seq<nat>) {
    s == [] || (NoRepeats(s[..|s| - 1]) && s[|s| - 1] !in s[..|s| - 1])
  }

  lemma {:induction false} NoRepeatsMeans(s: seq<nat>, i: nat, j: nat)
    requires NoRepeats(s) && i < j < |s|
    ensures s[i] != s[j]
  {
    if j < |s| - 1 {
      NoRepeatsMeans(s[..|s| - 1], i, j);
    } else {
      assert s[i] == s[..|s| - 1][i];
    }
  }

  /** A complete list of distinct nodes, children first, rules out every reachable cycle. */
  lemma NoCycle(g: Graph, roots: seq<Item>, done: seq<nat>, p: seq<nat>)
    requires ChildrenFirst(g, done) && NoRepeats(done)
    requires AllCleared(roots, done)
    requires p != [] && Reachable(g, roots, p[0])
    ensures !Cycle(g, p)
  {
    if Cycle(g, p) {
      var i := ReachedIsListed(g, roots, done, p[0]);
      var j := PathMovesDown(g, done, p, i);
      NoRepeatsMeans(done, j, i);
    }
  }

  lemma ReachedIsListed(g: Graph, roots: seq<Item>, done: seq<nat>, n: nat) returns (i: nat)
    requires ChildrenFirst(g, done) && AllCleared(roots, done)
    requires Reachable(g, roots, n)
    ensures i < |done| && done[i] == n
  {
    var q :| Path(g, q) && Node(q[0]) in roots && q[|q| - 1] == n;
    assert Cleared(Node(q[0]), done);
    var k :| 0 <= k < |done| && done[k] == q[0];
    i := PathMovesDown(g, done, q, k);
  }

  // ----- The stack of the walk -----

  /** A value still to be looked at, or the point where its node is left again. */
  datatype Frame = Frame(item: Item, depth: nat, exit: bool)

  function Last(s: seq<Frame>): Frame
    requires s != []
  {
    s[|s| - 1]
  }

  function Rest(s: seq<Frame>): (r: seq<Frame>)
    requires s != []
    ensures |r| < |s|
  {
    s[..|s| - 1]
  }

  /** The nodes being walked, outermost first. */
  ghost function Entered(s: seq<Frame>): seq<nat> {
    if s == [] then [] else Entered(Rest(s)) + if Last(s).exit && Last(s).item.Node? then [Last(s).item.id] else []
  }

  /** Each frame holds a root or a child of the innermost node entered below it, at the depth
      given by the number of those nodes. */
  ghost predicate Linked(g: Graph, roots: seq<Item>, s: seq<Frame>) {
    s == [] ||
    (&& Linked(g, roots, Rest(s))
     && Known(g, Last(s).item) && (Last(s).exit ==> Last(s).item.Node?)
     && Last(s).depth == |Entered(Rest(s))|
     && var inner := Entered(Rest(s));
        if inner == [] then Last(s).item in roots
        else inner[|inner| - 1] in g && Last(s).item in g[inner[|inner| - 1]])
  }

  /** Every reachable node of such a list is within bounds and holds only fine values. */
  lemma ReachedIsFine(g: Graph, roots: seq<Item>, done: seq<nat>, n: nat)
    requires ChildrenFirst(g, done) && AllCleared(roots, done)
    requires Reachable(g, roots, n)
    ensures n in g && |g[n]| <= MaxChildren && forall item :: item in g[n] && !item.Node? ==> Fine(item)
  {
    var i := ReachedIsListed(g, roots, done, n);
    ChildrenBefore(g, done, i);
  }

  predicate AllHeld(items: seq<Item>, above: set<Item>, done: seq<nat>) {
    forall item :: item in items ==> Cleared(item, done) || item in above
  }

  /** Everything owed is either cleared or still on the stack: the roots, and the children of each
      node entered. `above` are the values held by the frames above `s`. */
  ghost predicate Owed(g: Graph, roots: seq<Item>, s: seq<Frame>, above: set<Item>, done: seq<nat>) {
    if s == [] then AllHeld(roots, above, done)
    else if !Last(s).exit then Owed(g, roots, Rest(s), above + {Last(s).item}, done)
    else
      && Last(s).item.Node? && Last(s).item.id in g && |g[Last(s).item.id]| <= MaxChildren
      && AllHeld(g[Last(s).item.id], above, done) && Owed(g, roots, Rest(s), {Last(s).item}, done)
  }

  lemma {:induction false} OwedLess(g: Graph, roots: seq<Item>, s: seq<Frame>, above: set<Item>, fewer: set<Item>,
                                    done: seq<nat>, more: seq<nat>)
    requires Owed(g, roots, s, above, done)
    requires forall n :: n in done ==> n in more
    requires forall item :: item in above ==> item in fewer || Cleared(item, more)
    ensures Owed(g, roots, s, fewer, more)
    decreases |s|
  {
    if s != [] {
      if !Last(s).exit {
        OwedLess(g, roots, Rest(s), above + {Last(s).item}, fewer + {Last(s).item}, done, more);
      } else {
        OwedLess(g, roots, Rest(s), {Last(s).item}, {Last(s).item}, done, more);
      }
    }
  }

  /** Every node entered is reachable. */
  lemma {:induction false} EnteredReachable(g: Graph, roots: seq<Item>, s: seq<Frame>, n: nat)
    requires Linked(g, roots, s) && n in Entered(s)
    ensures Reachable(g, roots, n)
    decreases |s|
  {
    var inner := Entered(Rest(s));
    if n in inner {
      EnteredReachable(g, roots, Rest(s), n);
    } else if inner == [] {
      ReachableRoot(g, roots, n);
    } else {
      EnteredReachable(g, roots, Rest(s), inner[|inner| - 1]);
      ReachableStep(g, roots, inner[|inner| - 1], n);
    }
  }

  /** The nodes entered lead from any of them down to the innermost one. */
  lemma {:induction false} EnteredPath(g: Graph, roots: seq<Item>, s: seq<Frame>, i: nat)
    requires Linked(g, roots, s) && i < |Entered(s)|
    ensures Path(g, Entered(s)[i..])
    decreases |s|
  {
    var inner := Entered(Rest(s));
    if i < |inner| {
      EnteredPath(g, roots, Rest(s), i);
      if Entered(s) == inner {
      } else {
        assert Entered(s)[i..] == inner[i..] + [Last(s).item.id];
        assert inner[i..][|inner[i..]| - 1] == inner[|inner| - 1];
      }
    }
  }

  lemma {:induction false} OutermostIsRoot(g: Graph, roots: seq<Item>, s: seq<Frame>)
    requires Linked(g, roots, s) && Entered(s) != []
    ensures Node(Entered(s)[0]) in roots
    decreases |s|
  {
    if Entered(Rest(s)) != [] {
      OutermostIsRoot(g, roots, Rest(s));
    }
  }

  /** A chain of nodes from a root, each a child of the one before, deeper than the limit. */
  ghost predicate DeepChain(g: Graph, roots: seq<Item>) {
    exists p :: Path(g, p) && Node(p[0]) in roots && |p| > MaxDepth + 1
  }

  lemma DeepFrame(g: Graph, roots: seq<Item>, s: seq<Frame>, n: nat)
    requires Linked(g, roots, s) && s != [] && Last(s).item == Node(n) && Last(s).depth > MaxDepth
    ensures DeepChain(g, roots)
  {
    var p := FramePath(g, roots, s, n);
  }

  /** A node met again while it is being walked closes a cycle. */
  lemma MetAgain(g: Graph, roots: seq<Item>, s: seq<Frame>, n: nat) returns (p: seq<nat>)
    requires Linked(g, roots, s) && n in Entered(s) && Edge(g, Entered(s)[|Entered(s)| - 1], n)
    ensures Cycle(g, p) && Reachable(g, roots, p[0])
  {
    var i :| 0 <= i < |Entered(s)| && Entered(s)[i] == n;
    EnteredPath(g, roots, s, i);
    EnteredReachable(g, roots, s, n);
    p := Entered(s)[i..] + [n];
  }

  // ----- Counting -----

  /** The number of values that the given nodes hold. */
  ghost function Values(g: Graph, nodes: seq<nat>): nat {
    if nodes == [] then 0
    else Values(g, nodes[..|nodes| - 1]) + var n := nodes[|nodes| - 1]; if n in g then |g[n]| else 0
  }

  /** The number of values still to be looked at. */
  ghost function Waiting(s: seq<Frame>): nat {
    if s == [] then 0 else Waiting(Rest(s)) + if Last(s).exit then 0 else 1
  }

  lemma OneMore(s: seq<Frame>, f: Frame)
    requires !f.exit
    ensures Rest(s + [f]) == s && Last(s + [f]) == f
    ensures Entered(s + [f]) == Entered(s) && Waiting(s + [f]) == Waiting(s) + 1
  {
    assert Rest(s + [f]) == s;
  }

  ghost predicate AllReachable(g: Graph, roots: seq<Item>, nodes: seq<nat>) {
    forall n :: n in nodes ==> Reachable(g, roots, n)
  }

  /** Some chain from a root to the node is within the bound on depth. */
  ghost predicate Near(g: Graph, roots: seq<Item>, n: nat) {
    exists p :: Path(g, p) && Node(p[0]) in roots && p[|p| - 1] == n && |p| <= MaxDepth + 1
  }

  ghost predicate AllNear(g: Graph, roots: seq<Item>, nodes: seq<nat>) {
    forall n :: n in nodes ==> Near(g, roots, n)
  }

  /** The nodes entered below a node lead from a root to it. */
  lemma FramePath(g: Graph, roots: seq<Item>, s: seq<Frame>, n: nat) returns (p: seq<nat>)
    requires Linked(g, roots, s) && s != [] && Last(s).item == Node(n)
    ensures Path(g, p) && Node(p[0]) in roots && p[|p| - 1] == n && |p| == Last(s).depth + 1
  {
    var inner := Entered(Rest(s));
    p := inner + [n];
    if inner != [] {
      OutermostIsRoot(g, roots, Rest(s));
      EnteredPath(g, roots, Rest(s), 0);
      assert inner[0..] == inner;
    }
  }

  /** A value of the plan: a root, or held by a reachable node. */
  ghost predicate Part(g: Graph, roots: seq<Item>, item: Item) {
    item in roots || exists n :: Reachable(g, roots, n) && n in g && item in g[n]
  }

  lemma FrameIsPart(g: Graph, roots: seq<Item>, s: seq<Frame>)
    requires s != [] && Linked(g, roots, s)
    ensures Part(g, roots, Last(s).item)
    ensures Last(s).item.Node? ==> Reachable(g, roots, Last(s).item.id)
  {
    var inner := Entered(Rest(s));
    if inner == [] {
      if Last(s).item.Node? {
        ReachableRoot(g, roots, Last(s).item.id);
      }
    } else {
      var n := inner[|inner| - 1];
      EnteredReachable(g, roots, Rest(s), n);
      if Last(s).item.Node? {
        ReachableStep(g, roots, n, Last(s).item.id);
      }
    }
  }

  // ----- Pushing children -----

  /** The frames of the children from index `i` on, the last child first. */
  function Pushed(children: seq<Item>, i: nat, depth: nat): (r: seq<Frame>)
    requires i <= |children|
    decreases |children| - i
  {
    if i == |children| then [] else Pushed(children, i + 1, depth) + [Frame(children[i], depth, false)]
  }

  lemma {:induction false} PushedEnters(s: seq<Frame>, children: seq<Item>, i: nat, depth: nat)
    requires i <= |children|
    ensures Entered(s + Pushed(children, i, depth)) == Entered(s)
    decreases |children| - i
  {
    if i == |children| {
      assert s + Pushed(children, i, depth) == s;
    } else {
      PushedEnters(s, children, i + 1, depth);
      var t := s + Pushed(children, i + 1, depth);
      assert s + Pushed(children, i, depth) == t + [Frame(children[i], depth, false)];
      assert Rest(t + [Frame(children[i], depth, false)]) == t;
    }
  }

  lemma LinkedMore(g: Graph, roots: seq<Item>, s: seq<Frame>, f: Frame)
    requires Linked(g, roots, s) && Known(g, f.item) && (f.exit ==> f.item.Node?) && f.depth == |Entered(s)|
    requires Entered(s) != [] ==> Entered(s)[|Entered(s)| - 1] in g && f.item in g[Entered(s)[|Entered(s)| - 1]]
    requires Entered(s) == [] ==> f.item in roots
    ensures Linked(g, roots, s + [f])
  {
    assert Rest(s + [f]) == s;
  }

  lemma {:induction false} PushedLinked(g: Graph, roots: seq<Item>, s: seq<Frame>, n: nat, i: nat, depth: nat)
    requires Closed(g) && n in g && i <= |g[n]|
    requires Linked(g, roots, s) && Entered(s) != [] && Entered(s)[|Entered(s)| - 1] == n && depth == |Entered(s)|
    ensures Linked(g, roots, s + Pushed(g[n], i, depth))
    decreases |g[n]| - i
  {
    if i == |g[n]| {
      assert s + Pushed(g[n], i, depth) == s;
    } else {
      PushedLinked(g, roots, s, n, i + 1, depth);
      PushedEnters(s, g[n], i + 1, depth);
      LinkedMore(g, roots, s + Pushed(g[n], i + 1, depth), Frame(g[n][i], depth, false));
      assert s + Pushed(g[n], i, depth) == s + Pushed(g[n], i + 1, depth) + [Frame(g[n][i], depth, false)];
    }
  }

  /** The first `i` children. */
  ghost function ItemsIn(children: seq<Item>, i: nat): (r: set<Item>)
    requires i <= |children|
    ensures forall item :: item in r <==> item in children[..i]
  {
    set item | item in children[..i]
  }

  lemma {:induction false} PushedOwed(g: Graph, roots: seq<Item>, s: seq<Frame>, n: nat, i: nat, depth: nat,
                                      done: seq<nat>)
    requires n in g && i <= |g[n]|
    requires Owed(g, roots, s, ItemsIn(g[n], |g[n]|), done)
    ensures Owed(g, roots, s + Pushed(g[n], i, depth), ItemsIn(g[n], i), done)
    decreases |g[n]| - i
  {
    var t := s + Pushed(g[n], i, depth);
    if i == |g[n]| {
      assert t == s;
    } else {
      PushedOwed(g, roots, s, n, i + 1, depth, done);
      assert Rest(t) == s + Pushed(g[n], i + 1, depth) && Last(t) == Frame(g[n][i], depth, false);
      assert g[n][..i + 1] == g[n][..i] + [g[n][i]];
      OwedLess(g, roots, Rest(t), ItemsIn(g[n], i + 1), ItemsIn(g[n], i) + {g[n][i]}, done, done);
    }
  }

  lemma {:induction false} PushedWaiting(s: seq<Frame>, children: seq<Item>, i: nat, depth: nat)
    requires i <= |children|
    ensures Waiting(s + Pushed(children, i, depth)) == Waiting(s) + |children| - i
    decreases |children| - i
  {
    var t := s + Pushed(children, i, depth);
    if i == |children| {
      assert t == s;
    } else {
      PushedWaiting(s, children, i + 1, depth);
      assert Rest(t) == s + Pushed(children, i + 1, depth) && Last(t) == Frame(children[i], depth, false);
    }
  }
}
