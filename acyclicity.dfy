/**
 * `Graph._validate_acyclicity`: a depth-first search from every node and subgraph, with
 * visited-name sets shared by all the searches, that raises when an input leads back to
 * the search's root.
 *
 * The dependency relation is stated as edges between items (an item consumes an output
 * of the items its inputs name); reachability is by paths of edges.
 */
module Acyclicity {
  import opened Wrappers
  import opened Pir

  /** An element of `self.nodes + self.subgraphs`: what the search pushes and pops. */
  datatype Item = NodeItem(node: Node) | SubgraphItem(sub: Subgraph)

  /** What one input makes the search push: nothing, `None` (a missing entity), or an item. */
  datatype Ref = NoRef | Dangling | RefTo(item: Item)

  /** The sets `visited_node_names` and `visited_subgraph_names`. */
  datatype Visited = Visited(nodes: set<string>, subgraphs: set<string>)

  function ItemInputs(x: Item): seq<Input> {
    match x
    case NodeItem(n) => n.inputs
    case SubgraphItem(s) => s.inputs
  }

  predicate Member(g: Graph, x: Item) {
    match x
    case NodeItem(n) => n in g.nodes
    case SubgraphItem(s) => s in g.subgraphs
  }

  predicate Seen(v: Visited, x: Item) {
    match x
    case NodeItem(n) => n.name in v.nodes
    case SubgraphItem(s) => s.name in v.subgraphs
  }

  function Mark(v: Visited, x: Item): Visited {
    match x
    case NodeItem(n) => v.(nodes := v.nodes + {n.name})
    case SubgraphItem(s) => v.(subgraphs := v.subgraphs + {s.name})
  }

  predicate UniqueNames(g: Graph) {
    Distinct(Names(g.nodes, NodeName)) && Distinct(Names(g.subgraphs, SubgraphName))
  }

  /** `self.nodes + self.subgraphs`. */
  function Roots(g: Graph): (r: seq<Item>)
    ensures |r| == |g.nodes| + |g.subgraphs|
    ensures forall k :: 0 <= k < |r| ==> Member(g, r[k])
    ensures forall x :: Member(g, x) ==> x in r
  {
    var ns := seq(|g.nodes|, k requires 0 <= k < |g.nodes| => NodeItem(g.nodes[k]));
    var ss := seq(|g.subgraphs|, k requires 0 <= k < |g.subgraphs| => SubgraphItem(g.subgraphs[k]));
    assert forall n :: n in g.nodes ==> NodeItem(n) in ns by {
      forall n | n in g.nodes ensures NodeItem(n) in ns {
        var k :| 0 <= k < |g.nodes| && g.nodes[k] == n;
        assert ns[k] == NodeItem(n);
      }
    }
    assert forall s :: s in g.subgraphs ==> SubgraphItem(s) in ss by {
      forall s | s in g.subgraphs ensures SubgraphItem(s) in ss {
        var k :| 0 <= k < |g.subgraphs| && g.subgraphs[k] == s;
        assert ss[k] == SubgraphItem(s);
      }
    }
    ns + ss
  }

  /** The item an input refers to, looked up as the search does with `find_by_name`. */
  function Target(g: Graph, inp: Input): (t: Ref)
    ensures t.RefTo? ==> Member(g, t.item)
  {
    if inp.source.node.Some? then
      match FindByName(g.nodes, NodeName, inp.source.node.value)
      case None => Dangling
      case Some(n) => RefTo(NodeItem(n))
    else if inp.source.subgraph.Some? then
      match FindByName(g.subgraphs, SubgraphName, inp.source.subgraph.value)
      case None => Dangling
      case Some(s) => RefTo(SubgraphItem(s))
    else NoRef
  }

  /** `y` feeds one of the inputs of `x`. */
  ghost predicate Edge(g: Graph, x: Item, y: Item) {
    exists inp :: inp in ItemInputs(x) && Target(g, inp) == RefTo(y)
  }

  /** An input of `x` names a node or subgraph the graph does not have. */
  ghost predicate HasDangling(g: Graph, x: Item) {
    exists inp :: inp in ItemInputs(x) && Target(g, inp) == Dangling
  }

  ghost predicate Path(g: Graph, p: seq<Item>) {
    |p| >= 1 && forall k :: 0 <= k < |p| - 1 ==> Edge(g, p[k], p[k + 1])
  }

  ghost predicate Reachable(g: Graph, x: Item, y: Item) {
    exists p :: Path(g, p) && p[0] == x && p[|p| - 1] == y
  }

  /** Some item reachable from `x` feeds `x` itself. */
  ghost predicate OnCycle(g: Graph, x: Item) {
    exists y :: Reachable(g, x, y) && Edge(g, y, x)
  }

  ghost predicate ReachesDangling(g: Graph, x: Item) {
    exists y :: Reachable(g, x, y) && HasDangling(g, y)
  }

  /** No item of the graph is on a cycle or reaches a missing entity. */
  ghost predicate Acyclic(g: Graph) {
    forall x :: Member(g, x) ==> !OnCycle(g, x) && !ReachesDangling(g, x)
  }

  function CycleError(root: Item): Error {
    match root
    case NodeItem(n) => CycleAtNode(n.name)
    case SubgraphItem(s) => CycleAtSubgraph(s.name)
  }

  /** The errors a search from `root` may raise, each with the fact that justifies it. */
  ghost predicate RootError(g: Graph, root: Item, e: Error) {
    (e == CycleError(root) && OnCycle(g, root)) || (e == NoneHasNoInputs && ReachesDangling(g, root))
  }

  // ---------------------------------------------------------------------------------
  // Paths

  lemma ReachableRefl(g: Graph, x: Item)
    ensures Reachable(g, x, x)
  {
    assert Path(g, [x]);
  }

  lemma ReachableStep(g: Graph, x: Item, y: Item, z: Item)
    requires Reachable(g, x, y) && Edge(g, y, z)
    ensures Reachable(g, x, z)
  {
    var p :| Path(g, p) && p[0] == x && p[|p| - 1] == y;
    var q := p + [z];
    assert forall k :: 0 <= k < |p| ==> q[k] == p[k];
    assert Path(g, q);
  }

  lemma EdgeMember(g: Graph, x: Item, y: Item)
    requires Edge(g, x, y)
    ensures Member(g, y)
  {
    var inp :| inp in ItemInputs(x) && Target(g, inp) == RefTo(y);
  }

  /** A path that starts at a visited member stays among visited members of a closed set. */
  lemma {:induction false} ClosedPath(g: Graph, v: Visited, p: seq<Item>)
    requires Closed(g, v) && Path(g, p) && Member(g, p[0]) && Seen(v, p[0])
    ensures Member(g, p[|p| - 1]) && Seen(v, p[|p| - 1])
    decreases |p|
  {
    if |p| > 1 {
      var q := p[..|p| - 1];
      assert forall k :: 0 <= k < |q| ==> q[k] == p[k];
      assert Path(g, q);
      ClosedPath(g, v, q);
      assert Edge(g, p[|p| - 2], p[|p| - 1]);
      EdgeMember(g, p[|p| - 2], p[|p| - 1]);
    }
  }

  lemma ClosedReach(g: Graph, v: Visited, x: Item, y: Item)
    requires Closed(g, v) && Member(g, x) && Reachable(g, x, y)
    ensures Seen(v, x) ==> Seen(v, y) && Member(g, y)
  {
    if Seen(v, x) {
      var p :| Path(g, p) && p[0] == x && p[|p| - 1] == y;
      ClosedPath(g, v, p);
    }
  }

  lemma ReachableMember(g: Graph, x: Item, y: Item)
    requires Member(g, x) && Reachable(g, x, y)
    ensures Member(g, y)
  {
    var p :| Path(g, p) && p[0] == x && p[|p| - 1] == y;
    if |p| > 1 {
      assert Edge(g, p[|p| - 2], p[|p| - 1]);
      EdgeMember(g, p[|p| - 2], p[|p| - 1]);
    }
  }

  // ---------------------------------------------------------------------------------
  // The visited sets

  /** Every visited item's inputs lead to visited items, never to a missing entity. */
  ghost predicate Closed(g: Graph, v: Visited) {
    && (forall x, y :: Member(g, x) && Seen(v, x) && Edge(g, x, y) ==> Seen(v, y))
    && (forall x :: Member(g, x) && Seen(v, x) ==> !HasDangling(g, x))
  }

  /** With unique names, visiting an item by name visits no other member. */
  lemma MarkSeen(g: Graph, v: Visited, x: Item, y: Item)
    requires UniqueNames(g) && Member(g, x) && Member(g, y)
    ensures Seen(Mark(v, x), y) <==> Seen(v, y) || y == x
  {
    if x.NodeItem? && y.NodeItem? && x.node.name == y.node.name {
      FindByNameUnique(g.nodes, NodeName, x.node);
      FindByNameUnique(g.nodes, NodeName, y.node);
    }
    if x.SubgraphItem? && y.SubgraphItem? && x.sub.name == y.sub.name {
      FindByNameUnique(g.subgraphs, SubgraphName, x.sub);
      FindByNameUnique(g.subgraphs, SubgraphName, y.sub);
    }
  }

  function NodeNameSet(g: Graph): set<string> { set n | n in g.nodes :: n.name }
  function SubgraphNameSet(g: Graph): set<string> { set s | s in g.subgraphs :: s.name }

  function Unvisited(g: Graph, v: Visited): nat {
    |NodeNameSet(g) - v.nodes| + |SubgraphNameSet(g) - v.subgraphs|
  }

  /** Marking one more unvisited name leaves fewer unvisited names. */
  lemma FewerLeft(all: set<string>, seen: set<string>, n: string)
    requires n in all && n !in seen
    ensures |all - (seen + {n})| < |all - seen|
  {
    var b := all - (seen + {n});
    assert all - seen == b + {n} && n !in b;
  }

  lemma MarkDecreases(g: Graph, v: Visited, x: Item)
    requires Member(g, x) && !Seen(v, x)
    ensures Unvisited(g, Mark(v, x)) < Unvisited(g, v)
  {
    match x
    case NodeItem(n) =>
      assert n.name in NodeNameSet(g);
      FewerLeft(NodeNameSet(g), v.nodes, n.name);
    case SubgraphItem(s) =>
      assert s.name in SubgraphNameSet(g);
      FewerLeft(SubgraphNameSet(g), v.subgraphs, s.name);
  }

  predicate VisitedLe(v0: Visited, v: Visited) {
    v0.nodes <= v.nodes && v0.subgraphs <= v.subgraphs
  }

  ghost predicate New(v0: Visited, v: Visited, x: Item) {
    Seen(v, x) && !Seen(v0, x)
  }

  /** Each entry of the stack was pushed for an input of an item reachable from `root`. */
  ghost predicate StackOk(g: Graph, root: Item, stack: seq<Ref>) {
    forall k :: 0 <= k < |stack| ==>
      match stack[k]
      case NoRef => false
      case Dangling => ReachesDangling(g, root)
      case RefTo(y) => Member(g, y) && Reachable(g, root, y)
  }

  /** Every input of `x` has been followed: to a visited item or one waiting on the stack, never to `root`. */
  ghost predicate Explored(g: Graph, root: Item, v: Visited, stack: seq<Ref>, x: Item) {
    && (forall y :: Edge(g, x, y) ==> Seen(v, y) || RefTo(y) in stack)
    && (HasDangling(g, x) ==> Dangling in stack)
    && !Edge(g, x, root)
  }

  /** Every item this search has visited, except `cur`, has been explored. */
  ghost predicate Frontier(g: Graph, root: Item, v0: Visited, v: Visited, stack: seq<Ref>, cur: Option<Item>) {
    forall z :: Member(g, z) && New(v0, v, z) && Some(z) != cur ==>
      Reachable(g, root, z) && Explored(g, root, v, stack, z)
  }

  /** What an emptied stack leaves: the items visited by this search close the visited set. */
  lemma ExploreDone(g: Graph, root: Item, v0: Visited, v: Visited)
    requires Closed(g, v0) && Member(g, root) && Seen(v, root) && VisitedLe(v0, v)
    requires Frontier(g, root, v0, v, [], None)
    ensures Closed(g, v)
    ensures forall x :: Member(g, x) ==> (Seen(v, x) <==> Seen(v0, x) || Reachable(g, root, x))
    ensures !Seen(v0, root) ==> !OnCycle(g, root) && !ReachesDangling(g, root)
  {
    assert Closed(g, v);
    forall x | Member(g, x) && Reachable(g, root, x) ensures Seen(v, x) {
      ClosedReach(g, v, root, x);
    }
    if !Seen(v0, root) {
      forall y | Reachable(g, root, y) ensures !Edge(g, y, root) && !HasDangling(g, y) {
        ClosedReach(g, v, root, y);
      }
    }
  }

  /** Popping an item already visited keeps every explored item explored. */
  lemma PopSeen(g: Graph, root: Item, v0: Visited, v: Visited, rest: seq<Ref>, x: Item)
    requires Seen(v, x)
    requires Frontier(g, root, v0, v, rest + [RefTo(x)], None)
    ensures Frontier(g, root, v0, v, rest, None)
  {
    forall z | Member(g, z) && New(v0, v, z) ensures Explored(g, root, v, rest, z) {
      assert Explored(g, root, v, rest + [RefTo(x)], z);
      forall y | Edge(g, z, y) ensures Seen(v, y) || RefTo(y) in rest {
        assert RefTo(y) in rest + [RefTo(x)] ==> RefTo(y) in rest || y == x;
      }
      assert Dangling in rest + [RefTo(x)] ==> Dangling in rest;
    }
  }

  /** Popping and visiting a new item keeps every other explored item explored. */
  lemma PopMark(g: Graph, root: Item, v0: Visited, v: Visited, rest: seq<Ref>, x: Item)
    requires UniqueNames(g) && Member(g, x) && !Seen(v, x) && VisitedLe(v0, v)
    requires Frontier(g, root, v0, v, rest + [RefTo(x)], None)
    ensures VisitedLe(v0, Mark(v, x)) && New(v0, Mark(v, x), x)
    ensures Frontier(g, root, v0, Mark(v, x), rest, Some(x))
  {
    var v' := Mark(v, x);
    forall z | Member(g, z) && New(v0, v', z) && Some(z) != Some(x)
      ensures Reachable(g, root, z) && Explored(g, root, v', rest, z)
    {
      MarkSeen(g, v, x, z);
      assert New(v0, v, z);
      assert Explored(g, root, v, rest + [RefTo(x)], z);
      forall y | Edge(g, z, y) ensures Seen(v', y) || RefTo(y) in rest {
        assert RefTo(y) in rest + [RefTo(x)] ==> RefTo(y) in rest || y == x;
      }
      assert Dangling in rest + [RefTo(x)] ==> Dangling in rest;
    }
  }

  /** Growing the stack keeps every explored item explored. */
  lemma Grow(g: Graph, root: Item, v0: Visited, v: Visited, stack: seq<Ref>, stack': seq<Ref>, cur: Option<Item>)
    requires Frontier(g, root, v0, v, stack, cur)
    requires forall t :: t in stack ==> t in stack'
    ensures Frontier(g, root, v0, v, stack', cur)
  {
    forall z | Member(g, z) && New(v0, v, z) && Some(z) != cur
      ensures Explored(g, root, v, stack', z)
    {
      assert Explored(g, root, v, stack, z);
    }
  }

  /** An explored item joins the explored part of the visited set. */
  lemma Absorb(g: Graph, root: Item, v0: Visited, v: Visited, stack: seq<Ref>, x: Item)
    requires Frontier(g, root, v0, v, stack, Some(x))
    requires Reachable(g, root, x) && Explored(g, root, v, stack, x)
    ensures Frontier(g, root, v0, v, stack, None)
  {
  }

  /** Once every input of `x` has been followed, `x` is explored. */
  lemma FollowedAll(g: Graph, root: Item, v: Visited, stack0: seq<Ref>, x: Item)
    requires forall k :: 0 <= k < |ItemInputs(x)| ==> Target(g, ItemInputs(x)[k]) != RefTo(root)
    ensures Explored(g, root, v, stack0 + Pushes(g, ItemInputs(x)), x)
  {
    var inputs := ItemInputs(x);
    var stack := stack0 + Pushes(g, inputs);
    forall y | Edge(g, x, y) ensures RefTo(y) in stack {
      var inp :| inp in inputs && Target(g, inp) == RefTo(y);
      var k :| 0 <= k < |inputs| && inputs[k] == inp;
      PushesContain(g, inputs, k);
    }
    if HasDangling(g, x) {
      var inp :| inp in inputs && Target(g, inp) == Dangling;
      var k :| 0 <= k < |inputs| && inputs[k] == inp;
      PushesContain(g, inputs, k);
    }
    forall inp | inp in inputs ensures Target(g, inp) != RefTo(root) {
      var k :| 0 <= k < |inputs| && inputs[k] == inp;
    }
  }

  /** The entry an input pushes is justified by the item that owns the input. */
  lemma PushOk(g: Graph, root: Item, stack: seq<Ref>, x: Item, inp: Input)
    requires StackOk(g, root, stack) && Reachable(g, root, x) && inp in ItemInputs(x)
    requires Target(g, inp) != NoRef
    ensures StackOk(g, root, stack + [Target(g, inp)])
  {
    var t := Target(g, inp);
    if t.RefTo? {
      assert Edge(g, x, t.item);
      ReachableStep(g, root, x, t.item);
    } else {
      assert HasDangling(g, x);
    }
    var s := stack + [t];
    assert forall k :: 0 <= k < |stack| ==> s[k] == stack[k];
  }

  /** The entries pushed for `inputs`, in order: one per input that names a node or subgraph. */
  function Pushes(g: Graph, inputs: seq<Input>): seq<Ref> {
    if |inputs| == 0 then []
    else
      var t := Target(g, inputs[|inputs| - 1]);
      Pushes(g, inputs[..|inputs| - 1]) + (if t == NoRef then [] else [t])
  }

  lemma {:induction false} PushesContain(g: Graph, inputs: seq<Input>, k: nat)
    requires k < |inputs| && Target(g, inputs[k]) != NoRef
    ensures Target(g, inputs[k]) in Pushes(g, inputs)
    decreases |inputs|
  {
    if k < |inputs| - 1 {
      PushesContain(g, inputs[..|inputs| - 1], k);
    }
  }

  lemma {:induction false} PushesOk(g: Graph, root: Item, stack0: seq<Ref>, x: Item, inputs: seq<Input>)
    requires StackOk(g, root, stack0) && Reachable(g, root, x)
    requires forall inp :: inp in inputs ==> inp in ItemInputs(x)
    ensures StackOk(g, root, stack0 + Pushes(g, inputs))
    decreases |inputs|
  {
    if |inputs| > 0 {
      var init := inputs[..|inputs| - 1];
      PushesOk(g, root, stack0, x, init);
      var last := inputs[|inputs| - 1];
      assert stack0 + Pushes(g, inputs) ==
        (stack0 + Pushes(g, init)) + (if Target(g, last) == NoRef then [] else [Target(g, last)]);
      if Target(g, last) != NoRef {
        PushOk(g, root, stack0 + Pushes(g, init), x, last);
      }
    }
  }

  /**
   * The loop `for inp in item.inputs`: pushes what each input refers to, in order, and
   * stops at the first input that refers to the root.
   */
  method FollowInputs(g: Graph, root: Item, x: Item, stack0: seq<Ref>) returns (cycle: bool, stack: seq<Ref>)
    ensures cycle <==> exists k :: 0 <= k < |ItemInputs(x)| && Target(g, ItemInputs(x)[k]) == RefTo(root)
    ensures cycle ==> Edge(g, x, root)
    ensures !cycle ==> stack == stack0 + Pushes(g, ItemInputs(x))
  {
    var inputs := ItemInputs(x);
    stack := stack0;
    var j := 0;
    while j < |inputs|
      invariant 0 <= j <= |inputs|
      invariant stack == stack0 + Pushes(g, inputs[..j])
      invariant forall k :: 0 <= k < j ==> Target(g, inputs[k]) != RefTo(root)
    {
      var t := Target(g, inputs[j]);
      if t == RefTo(root) {
        assert Edge(g, x, root);
        return true, stack;
      }
      assert inputs[..j + 1][..j] == inputs[..j];
      if t != NoRef {
        stack := stack + [t];
      }
      j := j + 1;
    }
    assert inputs[..j] == inputs;
    return false, stack;
  }

  /** The invariant of the loop `while stack:` of a search from `root` over `v0`. */
  ghost predicate SearchInv(g: Graph, root: Item, v0: Visited, v: Visited, stack: seq<Ref>) {
    && VisitedLe(v0, v)
    && StackOk(g, root, stack)
    && (Seen(v, root) || (stack == [RefTo(root)] && v == v0))
    && Frontier(g, root, v0, v, stack, None)
  }

  /** The visit half of a round: mark the popped, unvisited `x` and follow its inputs. */
  method VisitStep(g: Graph, root: Item, v0: Visited, v: Visited, rest: seq<Ref>, x: Item)
    returns (r: Option<Error>, v': Visited, stack': seq<Ref>)
    requires UniqueNames(g) && Member(g, root) && Closed(g, v0)
    requires Member(g, x) && Reachable(g, root, x) && !Seen(v, x)
    requires VisitedLe(v0, v) && StackOk(g, root, rest)
    requires Seen(v, root) || (x == root && v == v0)
    requires Frontier(g, root, v0, v, rest + [RefTo(x)], None)
    ensures r.None? ==> SearchInv(g, root, v0, v', stack')
    ensures r.None? ==> Unvisited(g, v') < Unvisited(g, v)
    ensures r.Some? ==> !Seen(v0, root) && RootError(g, root, r.value)
  {
    MarkDecreases(g, v, x);
    PopMark(g, root, v0, v, rest, x);
    v' := Mark(v, x);
    var cycle;
    cycle, stack' := FollowInputs(g, root, x, rest);
    if cycle {
      ClosedReach(g, v0, root, x);
      return Some(CycleError(root)), v', stack';
    }
    PushesOk(g, root, rest, x, ItemInputs(x));
    Grow(g, root, v0, v', rest, stack', Some(x));
    FollowedAll(g, root, v', rest, x);
    Absorb(g, root, v0, v', stack', x);
    MarkSeen(g, v, x, root);
    r := None;
  }

  /**
   * One round of the loop `while stack:`: pop the top entry, skip it if visited, otherwise
   * visit it and follow its inputs. `r` is the error raised, if any.
   */
  method SearchStep(g: Graph, root: Item, v0: Visited, v: Visited, stack: seq<Ref>)
    returns (r: Option<Error>, v': Visited, stack': seq<Ref>)
    requires UniqueNames(g) && Member(g, root) && Closed(g, v0)
    requires |stack| > 0 && SearchInv(g, root, v0, v, stack)
    ensures r.None? ==> SearchInv(g, root, v0, v', stack')
    ensures r.None? ==> Unvisited(g, v') < Unvisited(g, v) || (v' == v && |stack'| < |stack|)
    ensures r.Some? ==> !Seen(v0, root) && RootError(g, root, r.value)
  {
    var top := stack[|stack| - 1];
    var rest := stack[..|stack| - 1];
    PopOk(g, root, stack);
    if top.Dangling? {
      DanglingTop(g, root, v0, stack);
      return Some(NoneHasNoInputs), v, rest;
    }
    var x := top.item;
    if Seen(v, x) {
      SkipSeen(g, root, v0, v, stack);
      return None, v, rest;
    }
    r, v', stack' := VisitStep(g, root, v0, v, rest, x);
  }

  /** Popping keeps the rest of the stack justified, and the top is a `Dangling` or a member. */
  lemma PopOk(g: Graph, root: Item, stack: seq<Ref>)
    requires |stack| > 0 && StackOk(g, root, stack)
    ensures stack == stack[..|stack| - 1] + [stack[|stack| - 1]]
    ensures StackOk(g, root, stack[..|stack| - 1])
    ensures stack[|stack| - 1].RefTo? ==>
      Member(g, stack[|stack| - 1].item) && Reachable(g, root, stack[|stack| - 1].item)
    ensures !stack[|stack| - 1].NoRef?
  {
    var rest := stack[..|stack| - 1];
    assert forall k :: 0 <= k < |rest| ==> rest[k] == stack[k];
  }

  /** A popped `Dangling` is an error that only a root new to the search can raise. */
  lemma DanglingTop(g: Graph, root: Item, v0: Visited, stack: seq<Ref>)
    requires Closed(g, v0) && Member(g, root)
    requires |stack| > 0 && StackOk(g, root, stack) && stack[|stack| - 1].Dangling?
    ensures !Seen(v0, root) && RootError(g, root, NoneHasNoInputs)
  {
    assert ReachesDangling(g, root);
    var y :| Reachable(g, root, y) && HasDangling(g, y);
    ClosedReach(g, v0, root, y);
  }

  /** Skipping a visited top keeps the search invariant. */
  lemma SkipSeen(g: Graph, root: Item, v0: Visited, v: Visited, stack: seq<Ref>)
    requires |stack| > 0 && SearchInv(g, root, v0, v, stack)
    requires stack[|stack| - 1].RefTo? && Seen(v, stack[|stack| - 1].item)
    ensures SearchInv(g, root, v0, v, stack[..|stack| - 1])
  {
    PopOk(g, root, stack);
    PopSeen(g, root, v0, v, stack[..|stack| - 1], stack[|stack| - 1].item);
  }

  /** One search of the loop `while stack:` started from `root`, over the visited sets `v0`. */
  method Explore(g: Graph, root: Item, v0: Visited) returns (r: Outcome<Error>, v: Visited)
    requires UniqueNames(g) && Member(g, root) && Closed(g, v0)
    ensures r.Pass? ==> Closed(g, v)
    ensures r.Pass? ==> forall x :: Member(g, x) ==> (Seen(v, x) <==> Seen(v0, x) || Reachable(g, root, x))
    ensures r.Pass? <==> Seen(v0, root) || (!OnCycle(g, root) && !ReachesDangling(g, root))
    ensures r.Fail? ==> RootError(g, root, r.error)
  {
    v := v0;
    var stack: seq<Ref> := [RefTo(root)];
    ReachableRefl(g, root);
    while |stack| > 0
      invariant SearchInv(g, root, v0, v, stack)
      decreases Unvisited(g, v), |stack|
    {
      var e;
      e, v, stack := SearchStep(g, root, v0, v, stack);
      if e.Some? {
        return Fail(e.value), v;
      }
    }
    ExploreDone(g, root, v0, v);
    r := Pass;
  }

  // ---------------------------------------------------------------------------------
  // The check over all roots

  /** Root `i` was visited by the search of an earlier root. */
  ghost predicate ReachedBefore(g: Graph, roots: seq<Item>, i: nat)
    requires i < |roots|
  {
    exists k :: 0 <= k < i && Reachable(g, roots[k], roots[i])
  }

  /** Root `i` makes the shared-visited search raise: it is new to it and on a cycle or a dangling path. */
  ghost predicate Bad(g: Graph, roots: seq<Item>, i: nat)
    requires i < |roots|
  {
    !ReachedBefore(g, roots, i) && (OnCycle(g, roots[i]) || ReachesDangling(g, roots[i]))
  }

  /** What `_validate_acyclicity` as written accepts: no root makes the shared-visited search raise. */
  ghost predicate SearchPasses(g: Graph) {
    forall i :: 0 <= i < |Roots(g)| ==> !Bad(g, Roots(g), i)
  }

  /** The visited sets hold exactly what the searches of the first `i` roots reach. */
  ghost predicate SeenExactly(g: Graph, roots: seq<Item>, i: nat, v: Visited)
    requires i <= |roots|
  {
    forall x :: Member(g, x) ==> (Seen(v, x) <==> exists k :: 0 <= k < i && Reachable(g, roots[k], x))
  }

  lemma SeenStep(g: Graph, roots: seq<Item>, i: nat, v: Visited, v': Visited)
    requires i < |roots| && SeenExactly(g, roots, i, v)
    requires forall x :: Member(g, x) ==> (Seen(v', x) <==> Seen(v, x) || Reachable(g, roots[i], x))
    ensures SeenExactly(g, roots, i + 1, v')
  {
    forall x | Member(g, x)
      ensures Seen(v', x) <==> exists k :: 0 <= k < i + 1 && Reachable(g, roots[k], x)
    {
      if Reachable(g, roots[i], x) {
        assert 0 <= i < i + 1 && Reachable(g, roots[i], x);
      }
    }
  }

  lemma SeenRoot(g: Graph, roots: seq<Item>, i: nat, v: Visited)
    requires i < |roots| && Member(g, roots[i]) && SeenExactly(g, roots, i, v)
    ensures Seen(v, roots[i]) <==> ReachedBefore(g, roots, i)
  {
  }

  lemma BadIff(g: Graph, roots: seq<Item>, i: nat, seen: bool, pass: bool)
    requires i < |roots|
    requires seen <==> ReachedBefore(g, roots, i)
    requires pass <==> seen || (!OnCycle(g, roots[i]) && !ReachesDangling(g, roots[i]))
    ensures pass <==> !Bad(g, roots, i)
  {
  }

  /** No root before `i` makes the shared-visited search raise. */
  ghost predicate NoBadBefore(g: Graph, roots: seq<Item>, i: nat)
    requires i <= |roots|
  {
    forall k :: 0 <= k < i ==> !Bad(g, roots, k)
  }

  lemma NoBadStep(g: Graph, roots: seq<Item>, i: nat)
    requires i < |roots| && NoBadBefore(g, roots, i) && !Bad(g, roots, i)
    ensures NoBadBefore(g, roots, i + 1)
  {
  }

  /** Root `i` is the first bad root, so the check's failure is justified by it. */
  lemma FirstBad(g: Graph, roots: seq<Item>, i: nat, e: Error)
    requires roots == Roots(g) && i < |roots| && Bad(g, roots, i) && RootError(g, roots[i], e)
    requires NoBadBefore(g, roots, i)
    ensures exists j :: (0 <= j < |Roots(g)| && Bad(g, Roots(g), j) &&
      (forall k :: 0 <= k < j ==> !Bad(g, Roots(g), k)) && RootError(g, Roots(g)[j], e))
  {
  }

  /**
   * `_validate_acyclicity` as written: one pair of visited sets for all roots, so a root
   * already reached from an earlier root is never searched from.
   */
  method CheckAcyclicity(g: Graph) returns (r: Outcome<Error>)
    requires UniqueNames(g)
    ensures r.Pass? <==> SearchPasses(g)
    ensures r.Fail? ==> exists i :: (0 <= i < |Roots(g)| && Bad(g, Roots(g), i) &&
      (forall k :: 0 <= k < i ==> !Bad(g, Roots(g), k)) && RootError(g, Roots(g)[i], r.error))
  {
    var roots := Roots(g);
    var v := Visited({}, {});
    var i := 0;
    while i < |roots|
      invariant 0 <= i <= |roots|
      invariant Closed(g, v) && SeenExactly(g, roots, i, v)
      invariant NoBadBefore(g, roots, i)
    {
      var e, v' := Explore(g, roots[i], v);
      SeenRoot(g, roots, i, v);
      BadIff(g, roots, i, Seen(v, roots[i]), e.Pass?);
      if e.Fail? {
        r := e;
        FirstBad(g, roots, i, r.error);
        return;
      }
      SeenStep(g, roots, i, v, v');
      NoBadStep(g, roots, i);
      v := v';
      i := i + 1;
    }
    r := Pass;
  }

  /** The finding's counterexample: node `b` feeds itself and `a`; only `a` is listed first. */
  function SelfLoopGraph(): Graph {
    var ep := Entrypoint("v1", "h", "python:3.8", None, None);
    var fromB := DataSource(Some("b"), None, Some("out"), None);
    var a := Node("a", ep, None, map[], [Input("in", "int", fromB)], [Output("out", "int")]);
    var b := Node("b", ep, None, map[], [Input("in", "int", fromB)], [Output("out", "int")]);
    Graph("g", [a, b], [], [], [])
  }

  /** In the counterexample every input refers to `b`, which exists. */
  lemma SelfLoopTargets()
    ensures forall x, inp :: Member(SelfLoopGraph(), x) && inp in ItemInputs(x) ==>
      Target(SelfLoopGraph(), inp) == RefTo(NodeItem(SelfLoopGraph().nodes[1]))
  {
    var g := SelfLoopGraph();
    assert Target(g, g.nodes[0].inputs[0]) == RefTo(NodeItem(g.nodes[1]));
  }

  /** Nothing feeds `a` and nothing is missing: the search from `a` passes. */
  lemma SelfLoopRootPasses()
    ensures !OnCycle(SelfLoopGraph(), NodeItem(SelfLoopGraph().nodes[0]))
    ensures !ReachesDangling(SelfLoopGraph(), NodeItem(SelfLoopGraph().nodes[0]))
  {
    var g := SelfLoopGraph();
    var a := NodeItem(g.nodes[0]);
    SelfLoopTargets();
    forall y | Reachable(g, a, y) ensures !Edge(g, y, a) && !HasDangling(g, y) {
      ReachableMember(g, a, y);
    }
  }

  /** The shared visited sets let the search pass a graph in which node `b` is on a cycle. */
  lemma CheckAcyclicityMissesSelfLoop()
    ensures UniqueNames(SelfLoopGraph())
    ensures SearchPasses(SelfLoopGraph())
    ensures OnCycle(SelfLoopGraph(), Roots(SelfLoopGraph())[1]) && !Acyclic(SelfLoopGraph())
  {
    var g := SelfLoopGraph();
    var roots := Roots(g);
    var a, b := roots[0], roots[1];
    assert a == NodeItem(g.nodes[0]) && b == NodeItem(g.nodes[1]);
    SelfLoopTargets();
    assert g.nodes[0].inputs[0] in ItemInputs(a) && g.nodes[1].inputs[0] in ItemInputs(b);
    assert Edge(g, a, b) && Edge(g, b, b);
    ReachableRefl(g, a);
    ReachableRefl(g, b);
    ReachableStep(g, a, a, b);
    assert ReachedBefore(g, roots, 1);
    SelfLoopRootPasses();
    assert !Bad(g, roots, 0);
    assert Member(g, b);
  }

  /**
   * The shared-visited search accepts every graph without cycles. What its acceptance
   * guarantees is weaker: every root on a cycle or a dangling path was reached from an
   * earlier root, so at least the first root is clean.
   */
  lemma SearchPassesMeans(g: Graph)
    ensures Acyclic(g) ==> SearchPasses(g)
    ensures SearchPasses(g) ==> forall i :: 0 <= i < |Roots(g)| && (OnCycle(g, Roots(g)[i]) || ReachesDangling(g, Roots(g)[i])) ==>
      ReachedBefore(g, Roots(g), i)
    ensures SearchPasses(g) && |Roots(g)| > 0 ==> !OnCycle(g, Roots(g)[0]) && !ReachesDangling(g, Roots(g)[0])
  {
    var roots := Roots(g);
    if Acyclic(g) {
      forall i | 0 <= i < |roots| ensures !Bad(g, roots, i) {
        assert Member(g, roots[i]);
      }
    }
    if SearchPasses(g) {
      forall i | 0 <= i < |roots| && (OnCycle(g, roots[i]) || ReachesDangling(g, roots[i]))
        ensures ReachedBefore(g, roots, i)
      {
        assert !Bad(g, roots, i);
      }
      if |roots| > 0 {
        assert !Bad(g, roots, 0);
        assert !ReachedBefore(g, roots, 0);
      }
    }
  }

  /**
   * The corrected check: each root is searched with empty visited sets, so the check
   * passes exactly when no item is on a cycle or reaches a missing entity.
   */
  /** A search from `root` with nothing visited yet. */
  method ExploreFresh(g: Graph, root: Item) returns (r: Outcome<Error>)
    requires UniqueNames(g) && Member(g, root)
    ensures r.Pass? <==> !OnCycle(g, root) && !ReachesDangling(g, root)
    ensures r.Fail? ==> RootError(g, root, r.error)
  {
    var v0 := Visited({}, {});
    assert !Seen(v0, root);
    var v;
    r, v := Explore(g, root, v0);
  }

  method CheckAcyclicityFixed(g: Graph) returns (r: Outcome<Error>)
    requires UniqueNames(g)
    ensures r.Pass? <==> Acyclic(g)
    ensures r.Fail? ==> exists x :: Member(g, x) && RootError(g, x, r.error)
  {
    var roots := Roots(g);
    var i := 0;
    while i < |roots|
      invariant 0 <= i <= |roots|
      invariant forall k :: 0 <= k < i ==> !OnCycle(g, roots[k]) && !ReachesDangling(g, roots[k])
    {
      var e := ExploreFresh(g, roots[i]);
      if e.Fail? {
        r := e;
        return;
      }
      i := i + 1;
    }
    AcyclicFromRoots(g);
    r := Pass;
  }

  lemma AcyclicFromRoots(g: Graph)
    requires forall k :: 0 <= k < |Roots(g)| ==> !OnCycle(g, Roots(g)[k]) && !ReachesDangling(g, Roots(g)[k])
    ensures Acyclic(g)
  {
    forall x | Member(g, x) ensures !OnCycle(g, x) && !ReachesDangling(g, x) {
      var k :| 0 <= k < |Roots(g)| && Roots(g)[k] == x;
    }
  }
}
