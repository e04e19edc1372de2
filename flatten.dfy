/**
 * `Package.flatten_graph`: inline every embedded subgraph of a graph, recursively. Each
 * subgraph's graph is flattened first; its nodes are renamed `S.n`, references from the
 * parent to the subgraph's outputs are redirected to the sources behind those outputs,
 * and references of the inlined nodes to the subgraph's inputs are replaced by the
 * sources the parent feeds into them. The merged graph drops its subgraphs and is
 * validated.
 *
 * Graphs and sources are values: the deep copy at the start of `flatten_graph` makes
 * the package unchanged by construction.
 */
module Flatten {
  import opened Wrappers
  import opened Pir
  import opened Validation

  // ---------------------------------------------------------------------------------
  // The embedding relation and the measure of the recursion

  /** The graph named `a` (the first one, as `find_by_name` finds it) embeds graph `b`. */
  ghost predicate Nests(p: Package, a: string, b: string) {
    match FindByName(p.graphs, GraphName, a)
    case None => false
    case Some(g) => exists s :: s in g.subgraphs && s.graph == b
  }

  ghost predicate NestPath(p: Package, path: seq<string>) {
    forall i :: 0 <= i < |path| - 1 ==> Nests(p, path[i], path[i + 1])
  }

  /** Flattening `a` flattens `b`, directly or through intermediate graphs. */
  ghost predicate Reaches(p: Package, a: string, b: string) {
    exists path :: |path| > 0 && path[0] == a && path[|path| - 1] == b && NestPath(p, path)
  }

  /** Graph `a` embeds itself, directly or not. */
  ghost predicate Loops(p: Package, a: string) {
    exists b :: Nests(p, a, b) && Reaches(p, b, a)
  }

  /**
   * What `flatten_graph(name)` needs to finish: every graph it reaches exists, and none of
   * them embeds itself.
   */
  ghost predicate WellNested(p: Package, name: string) {
    forall b :: Reaches(p, name, b) ==> FindByName(p.graphs, GraphName, b).Some? && !Loops(p, b)
  }

  function GraphNameSet(p: Package): set<string> {
    set g | g in p.graphs :: g.name
  }

  /** The graphs the flattening of `a` reaches: the measure of the recursion. */
  ghost function Reach(p: Package, a: string): set<string> {
    set b | b in GraphNameSet(p) && Reaches(p, a, b)
  }

  lemma ReachesRefl(p: Package, a: string)
    ensures Reaches(p, a, a)
  {
    assert NestPath(p, [a]);
  }

  lemma ReachesStep(p: Package, a: string, b: string, c: string)
    requires Nests(p, a, b) && Reaches(p, b, c)
    ensures Reaches(p, a, c)
  {
    var path :| |path| > 0 && path[0] == b && path[|path| - 1] == c && NestPath(p, path);
    var path' := [a] + path;
    assert forall i :: 0 < i < |path'| - 1 ==> path'[i] == path[i - 1] && path'[i + 1] == path[i];
    assert NestPath(p, path');
  }

  /** An embedded graph is well nested too, and reaches strictly fewer graphs. */
  lemma Nested(p: Package, a: string, b: string)
    requires WellNested(p, a) && Nests(p, a, b)
    ensures WellNested(p, b) && |Reach(p, b)| < |Reach(p, a)|
  {
    forall c | Reaches(p, b, c) ensures Reaches(p, a, c) {
      ReachesStep(p, a, b, c);
    }
    ReachesRefl(p, a);
    var g := FindByName(p.graphs, GraphName, a).value;
    assert g in p.graphs && g.name == a;
    assert a in Reach(p, a);
    assert !Reaches(p, b, a) by {
      assert !Loops(p, a);
    }
    FewerInSubset(Reach(p, b), Reach(p, a), a);
  }

  lemma FewerInSubset(small: set<string>, big: set<string>, x: string)
    requires small <= big && x in big && x !in small
    ensures |small| < |big|
  {
    var rest := big - small;
    assert big == small + rest && small * rest == {};
    assert x in rest;
  }

  /** The graph `find_by_name` finds for a well-nested name. */
  function TheGraph(p: Package, name: string): (g: Graph)
    requires WellNested(p, name)
    ensures g in p.graphs && g.name == name
  {
    ReachesRefl(p, name);
    FindByName(p.graphs, GraphName, name).value
  }

  lemma AllNested(p: Package, name: string)
    requires WellNested(p, name)
    ensures forall s :: s in TheGraph(p, name).subgraphs ==>
      WellNested(p, s.graph) && |Reach(p, s.graph)| < |Reach(p, name)|
  {
    forall s | s in TheGraph(p, name).subgraphs
      ensures WellNested(p, s.graph) && |Reach(p, s.graph)| < |Reach(p, name)|
    {
      Nested(p, name, s.graph);
    }
  }

  /** A graph without subgraphs is well nested and reaches only itself. */
  lemma LeafWellNested(p: Package, g: Graph)
    requires FindByName(p.graphs, GraphName, g.name) == Some(g) && g.subgraphs == []
    ensures WellNested(p, g.name)
  {
    assert forall c :: !Nests(p, g.name, c);
    forall b | Reaches(p, g.name, b) ensures b == g.name {
      var path :| |path| > 0 && path[0] == g.name && path[|path| - 1] == b && NestPath(p, path);
      var first, second := path[0], path[if |path| > 1 then 1 else 0];
      assert |path| > 1 ==> Nests(p, first, second);
      assert !Nests(p, first, second);
    }
  }

  // ---------------------------------------------------------------------------------
  // Renaming the nodes of an inlined graph

  function Qualify(prefix: string, name: string): string {
    prefix + "." + name
  }

  lemma QualifyInjective(prefix: string, a: string, b: string)
    requires Qualify(prefix, a) == Qualify(prefix, b)
    ensures a == b
  {
    assert a == Qualify(prefix, a)[|prefix| + 1..];
    assert b == Qualify(prefix, b)[|prefix| + 1..];
  }

  /** A node reference gets the subgraph's prefix; other sources are kept. */
  function RenameSource(prefix: string, src: DataSource): DataSource {
    match src.node
    case Some(n) => src.(node := Some(Qualify(prefix, n)))
    case None => src
  }

  function RenameInput(prefix: string, i: Input): Input {
    i.(source := RenameSource(prefix, i.source))
  }

  function RenamedInputs(prefix: string, inputs: seq<Input>): seq<Input> {
    seq(|inputs|, k requires 0 <= k < |inputs| => RenameInput(prefix, inputs[k]))
  }

  function RenameNode(prefix: string, n: Node): Node {
    n.(name := Qualify(prefix, n.name), inputs := RenamedInputs(prefix, n.inputs))
  }

  function RenamedNodes(prefix: string, nodes: seq<Node>): seq<Node> {
    seq(|nodes|, k requires 0 <= k < |nodes| => RenameNode(prefix, nodes[k]))
  }

  function RenameOutput(prefix: string, o: GraphOutput): GraphOutput {
    o.(source := RenameSource(prefix, o.source))
  }

  function RenamedOutputs(prefix: string, outputs: seq<GraphOutput>): seq<GraphOutput> {
    seq(|outputs|, k requires 0 <= k < |outputs| => RenameOutput(prefix, outputs[k]))
  }

  /** `for i in n.inputs: if i.source.node is not None: i.source.node = f"{subgraph.name}.{…}"`. */
  method RenameInputs(prefix: string, inputs: seq<Input>) returns (r: seq<Input>)
    ensures r == RenamedInputs(prefix, inputs)
  {
    r := [];
    for k := 0 to |inputs|
      invariant |r| == k
      invariant forall j :: 0 <= j < k ==> r[j] == RenameInput(prefix, inputs[j])
    {
      var i := inputs[k];
      if i.source.node.Some? {
        i := i.(source := i.source.(node := Some(Qualify(prefix, i.source.node.value))));
      }
      r := r + [i];
    }
  }

  /** `for n in g.nodes:` rename the node, then its node-sourced inputs. */
  method RenameNodes(prefix: string, nodes: seq<Node>) returns (r: seq<Node>)
    ensures r == RenamedNodes(prefix, nodes)
  {
    r := [];
    for k := 0 to |nodes|
      invariant |r| == k
      invariant forall j :: 0 <= j < k ==> r[j] == RenameNode(prefix, nodes[j])
    {
      var n := nodes[k];
      var inputs := RenameInputs(prefix, n.inputs);
      r := r + [n.(name := Qualify(prefix, n.name), inputs := inputs)];
    }
  }

  /** `for o in g.outputs: if o.source.node is not None: o.source.node = f"{subgraph.name}.{…}"`. */
  method RenameOutputs(prefix: string, outputs: seq<GraphOutput>) returns (r: seq<GraphOutput>)
    ensures r == RenamedOutputs(prefix, outputs)
  {
    r := [];
    for k := 0 to |outputs|
      invariant |r| == k
      invariant forall j :: 0 <= j < k ==> r[j] == RenameOutput(prefix, outputs[j])
    {
      var o := outputs[k];
      if o.source.node.Some? {
        o := o.(source := o.source.(node := Some(Qualify(prefix, o.source.node.value))));
      }
      r := r + [o];
    }
  }

  /** Renaming keeps the wiring inside the inlined graph: `S.m` is found exactly where `m` was. */
  lemma {:induction false} RenameKeepsLookup(prefix: string, nodes: seq<Node>, m: string)
    ensures FindByName(RenamedNodes(prefix, nodes), NodeName, Qualify(prefix, m)) ==
      match FindByName(nodes, NodeName, m)
      case Some(n) => Some(RenameNode(prefix, n))
      case None => None
  {
    if |nodes| > 0 {
      var renamed := RenamedNodes(prefix, nodes);
      assert renamed[1..] == RenamedNodes(prefix, nodes[1..]);
      if nodes[0].name != m {
        if renamed[0].name == Qualify(prefix, m) {
          QualifyInjective(prefix, nodes[0].name, m);
        }
      }
      RenameKeepsLookup(prefix, nodes[1..], m);
    }
  }

  // ---------------------------------------------------------------------------------
  // Rewiring a source: redirecting subgraph outputs and substituting graph inputs

  function GraphOutputSource(o: GraphOutput): DataSource { o.source }
  function InputSource(i: Input): DataSource { i.source }
  function SourceOutput(s: DataSource): Option<string> { s.output }
  function SourceGraphInput(s: DataSource): Option<string> { s.graphInput }

  /** The source of the item named `key`, if one has that name. */
  function SourceNamed<T>(items: seq<T>, nameOf: T -> string, sourceOf: T -> DataSource, key: Option<string>)
    : (r: Option<DataSource>)
    ensures r.Some? <==> key.Some? && exists k :: 0 <= k < |items| && nameOf(items[k]) == key.value
  {
    if key.None? then None
    else
      match FindByName(items, nameOf, key.value)
      case None => None
      case Some(x) => Some(sourceOf(x))
  }

  /** The item found is the first one named `key`. */
  lemma SourceNamedFirst<T>(items: seq<T>, nameOf: T -> string, sourceOf: T -> DataSource, key: Option<string>, k: nat)
    requires k < |items| && Some(nameOf(items[k])) == key
    requires forall j :: 0 <= j < k ==> Some(nameOf(items[j])) != key
    ensures SourceNamed(items, nameOf, sourceOf, key) == Some(sourceOf(items[k]))
  {
    FindByNameFirst(items, nameOf, key.value, k);
  }

  /** The intended rewiring: `src` becomes the source of the first item its key names. */
  function Rewired<T>(src: DataSource, items: seq<T>, nameOf: T -> string, sourceOf: T -> DataSource,
                      key: DataSource -> Option<string>): DataSource
  {
    match SourceNamed(items, nameOf, sourceOf, key(src))
    case Some(s) => s
    case None => src
  }

  /**
   * The inner loops as written: every item whose name equals the key of the CURRENT source
   * replaces it, so a replacement can be replaced again by a later item.
   */
  function RewireChain<T>(src: DataSource, items: seq<T>, nameOf: T -> string, sourceOf: T -> DataSource,
                          key: DataSource -> Option<string>): DataSource
    decreases |items|
  {
    if |items| == 0 then src
    else
      var next := if Some(nameOf(items[0])) == key(src) then sourceOf(items[0]) else src;
      RewireChain(next, items[1..], nameOf, sourceOf, key)
  }

  /** An item list that no key of the current source names leaves the source alone. */
  lemma {:induction false} ChainNoMatch<T>(src: DataSource, items: seq<T>, nameOf: T -> string,
                                          sourceOf: T -> DataSource, key: DataSource -> Option<string>)
    requires forall k :: 0 <= k < |items| ==> Some(nameOf(items[k])) != key(src)
    ensures RewireChain(src, items, nameOf, sourceOf, key) == src
    decreases |items|
  {
    if |items| > 0 {
      ChainNoMatch(src, items[1..], nameOf, sourceOf, key);
    }
  }

  /**
   * When no item's source carries a key naming a later item, the loop as written fires at
   * most once and agrees with the intended rewiring.
   */
  lemma {:induction false} RewireChainAgrees<T>(src: DataSource, items: seq<T>, nameOf: T -> string,
                                               sourceOf: T -> DataSource, key: DataSource -> Option<string>)
    requires forall j, k :: 0 <= j < k < |items| ==> key(sourceOf(items[j])) != Some(nameOf(items[k]))
    ensures RewireChain(src, items, nameOf, sourceOf, key) == Rewired(src, items, nameOf, sourceOf, key)
    decreases |items|
  {
    if |items| > 0 {
      if Some(nameOf(items[0])) == key(src) {
        forall k | 0 <= k < |items[1..]| ensures Some(nameOf(items[1..][k])) != key(sourceOf(items[0])) {
          assert items[1..][k] == items[k + 1];
        }
        ChainNoMatch(sourceOf(items[0]), items[1..], nameOf, sourceOf, key);
        SourceNamedFirst(items, nameOf, sourceOf, key(src), 0);
      } else {
        forall j, k | 0 <= j < k < |items[1..]|
          ensures key(sourceOf(items[1..][j])) != Some(nameOf(items[1..][k]))
        {
          assert items[1..][j] == items[j + 1] && items[1..][k] == items[k + 1];
        }
        RewireChainAgrees(src, items[1..], nameOf, sourceOf, key);
      }
    }
  }

  /** One more round of the loop as written, from item `k`. */
  lemma ChainStep<T>(src: DataSource, items: seq<T>, nameOf: T -> string, sourceOf: T -> DataSource,
                     key: DataSource -> Option<string>, k: nat)
    requires k < |items|
    ensures RewireChain(src, items[k..], nameOf, sourceOf, key) ==
      RewireChain(if Some(nameOf(items[k])) == key(src) then sourceOf(items[k]) else src, items[k + 1..],
                  nameOf, sourceOf, key)
  {
    assert items[k..][0] == items[k] && items[k..][1..] == items[k + 1..];
  }

  /**
   * The inner loop `for o in subgraph_outputs: if o.name == inp.source.output: inp.source = o.source`
   * (and its twin over the subgraph inputs), which has no `break`.
   */
  method RewireSource<T>(src: DataSource, items: seq<T>, nameOf: T -> string, sourceOf: T -> DataSource,
                         key: DataSource -> Option<string>) returns (r: DataSource)
    ensures r == RewireChain(src, items, nameOf, sourceOf, key)
  {
    r := src;
    assert items[0..] == items;
    for k := 0 to |items|
      invariant RewireChain(r, items[k..], nameOf, sourceOf, key) == RewireChain(src, items, nameOf, sourceOf, key)
    {
      ChainStep(r, items, nameOf, sourceOf, key, k);
      if Some(nameOf(items[k])) == key(r) {
        r := sourceOf(items[k]);
      }
    }
  }

  /** Which inner loops a round of the flattening runs. */
  datatype Wiring =
    | AsWritten         // the loops of `flatten_graph`, without `break`
    | FirstMatch        // the intended rewiring: the first item that fires decides

  function Rewire<T>(w: Wiring, src: DataSource, items: seq<T>, nameOf: T -> string, sourceOf: T -> DataSource,
                     key: DataSource -> Option<string>): DataSource
  {
    match w
    case AsWritten => RewireChain(src, items, nameOf, sourceOf, key)
    case FirstMatch => Rewired(src, items, nameOf, sourceOf, key)
  }

  /** A reference to a subgraph output, redirected to the source of the inlined output. */
  function Redirected(w: Wiring, src: DataSource, outs: seq<GraphOutput>): DataSource {
    Rewire(w, src, outs, GraphOutputName, GraphOutputSource, SourceOutput)
  }

  /** A reference to a subgraph input, replaced by the source feeding that input. */
  function Substituted(w: Wiring, src: DataSource, sins: seq<Input>): DataSource {
    Rewire(w, src, sins, InputName, InputSource, SourceGraphInput)
  }

  /** One subgraph output sourced from a node output named like a later subgraph output. */
  function ChainedOutputs(): seq<GraphOutput> {
    [ GraphOutput("result", "int", DataSource(Some("S.train"), None, Some("model"), None)),
      GraphOutput("model", "int", DataSource(Some("S.eval"), None, Some("score"), None)) ]
  }

  /** A parent input reading output `result` of subgraph `S` ends up wired to `S.eval`'s `score`. */
  lemma RedirectChainFiresTwice()
    ensures Distinct(Names(ChainedOutputs(), GraphOutputName))
    ensures Redirected(FirstMatch, DataSource(None, Some("S"), Some("result"), None), ChainedOutputs())
      == DataSource(Some("S.train"), None, Some("model"), None)
    ensures Redirected(AsWritten, DataSource(None, Some("S"), Some("result"), None), ChainedOutputs())
      == DataSource(Some("S.eval"), None, Some("score"), None)
  {
    var outs := ChainedOutputs();
    var src := DataSource(None, Some("S"), Some("result"), None);
    assert "result" != "model";
    SourceNamedFirst(outs, GraphOutputName, GraphOutputSource, Some("result"), 0);
    assert RewireChain(src, outs, GraphOutputName, GraphOutputSource, SourceOutput)
      == RewireChain(outs[0].source, outs[1..], GraphOutputName, GraphOutputSource, SourceOutput);
  }

  /** Subgraph inputs where `a` is fed from the parent's graph input `b` and `b` from a node. */
  function ChainedInputs(): seq<Input> {
    [ Input("a", "int", DataSource(None, None, None, Some("b"))),
      Input("b", "int", DataSource(Some("p"), None, Some("out"), None)) ]
  }

  /** An inlined input reading graph input `a` ends up wired to node `p` instead of graph input `b`. */
  lemma SubstituteChainFiresTwice()
    ensures Distinct(Names(ChainedInputs(), InputName))
    ensures Substituted(FirstMatch, DataSource(None, None, None, Some("a")), ChainedInputs())
      == DataSource(None, None, None, Some("b"))
    ensures Substituted(AsWritten, DataSource(None, None, None, Some("a")), ChainedInputs())
      == DataSource(Some("p"), None, Some("out"), None)
  {
    var sins := ChainedInputs();
    var src := DataSource(None, None, None, Some("a"));
    assert "a" != "b";
    SourceNamedFirst(sins, InputName, InputSource, Some("a"), 0);
    assert RewireChain(src, sins, InputName, InputSource, SourceGraphInput)
      == RewireChain(sins[0].source, sins[1..], InputName, InputSource, SourceGraphInput);
  }

  // ---------------------------------------------------------------------------------
  // The rewrites of one round of `for subgraph in graph.subgraphs`

  /** A parent node input: references to subgraph `sub`'s outputs are redirected. */
  function RedirectInput(w: Wiring, sub: string, outs: seq<GraphOutput>, inp: Input): Input {
    if inp.source.subgraph == Some(sub) then inp.(source := Redirected(w, inp.source, outs)) else inp
  }

  function RedirectedInputs(w: Wiring, sub: string, outs: seq<GraphOutput>, inputs: seq<Input>): seq<Input> {
    seq(|inputs|, k requires 0 <= k < |inputs| => RedirectInput(w, sub, outs, inputs[k]))
  }

  function RedirectNode(w: Wiring, sub: string, outs: seq<GraphOutput>, n: Node): Node {
    n.(inputs := RedirectedInputs(w, sub, outs, n.inputs))
  }

  function RedirectedNodes(w: Wiring, sub: string, outs: seq<GraphOutput>, nodes: seq<Node>): seq<Node> {
    seq(|nodes|, k requires 0 <= k < |nodes| => RedirectNode(w, sub, outs, nodes[k]))
  }

  function RedirectOutput(w: Wiring, sub: string, outs: seq<GraphOutput>, o: GraphOutput): GraphOutput {
    if o.source.subgraph == Some(sub) then o.(source := Redirected(w, o.source, outs)) else o
  }

  function RedirectedOutputs(w: Wiring, sub: string, outs: seq<GraphOutput>, outputs: seq<GraphOutput>)
    : seq<GraphOutput>
  {
    seq(|outputs|, k requires 0 <= k < |outputs| => RedirectOutput(w, sub, outs, outputs[k]))
  }

  /** An inlined node input: references to the subgraph's inputs are substituted. */
  function SubstituteInput(w: Wiring, sins: seq<Input>, i: Input): Input {
    if i.source.graphInput.Some? then i.(source := Substituted(w, i.source, sins)) else i
  }

  function SubstitutedInputs(w: Wiring, sins: seq<Input>, inputs: seq<Input>): seq<Input> {
    seq(|inputs|, k requires 0 <= k < |inputs| => SubstituteInput(w, sins, inputs[k]))
  }

  function SubstituteNode(w: Wiring, sins: seq<Input>, n: Node): Node {
    n.(inputs := SubstitutedInputs(w, sins, n.inputs))
  }

  function SubstitutedNodes(w: Wiring, sins: seq<Input>, nodes: seq<Node>): seq<Node> {
    seq(|nodes|, k requires 0 <= k < |nodes| => SubstituteNode(w, sins, nodes[k]))
  }

  /** `for inp in node.inputs: if inp.source.subgraph == subgraph.name: …`. */
  method RedirectInputs(sub: string, outs: seq<GraphOutput>, inputs: seq<Input>) returns (r: seq<Input>)
    ensures r == RedirectedInputs(AsWritten, sub, outs, inputs)
  {
    r := [];
    for k := 0 to |inputs|
      invariant |r| == k
      invariant forall j :: 0 <= j < k ==> r[j] == RedirectInput(AsWritten, sub, outs, inputs[j])
    {
      var inp := inputs[k];
      if inp.source.subgraph == Some(sub) {
        var src := RewireSource(inp.source, outs, GraphOutputName, GraphOutputSource, SourceOutput);
        inp := inp.(source := src);
      }
      r := r + [inp];
    }
  }

  /** `for node in graph.nodes:` redirect the node's inputs. */
  method RedirectNodes(sub: string, outs: seq<GraphOutput>, nodes: seq<Node>) returns (r: seq<Node>)
    ensures r == RedirectedNodes(AsWritten, sub, outs, nodes)
  {
    r := [];
    for k := 0 to |nodes|
      invariant |r| == k
      invariant forall j :: 0 <= j < k ==> r[j] == RedirectNode(AsWritten, sub, outs, nodes[j])
    {
      var inputs := RedirectInputs(sub, outs, nodes[k].inputs);
      r := r + [nodes[k].(inputs := inputs)];
    }
  }

  /** `for out in graph.outputs: if out.source.subgraph == subgraph.name: …`. */
  method RedirectOutputs(sub: string, outs: seq<GraphOutput>, outputs: seq<GraphOutput>) returns (r: seq<GraphOutput>)
    ensures r == RedirectedOutputs(AsWritten, sub, outs, outputs)
  {
    r := [];
    for k := 0 to |outputs|
      invariant |r| == k
      invariant forall j :: 0 <= j < k ==> r[j] == RedirectOutput(AsWritten, sub, outs, outputs[j])
    {
      var out := outputs[k];
      if out.source.subgraph == Some(sub) {
        var src := RewireSource(out.source, outs, GraphOutputName, GraphOutputSource, SourceOutput);
        out := out.(source := src);
      }
      r := r + [out];
    }
  }

  /** `for i in n.inputs: if i.source.graph_input is not None: for si in subgraph.inputs: …`. */
  method SubstituteInputs(sins: seq<Input>, inputs: seq<Input>) returns (r: seq<Input>)
    ensures r == SubstitutedInputs(AsWritten, sins, inputs)
  {
    r := [];
    for k := 0 to |inputs|
      invariant |r| == k
      invariant forall j :: 0 <= j < k ==> r[j] == SubstituteInput(AsWritten, sins, inputs[j])
    {
      var i := inputs[k];
      if i.source.graphInput.Some? {
        var src := RewireSource(i.source, sins, InputName, InputSource, SourceGraphInput);
        i := i.(source := src);
      }
      r := r + [i];
    }
  }

  /** `for n in g.nodes:` substitute the inlined node's inputs. */
  method SubstituteNodes(sins: seq<Input>, nodes: seq<Node>) returns (r: seq<Node>)
    ensures r == SubstitutedNodes(AsWritten, sins, nodes)
  {
    r := [];
    for k := 0 to |nodes|
      invariant |r| == k
      invariant forall j :: 0 <= j < k ==> r[j] == SubstituteNode(AsWritten, sins, nodes[j])
    {
      var inputs := SubstituteInputs(sins, nodes[k].inputs);
      r := r + [nodes[k].(inputs := inputs)];
    }
  }

  /** The nodes and outputs of the graph being flattened, as the loop leaves them. */
  datatype Parts = Parts(nodes: seq<Node>, outputs: seq<GraphOutput>)

  /** One round of `for subgraph in graph.subgraphs`, given the flattened graph `g` of `s`. */
  function Splice(w: Wiring, st: Parts, s: Subgraph, g: Graph): Parts {
    var outs := RenamedOutputs(s.name, g.outputs);
    Parts(
      RedirectedNodes(w, s.name, outs, st.nodes) + SubstitutedNodes(w, s.inputs, RenamedNodes(s.name, g.nodes)),
      RedirectedOutputs(w, s.name, outs, st.outputs))
  }

  /** The body of `for subgraph in graph.subgraphs`, once `g` is the flattened graph of `s`. */
  method SpliceRound(st: Parts, s: Subgraph, g: Graph) returns (r: Parts)
    ensures r == Splice(AsWritten, st, s, g)
  {
    var nodes := RenameNodes(s.name, g.nodes);
    var outs := RenameOutputs(s.name, g.outputs);
    var parentNodes := RedirectNodes(s.name, outs, st.nodes);
    var parentOutputs := RedirectOutputs(s.name, outs, st.outputs);
    var inlined := SubstituteNodes(s.inputs, nodes);
    r := Parts(parentNodes + inlined, parentOutputs);
  }

  function QualifiedNames(prefix: string, names: seq<string>): seq<string> {
    seq(|names|, k requires 0 <= k < |names| => Qualify(prefix, names[k]))
  }

  /** A round keeps the node names in place and appends the subgraph's node names, prefixed. */
  lemma SpliceNames(w: Wiring, st: Parts, s: Subgraph, g: Graph)
    ensures Names(Splice(w, st, s, g).nodes, NodeName) ==
      Names(st.nodes, NodeName) + QualifiedNames(s.name, Names(g.nodes, NodeName))
  {
    var a := Names(Splice(w, st, s, g).nodes, NodeName);
    var b := Names(st.nodes, NodeName) + QualifiedNames(s.name, Names(g.nodes, NodeName));
    assert |a| == |b|;
    forall k | 0 <= k < |a| ensures a[k] == b[k] {
      if k >= |st.nodes| {
        assert Splice(w, st, s, g).nodes[k] == SubstituteNode(w, s.inputs, RenameNode(s.name, g.nodes[k - |st.nodes|]));
      }
    }
  }

  /**
   * With the intended rewiring, a parent node input that read output `o` of `s` carries the
   * source of `g`'s first output named `o`.
   */
  lemma SpliceFirstMatchRedirects(st: Parts, s: Subgraph, g: Graph, k: nat, j: nat, m: nat)
    requires k < |st.nodes| && j < |st.nodes[k].inputs|
    requires st.nodes[k].inputs[j].source.subgraph == Some(s.name)
    requires m < |g.outputs| && Some(g.outputs[m].name) == st.nodes[k].inputs[j].source.output
    requires forall i :: 0 <= i < m ==> Some(g.outputs[i].name) != st.nodes[k].inputs[j].source.output
    ensures Splice(FirstMatch, st, s, g).nodes[k].inputs[j].source == RenameSource(s.name, g.outputs[m].source)
  {
    var outs := RenamedOutputs(s.name, g.outputs);
    SourceNamedFirst(outs, GraphOutputName, GraphOutputSource, st.nodes[k].inputs[j].source.output, m);
  }

  /**
   * With the intended rewiring, an inlined input that read graph input `x` carries the source
   * `s` feeds into its first input named `x`.
   */
  lemma SpliceFirstMatchSubstitutes(st: Parts, s: Subgraph, g: Graph, k: nat, j: nat, m: nat)
    requires k < |g.nodes| && j < |g.nodes[k].inputs|
    requires m < |s.inputs| && Some(s.inputs[m].name) == g.nodes[k].inputs[j].source.graphInput
    requires forall i :: 0 <= i < m ==> Some(s.inputs[i].name) != g.nodes[k].inputs[j].source.graphInput
    ensures Splice(FirstMatch, st, s, g).nodes[|st.nodes| + k].inputs[j].source == s.inputs[m].source
  {
    var renamed := RenameSource(s.name, g.nodes[k].inputs[j].source);
    assert renamed.graphInput == g.nodes[k].inputs[j].source.graphInput;
    SourceNamedFirst(s.inputs, InputName, InputSource, renamed.graphInput, m);
    assert Splice(FirstMatch, st, s, g).nodes[|st.nodes| + k] == SubstituteNode(FirstMatch, s.inputs, RenameNode(s.name, g.nodes[k]));
  }

  /**
   * The round as written redirects the same way, provided no output of `g` reads a node
   * output named like a later output of `g`: then the loop fires at most once.
   */
  lemma SpliceRedirects(st: Parts, s: Subgraph, g: Graph, k: nat, j: nat, m: nat)
    requires k < |st.nodes| && j < |st.nodes[k].inputs|
    requires st.nodes[k].inputs[j].source.subgraph == Some(s.name)
    requires m < |g.outputs| && Some(g.outputs[m].name) == st.nodes[k].inputs[j].source.output
    requires forall i :: 0 <= i < m ==> Some(g.outputs[i].name) != st.nodes[k].inputs[j].source.output
    requires forall a, b :: 0 <= a < b < |g.outputs| ==> g.outputs[a].source.output != Some(g.outputs[b].name)
    ensures Splice(AsWritten, st, s, g).nodes[k].inputs[j].source == RenameSource(s.name, g.outputs[m].source)
  {
    var outs := RenamedOutputs(s.name, g.outputs);
    var src := st.nodes[k].inputs[j].source;
    forall a, b | 0 <= a < b < |outs| ensures SourceOutput(GraphOutputSource(outs[a])) != Some(GraphOutputName(outs[b])) {
      assert outs[a].source.output == g.outputs[a].source.output && outs[b].name == g.outputs[b].name;
    }
    RewireChainAgrees(src, outs, GraphOutputName, GraphOutputSource, SourceOutput);
    SpliceFirstMatchRedirects(st, s, g, k, j, m);
  }

  /**
   * The round as written substitutes the same way, provided no source `s` feeds into an input
   * is a graph input named like a later input of `s`.
   */
  lemma SpliceSubstitutes(st: Parts, s: Subgraph, g: Graph, k: nat, j: nat, m: nat)
    requires k < |g.nodes| && j < |g.nodes[k].inputs|
    requires m < |s.inputs| && Some(s.inputs[m].name) == g.nodes[k].inputs[j].source.graphInput
    requires forall i :: 0 <= i < m ==> Some(s.inputs[i].name) != g.nodes[k].inputs[j].source.graphInput
    requires forall a, b :: 0 <= a < b < |s.inputs| ==> s.inputs[a].source.graphInput != Some(s.inputs[b].name)
    ensures Splice(AsWritten, st, s, g).nodes[|st.nodes| + k].inputs[j].source == s.inputs[m].source
  {
    var renamed := RenameSource(s.name, g.nodes[k].inputs[j].source);
    RewireChainAgrees(renamed, s.inputs, InputName, InputSource, SourceGraphInput);
    SpliceFirstMatchSubstitutes(st, s, g, k, j, m);
    assert Splice(AsWritten, st, s, g).nodes[|st.nodes| + k] == SubstituteNode(AsWritten, s.inputs, RenameNode(s.name, g.nodes[k]));
    assert Splice(FirstMatch, st, s, g).nodes[|st.nodes| + k] == SubstituteNode(FirstMatch, s.inputs, RenameNode(s.name, g.nodes[k]));
  }

  // ---------------------------------------------------------------------------------
  // The whole flattening

  /** The rounds as written for `subs`, in order, the k-th with `gs[k]` as the flattened graph of `subs[k]`. */
  function Fold(base: Parts, subs: seq<Subgraph>, gs: seq<Graph>): Parts
    requires |gs| == |subs|
    decreases |subs|
  {
    if subs == [] then base
    else Splice(AsWritten, Fold(base, subs[..|subs| - 1], gs[..|gs| - 1]), subs[|subs| - 1], gs[|gs| - 1])
  }

  /** The flattened graphs of the subgraphs of `name`, in order. */
  function Flattened(p: Package, name: string): (gs: seq<Graph>)
    requires WellNested(p, name)
    ensures |gs| == |TheGraph(p, name).subgraphs|
    decreases |Reach(p, name)|, 0
  {
    var subs := TheGraph(p, name).subgraphs;
    AllNested(p, name);
    seq(|subs|, k requires 0 <= k < |subs| => Inline(p, subs[k].graph))
  }

  /** The graph `flatten_graph(name)` assembles, before its final validation. */
  function Inline(p: Package, name: string): Graph
    requires WellNested(p, name)
    decreases |Reach(p, name)|, 1
  {
    var graph := TheGraph(p, name);
    var st := Fold(Parts(graph.nodes, graph.outputs), graph.subgraphs, Flattened(p, name));
    graph.(nodes := st.nodes, outputs := st.outputs, subgraphs := [])
  }

  /** Every flattening that `flatten_graph(name)` performs validates. */
  ghost predicate FlattenOk(p: Package, name: string)
    requires WellNested(p, name)
    decreases |Reach(p, name)|
  {
    var subs := TheGraph(p, name).subgraphs;
    AllNested(p, name);
    && (forall k :: 0 <= k < |subs| ==> FlattenOk(p, subs[k].graph))
    && GraphValid(Inline(p, name))
  }

  /**
   * The errors `flatten_graph(name)` raises: the error of the first subgraph whose
   * flattening fails, or else the validation error of the merged graph.
   */
  ghost predicate FlattenError(p: Package, name: string, e: Error)
    requires WellNested(p, name)
    decreases |Reach(p, name)|
  {
    var subs := TheGraph(p, name).subgraphs;
    AllNested(p, name);
    || (exists k :: (0 <= k < |subs| && (forall j :: 0 <= j < k ==> FlattenOk(p, subs[j].graph))
                    && FlattenError(p, subs[k].graph, e)))
    || ((forall k :: 0 <= k < |subs| ==> FlattenOk(p, subs[k].graph)) && GraphError(Inline(p, name), e))
  }

  lemma FoldStep(base: Parts, subs: seq<Subgraph>, gs: seq<Graph>, i: nat)
    requires |gs| == |subs| && i < |subs|
    ensures Fold(base, subs[..i + 1], gs[..i + 1]) == Splice(AsWritten, Fold(base, subs[..i], gs[..i]), subs[i], gs[i])
  {
    assert subs[..i + 1][..i] == subs[..i];
    assert gs[..i + 1][..i] == gs[..i];
  }

  /** The rounds before round `i` of `flatten_graph(name)`, from the graph's own nodes and outputs. */
  ghost function Rounds(p: Package, name: string, i: nat): Parts
    requires WellNested(p, name) && i <= |TheGraph(p, name).subgraphs|
  {
    var graph := TheGraph(p, name);
    Fold(Parts(graph.nodes, graph.outputs), graph.subgraphs[..i], Flattened(p, name)[..i])
  }

  /** The flattenings of the first `i` subgraphs of `name` all validate. */
  ghost predicate FirstOk(p: Package, name: string, i: nat)
    requires WellNested(p, name) && i <= |TheGraph(p, name).subgraphs|
  {
    var subs := TheGraph(p, name).subgraphs;
    AllNested(p, name);
    forall j :: 0 <= j < i ==> FlattenOk(p, subs[j].graph)
  }

  lemma FirstOkStep(p: Package, name: string, i: nat)
    requires WellNested(p, name) && i < |TheGraph(p, name).subgraphs|
    requires FirstOk(p, name, i)
    requires WellNested(p, TheGraph(p, name).subgraphs[i].graph) && FlattenOk(p, TheGraph(p, name).subgraphs[i].graph)
    ensures FirstOk(p, name, i + 1)
  {
  }

  /** Round `i` of `for subgraph in graph.subgraphs`: flatten the subgraph's graph and splice it in. */
  method FlattenRound(p: Package, name: string, i: nat, st: Parts) returns (r: Result<Parts, Error>)
    requires WellNested(p, name) && i < |TheGraph(p, name).subgraphs|
    requires st == Rounds(p, name, i)
    ensures WellNested(p, TheGraph(p, name).subgraphs[i].graph)
    ensures r.Success? <==> FlattenOk(p, TheGraph(p, name).subgraphs[i].graph)
    ensures r.Success? ==> r.value == Rounds(p, name, i + 1)
    ensures r.Failure? ==> FlattenError(p, TheGraph(p, name).subgraphs[i].graph, r.error)
    decreases |Reach(p, name)|, 0
  {
    var graph := TheGraph(p, name);
    var s := graph.subgraphs[i];
    AllNested(p, name);
    var flat := FlattenGraph(p, s.graph, false);
    if flat.Failure? {
      return Failure(flat.error);
    }
    FoldStep(Parts(graph.nodes, graph.outputs), graph.subgraphs, Flattened(p, name), i);
    var st' := SpliceRound(st, s, flat.value);
    r := Success(st');
  }

  /**
   * `Package.flatten_graph`. The `validate` flag is ignored: the merged graph is always
   * validated, and so is every flattened subgraph graph.
   */
  method FlattenGraph(p: Package, name: string, validate: bool) returns (r: Result<Graph, Error>)
    requires WellNested(p, name)
    ensures r.Success? <==> FlattenOk(p, name)
    ensures r.Success? ==> r.value == Inline(p, name) && r.value.subgraphs == [] && GraphValid(r.value)
    ensures r.Failure? ==> FlattenError(p, name, r.error)
    decreases |Reach(p, name)|, 1
  {
    var graph := TheGraph(p, name);
    var subs := graph.subgraphs;
    var st := Parts(graph.nodes, graph.outputs);
    for i := 0 to |subs|
      invariant st == Rounds(p, name, i)
      invariant FirstOk(p, name, i)
    {
      var round := FlattenRound(p, name, i, st);
      if round.Failure? {
        assert FlattenError(p, name, round.error) by {
          AllNested(p, name);
          assert 0 <= i < |subs| && FlattenError(p, subs[i].graph, round.error);
        }
        return Failure(round.error);
      }
      FirstOkStep(p, name, i);
      st := round.value;
    }
    assert subs[..|subs|] == subs && Flattened(p, name)[..|subs|] == Flattened(p, name);
    var merged := graph.(nodes := st.nodes, outputs := st.outputs, subgraphs := []);
    var e := GraphValidate(merged);
    if e.Fail? {
      return Failure(e.error);
    }
    r := Success(merged);
  }

  /** The names the rounds append: each subgraph's flattened node names, prefixed with its name. */
  function InlinedNames(subs: seq<Subgraph>, gs: seq<Graph>): seq<string>
    requires |gs| == |subs|
    decreases |subs|
  {
    if subs == [] then []
    else InlinedNames(subs[..|subs| - 1], gs[..|gs| - 1]) +
         QualifiedNames(subs[|subs| - 1].name, Names(gs[|gs| - 1].nodes, NodeName))
  }

  lemma {:induction false} FoldNames(base: Parts, subs: seq<Subgraph>, gs: seq<Graph>)
    requires |gs| == |subs|
    ensures Names(Fold(base, subs, gs).nodes, NodeName) == Names(base.nodes, NodeName) + InlinedNames(subs, gs)
    decreases |subs|
  {
    if subs != [] {
      FoldNames(base, subs[..|subs| - 1], gs[..|gs| - 1]);
      SpliceNames(AsWritten, Fold(base, subs[..|subs| - 1], gs[..|gs| - 1]), subs[|subs| - 1], gs[|gs| - 1]);
    }
  }

  /**
   * The flattened graph's nodes are the original nodes, followed, subgraph by subgraph in
   * order, by the nodes of that subgraph's flattened graph renamed `S.n`.
   */
  lemma InlineNodeNames(p: Package, name: string)
    requires WellNested(p, name)
    ensures Names(Inline(p, name).nodes, NodeName) ==
      Names(TheGraph(p, name).nodes, NodeName) + InlinedNames(TheGraph(p, name).subgraphs, Flattened(p, name))
  {
    var graph := TheGraph(p, name);
    FoldNames(Parts(graph.nodes, graph.outputs), graph.subgraphs, Flattened(p, name));
  }

  /** Flattening a graph without subgraphs gives the graph itself, accepted iff it is valid. */
  lemma FlattenLeaf(p: Package, g: Graph)
    requires FindByName(p.graphs, GraphName, g.name) == Some(g) && g.subgraphs == []
    ensures WellNested(p, g.name)
    ensures Inline(p, g.name) == g
    ensures FlattenOk(p, g.name) <==> GraphValid(g)
  {
    LeafWellNested(p, g);
  }
}
