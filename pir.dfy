/**
 * The pipeline intermediate representation (PIR): packages of graphs whose nodes and
 * subgraphs are wired together by `DataSource` references, together with the per-entity
 * validators, the name-uniqueness check and the connectivity check of a graph.
 *
 * Field validation against the dataclass annotations holds by construction here: every
 * field has its Dafny type. The validators of `Output`, `Entrypoint`, `Framework` and
 * `GraphInput` only check fields, so they always pass and are not written out.
 */
module Pir {
  import opened Wrappers

  /** A configuration value: a scalar or an opaque nested document. */
  datatype ConfigValue =
    | Null
    | Bool(b: bool)
    | Int(i: int)
    | Str(s: string)
    | Document(id: nat, nonEmpty: bool)

  type Config = map<string, ConfigValue>

  /** Python truthiness of a configuration value. */
  predicate Truthy(v: ConfigValue) {
    match v
    case Null => false
    case Bool(b) => b
    case Int(i) => i != 0
    case Str(s) => s != ""
    case Document(_, nonEmpty) => nonEmpty
  }

  /** A source is a node output, a subgraph output or a graph input; `None` means unset. */
  datatype DataSource = DataSource(
    node: Option<string>,
    subgraph: Option<string>,
    output: Option<string>,
    graphInput: Option<string>)

  datatype Input = Input(name: string, iotype: string, source: DataSource)

  datatype Output = Output(name: string, iotype: string)

  datatype Framework = Framework(name: string, config: Config)

  datatype Entrypoint = Entrypoint(
    version: string,
    handler: string,
    runtime: string,
    codeurl: Option<string>,
    image: Option<string>)

  datatype Node = Node(
    name: string,
    entrypoint: Entrypoint,
    framework: Option<Framework>,
    config: Config,
    inputs: seq<Input>,
    outputs: seq<Output>)

  datatype Subgraph = Subgraph(
    name: string,
    graph: string,
    config: Config,
    inputs: seq<Input>,
    outputs: seq<Output>)

  datatype GraphInput = GraphInput(name: string, iotype: string)

  datatype GraphOutput = GraphOutput(name: string, iotype: string, source: DataSource)

  datatype Graph = Graph(
    name: string,
    nodes: seq<Node>,
    subgraphs: seq<Subgraph>,
    inputs: seq<GraphInput>,
    outputs: seq<GraphOutput>)

  datatype Package = Package(graphs: seq<Graph>)

  /** The path prefix a wrapping `except` clause puts in front of a nested message. */
  datatype Context =
    | SourceCtx                   // "source: "
    | InputCtx(name: string)      // "input '<name>': "
    | NodeCtx(name: string)       // "node '<name>': "
    | SubgraphCtx(name: string)   // "subgraph '<name>': "
    | GraphOutputCtx(name: string) // "graph output '<name>': "
    | GraphCtx(name: string)      // "graph '<name>': "
    | EntrypointCtx               // "entrypoint: "

  /** A `ValidationError`, by the variable parts of its message. */
  datatype Error =
    | ExactlyOneSourceExpected
    | OutputRequired
    | DuplicateNames(kind: string, names: set<string>)
    | MissingGraphInput(name: string)
    | MissingNode(name: string)
    | MissingNodeOutput(output: Option<string>, node: string)
    | MissingSubgraph(name: string)
    | MissingSubgraphOutput(output: Option<string>, subgraph: string)
    | IotypeDiffers(iotype: string, sourceIotype: string)
    // `_validate_source` on a source with no field set: an UnboundLocalError in Python.
    | NoSourceSet
    // `_validate_acyclicity` popping the `None` pushed for a missing entity: an AttributeError.
    | NoneHasNoInputs
    | CycleAtNode(name: string)
    | CycleAtSubgraph(name: string)
    | MissingGraph(subgraph: string, graph: string)
    | MalformedHandler(handler: string)
    | Prefixed(context: Context, cause: Error)
  {
    /** The Python exceptions that are not `ValidationError`s and escape every `except`. */
    predicate IsCrash() { NoSourceSet? || NoneHasNoInputs? }
  }

  /** What `except ValidationError as err: raise ValidationError(f"...: {err}")` makes of `e`. */
  function Wrap(ctx: Context, e: Error): Error {
    if e.IsCrash() then e else Prefixed(ctx, e)
  }

  function NodeName(n: Node): string { n.name }
  function SubgraphName(s: Subgraph): string { s.name }
  function InputName(i: Input): string { i.name }
  function OutputName(o: Output): string { o.name }
  function GraphInputName(i: GraphInput): string { i.name }
  function GraphOutputName(o: GraphOutput): string { o.name }
  function GraphName(g: Graph): string { g.name }

  /** `find_by_name`: the first item with the given name, or `None`. */
  function FindByName<T>(items: seq<T>, nameOf: T -> string, name: string): (r: Option<T>)
    ensures r.Some? ==> r.value in items && nameOf(r.value) == name
    ensures r.None? <==> forall k :: 0 <= k < |items| ==> nameOf(items[k]) != name
  {
    if |items| == 0 then None
    else if nameOf(items[0]) == name then Some(items[0])
    else FindByName(items[1..], nameOf, name)
  }

  /** The item found is the first one carrying the name. */
  lemma {:induction false} FindByNameFirst<T>(items: seq<T>, nameOf: T -> string, name: string, k: nat)
    requires k < |items| && nameOf(items[k]) == name
    requires forall j :: 0 <= j < k ==> nameOf(items[j]) != name
    ensures FindByName(items, nameOf, name) == Some(items[k])
  {
    if k > 0 {
      FindByNameFirst(items[1..], nameOf, name, k - 1);
    }
  }

  function Names<T>(items: seq<T>, nameOf: T -> string): (r: seq<string>)
    ensures |r| == |items| && forall k :: 0 <= k < |items| ==> r[k] == nameOf(items[k])
  {
    seq(|items|, k requires 0 <= k < |items| => nameOf(items[k]))
  }

  predicate Distinct(names: seq<string>) {
    forall i, j :: 0 <= i < j < |names| ==> names[i] != names[j]
  }

  /** With distinct names, the item found is the one carrying the name. */
  lemma FindByNameUnique<T>(items: seq<T>, nameOf: T -> string, x: T)
    requires Distinct(Names(items, nameOf)) && x in items
    ensures FindByName(items, nameOf, nameOf(x)) == Some(x)
  {
    var k :| 0 <= k < |items| && items[k] == x;
    FindByNameFirst(items, nameOf, nameOf(x), k);
  }

  /** The names that occur at least twice. */
  function Duplicates(names: seq<string>): set<string> {
    set n | n in names && multiset(names)[n] >= 2
  }

  /** The outcome of `_validate_names`, stated on the duplicated names. */
  function NamesCheck(names: seq<string>, kind: string): Outcome<Error> {
    if Duplicates(names) == {} then Pass else Fail(DuplicateNames(kind, Duplicates(names)))
  }

  /** The occurrences of `n` split at any cut into those before and those after it. */
  lemma CountSplit(names: seq<string>, n: string, k: nat)
    requires k <= |names|
    ensures multiset(names)[n] == multiset(names[..k])[n] + multiset(names[k..])[n]
  {
    assert names == names[..k] + names[k..];
  }

  /** A duplicated name sits at two different positions. */
  lemma {:induction false} TwoPositionsOfDuplicate(names: seq<string>, n: string)
    requires n in Duplicates(names)
    ensures exists i, j :: 0 <= i < j < |names| && names[i] == n && names[j] == n
  {
    var i :| 0 <= i < |names| && names[i] == n;
    CountSplit(names, n, i);
    CountSplit(names[i..], n, 1);
    assert names[i..][..1] == [n];
    assert names[i..][1..] == names[i + 1..];
    if multiset(names[i + 1..])[n] > 0 {
      var j :| 0 <= j < |names[i + 1..]| && names[i + 1..][j] == n;
      assert names[i + 1 + j] == n;
    } else {
      var j :| 0 <= j < |names[..i]| && names[..i][j] == n;
      assert names[j] == n && j < i;
    }
  }

  /** A name at two different positions is duplicated. */
  lemma DuplicateOfTwoPositions(names: seq<string>, n: string, i: nat, j: nat)
    requires i < j < |names| && names[i] == n && names[j] == n
    ensures n in Duplicates(names)
  {
    CountSplit(names, n, j);
    assert names[..j][i] == n;
    assert names[j..][0] == n;
  }

  /** A name is duplicated exactly when it sits at two different positions. */
  lemma DuplicatesAtTwoPositions(names: seq<string>, n: string)
    ensures n in Duplicates(names) <==> exists i, j :: 0 <= i < j < |names| && names[i] == n && names[j] == n
  {
    if n in Duplicates(names) {
      TwoPositionsOfDuplicate(names, n);
    }
    if exists i, j :: 0 <= i < j < |names| && names[i] == n && names[j] == n {
      var i, j :| 0 <= i < j < |names| && names[i] == n && names[j] == n;
      DuplicateOfTwoPositions(names, n, i, j);
    }
  }

  /** The name check passes exactly when the names are pairwise distinct. */
  lemma NamesCheckPassIffDistinct(names: seq<string>, kind: string)
    ensures NamesCheck(names, kind).Pass? <==> Distinct(names)
  {
    if !Distinct(names) {
      var i, j :| 0 <= i < j < |names| && names[i] == names[j];
      DuplicatesAtTwoPositions(names, names[i]);
    }
    if Duplicates(names) != {} {
      var n :| n in Duplicates(names);
      DuplicatesAtTwoPositions(names, n);
    }
  }

  /**
   * `_validate_names`: fills the `once` and `twice` sets in one pass and raises when
   * `twice` is not empty, listing exactly the duplicated names.
   */
  method ValidateNames(names: seq<string>, kind: string) returns (r: Outcome<Error>)
    ensures r == NamesCheck(names, kind)
    ensures r.Pass? <==> Distinct(names)
  {
    var once: set<string> := {};
    var twice: set<string> := {};
    var i := 0;
    while i < |names|
      invariant 0 <= i <= |names|
      invariant once == set x | x in names[..i]
      invariant twice == Duplicates(names[..i])
    {
      var n := names[i];
      assert names[..i + 1] == names[..i] + [n];
      assert multiset(names[..i + 1]) == multiset(names[..i]) + multiset{n};
      if n !in once {
        once := once + {n};
      } else {
        twice := twice + {n};
      }
      assert twice == Duplicates(names[..i + 1]) by {
        forall x ensures x in twice <==> x in Duplicates(names[..i + 1]) {
          if x == n {
            assert x in names[..i + 1];
          } else {
            assert multiset(names[..i + 1])[x] == multiset(names[..i])[x];
            assert x in names[..i + 1] <==> x in names[..i];
          }
        }
      }
      i := i + 1;
    }
    assert names[..i] == names;
    if twice == {} {
      r := Pass;
    } else {
      r := Fail(DuplicateNames(kind, twice));
    }
    NamesCheckPassIffDistinct(names, kind);
  }

  /** `a` if it fails, otherwise `b`: one fail-fast step. */
  function Then(a: Outcome<Error>, b: Outcome<Error>): Outcome<Error> {
    if a.Fail? then a else b
  }

  /**
   * A `for` loop that validates each item and re-raises its first error with the item's
   * path prefix (a crash passes through unprefixed).
   */
  function FirstFailure<T>(items: seq<T>, check: T -> Outcome<Error>, ctx: T -> Context): (r: Outcome<Error>)
    ensures r.Pass? <==> forall k :: 0 <= k < |items| ==> check(items[k]).Pass?
    decreases |items|
  {
    if |items| == 0 then Pass
    else match check(items[0])
      case Fail(e) => Fail(Wrap(ctx(items[0]), e))
      case Pass =>
        var rest := FirstFailure(items[1..], check, ctx);
        assert forall k :: 0 <= k < |items| - 1 ==> items[1..][k] == items[k + 1];
        rest
  }

  /** Only the first failing item is reported, under its own prefix. */
  lemma {:induction false} FirstFailureAt<T>(items: seq<T>, check: T -> Outcome<Error>, ctx: T -> Context, k: nat)
    requires k < |items| && check(items[k]).Fail?
    requires forall j :: 0 <= j < k ==> check(items[j]).Pass?
    ensures FirstFailure(items, check, ctx) == Fail(Wrap(ctx(items[k]), check(items[k]).error))
  {
    if k > 0 {
      FirstFailureAt(items[1..], check, ctx, k - 1);
    }
  }

  /** A failure of the loop is the failure of some item, all earlier items passing. */
  lemma {:induction false} FirstFailureWitness<T>(items: seq<T>, check: T -> Outcome<Error>, ctx: T -> Context)
    requires FirstFailure(items, check, ctx).Fail?
    ensures exists k :: (0 <= k < |items| && check(items[k]).Fail? &&
      (forall j :: 0 <= j < k ==> check(items[j]).Pass?) &&
      FirstFailure(items, check, ctx) == Fail(Wrap(ctx(items[k]), check(items[k]).error)))
  {
    if check(items[0]).Fail? {
      FirstFailureAt(items, check, ctx, 0);
    } else {
      FirstFailureWitness(items[1..], check, ctx);
      var k :| 0 <= k < |items[1..]| && check(items[1..][k]).Fail? &&
        (forall j :: 0 <= j < k ==> check(items[1..][j]).Pass?);
      FirstFailureAt(items, check, ctx, k + 1);
    }
  }

  // ---------------------------------------------------------------------------------
  // Per-entity validation

  /**
   * `DataSource.validate`: exactly one of `node`, `subgraph` and `graph_input` is set,
   * and `output` is set whenever `node` or `subgraph` is.
   */
  function ValidateDataSource(s: DataSource): (r: Outcome<Error>)
    ensures r.Pass? <==>
      ((s.node.Some? && s.subgraph.None? && s.graphInput.None?) ||
       (s.node.None? && s.subgraph.Some? && s.graphInput.None?) ||
       (s.node.None? && s.subgraph.None? && s.graphInput.Some?)) &&
      ((s.node.Some? || s.subgraph.Some?) ==> s.output.Some?)
    ensures r.Fail? ==> r.error == ExactlyOneSourceExpected || r.error == OutputRequired
  {
    var count := (if s.node.Some? then 1 else 0) + (if s.subgraph.Some? then 1 else 0) +
      (if s.graphInput.Some? then 1 else 0);
    if count != 1 then Fail(ExactlyOneSourceExpected)
    else if (s.node.Some? || s.subgraph.Some?) && s.output.None? then Fail(OutputRequired)
    else Pass
  }

  /** `Input.validate`: the source's error under the prefix "source: ". */
  function ValidateInput(i: Input): Outcome<Error> {
    match ValidateDataSource(i.source)
    case Pass => Pass
    case Fail(e) => Fail(Prefixed(SourceCtx, e))
  }

  function InputContext(i: Input): Context { InputCtx(i.name) }
  function NodeContext(n: Node): Context { NodeCtx(n.name) }
  function SubgraphContext(s: Subgraph): Context { SubgraphCtx(s.name) }
  function GraphOutputContext(o: GraphOutput): Context { GraphOutputCtx(o.name) }

  /** Each input, input names, (each output,) output names, in that order. */
  function PortsCheck(inputs: seq<Input>, outputs: seq<Output>): Outcome<Error> {
    Then(FirstFailure(inputs, ValidateInput, InputContext),
    Then(NamesCheck(Names(inputs, InputName), "input"),
         NamesCheck(Names(outputs, OutputName), "output")))
  }

  /** `Node.validate`; its entrypoint and framework checks only check fields. */
  function ValidateNode(n: Node): Outcome<Error> {
    PortsCheck(n.inputs, n.outputs)
  }

  /** `Subgraph.validate`: the same checks as a node, without entrypoint or framework. */
  function ValidateSubgraph(s: Subgraph): Outcome<Error> {
    PortsCheck(s.inputs, s.outputs)
  }

  /** `GraphOutput.validate`: the source's error WITHOUT the "source: " prefix. */
  function ValidateGraphOutput(o: GraphOutput): Outcome<Error> {
    ValidateDataSource(o.source)
  }

  /**
   * The part of `Graph.validate` before connectivity, in source order: nodes, node
   * names, subgraphs, subgraph names, (graph inputs,) graph input names, graph outputs,
   * graph output names.
   */
  function EntityChecks(g: Graph): Outcome<Error> {
    Then(FirstFailure(g.nodes, ValidateNode, NodeContext),
    Then(NamesCheck(Names(g.nodes, NodeName), "node"),
    Then(FirstFailure(g.subgraphs, ValidateSubgraph, SubgraphContext),
    Then(NamesCheck(Names(g.subgraphs, SubgraphName), "subgraph"),
    Then(NamesCheck(Names(g.inputs, GraphInputName), "graph input"),
    Then(FirstFailure(g.outputs, ValidateGraphOutput, GraphOutputContext),
         NamesCheck(Names(g.outputs, GraphOutputName), "graph output")))))))
  }

  /** What `Node.validate` and `Subgraph.validate` demand of their inputs and outputs. */
  ghost predicate PortsValid(inputs: seq<Input>, outputs: seq<Output>) {
    && (forall i :: i in inputs ==> ValidateDataSource(i.source).Pass?)
    && Distinct(Names(inputs, InputName))
    && Distinct(Names(outputs, OutputName))
  }

  lemma PortsCheckPass(inputs: seq<Input>, outputs: seq<Output>)
    ensures PortsCheck(inputs, outputs).Pass? <==> PortsValid(inputs, outputs)
  {
    NamesCheckPassIffDistinct(Names(inputs, InputName), "input");
    NamesCheckPassIffDistinct(Names(outputs, OutputName), "output");
    if FirstFailure(inputs, ValidateInput, InputContext).Pass? {
      forall i | i in inputs ensures ValidateDataSource(i.source).Pass? {
        assert ValidateInput(i).Pass?;
      }
    }
    if forall i :: i in inputs ==> ValidateDataSource(i.source).Pass? {
      assert forall k :: 0 <= k < |inputs| ==> ValidateInput(inputs[k]).Pass?;
    }
  }

  /** Everything the entity part of `Graph.validate` demands, stated without its order. */
  ghost predicate EntitiesValid(g: Graph) {
    && (forall n :: n in g.nodes ==> PortsValid(n.inputs, n.outputs))
    && Distinct(Names(g.nodes, NodeName))
    && (forall s :: s in g.subgraphs ==> PortsValid(s.inputs, s.outputs))
    && Distinct(Names(g.subgraphs, SubgraphName))
    && Distinct(Names(g.inputs, GraphInputName))
    && (forall o :: o in g.outputs ==> ValidateDataSource(o.source).Pass?)
    && Distinct(Names(g.outputs, GraphOutputName))
  }

  lemma NodesCheckPass(nodes: seq<Node>)
    ensures FirstFailure(nodes, ValidateNode, NodeContext).Pass? <==>
      forall n :: n in nodes ==> PortsValid(n.inputs, n.outputs)
  {
    forall n | n in nodes ensures ValidateNode(n).Pass? <==> PortsValid(n.inputs, n.outputs) {
      PortsCheckPass(n.inputs, n.outputs);
    }
  }

  lemma SubgraphsCheckPass(subgraphs: seq<Subgraph>)
    ensures FirstFailure(subgraphs, ValidateSubgraph, SubgraphContext).Pass? <==>
      forall s :: s in subgraphs ==> PortsValid(s.inputs, s.outputs)
  {
    forall s | s in subgraphs ensures ValidateSubgraph(s).Pass? <==> PortsValid(s.inputs, s.outputs) {
      PortsCheckPass(s.inputs, s.outputs);
    }
  }

  lemma GraphOutputsCheckPass(outputs: seq<GraphOutput>)
    ensures FirstFailure(outputs, ValidateGraphOutput, GraphOutputContext).Pass? <==>
      forall o :: o in outputs ==> ValidateDataSource(o.source).Pass?
  {
  }

  /** The entity checks pass exactly when every entity rule holds. */
  lemma EntityChecksPass(g: Graph)
    ensures EntityChecks(g).Pass? <==> EntitiesValid(g)
  {
    NamesCheckPassIffDistinct(Names(g.nodes, NodeName), "node");
    NamesCheckPassIffDistinct(Names(g.subgraphs, SubgraphName), "subgraph");
    NamesCheckPassIffDistinct(Names(g.inputs, GraphInputName), "graph input");
    NamesCheckPassIffDistinct(Names(g.outputs, GraphOutputName), "graph output");
    NodesCheckPass(g.nodes);
    SubgraphsCheckPass(g.subgraphs);
    GraphOutputsCheckPass(g.outputs);
  }

  /**
   * An invalid source of a node input, with every earlier node and input valid, is
   * reported as "node 'n': input 'i': source: ...".
   */
  lemma NodeInputErrorPath(g: Graph, k: nat, j: nat)
    requires k < |g.nodes| && j < |g.nodes[k].inputs|
    requires forall m :: 0 <= m < k ==> ValidateNode(g.nodes[m]).Pass?
    requires forall m :: 0 <= m < j ==> ValidateInput(g.nodes[k].inputs[m]).Pass?
    requires ValidateDataSource(g.nodes[k].inputs[j].source).Fail?
    ensures EntityChecks(g) == Fail(Prefixed(NodeCtx(g.nodes[k].name),
      Prefixed(InputCtx(g.nodes[k].inputs[j].name),
        Prefixed(SourceCtx, ValidateDataSource(g.nodes[k].inputs[j].source).error))))
  {
    var n := g.nodes[k];
    FirstFailureAt(n.inputs, ValidateInput, InputContext, j);
    FirstFailureAt(g.nodes, ValidateNode, NodeContext, k);
  }

  /**
   * An invalid graph output source, with every other entity check passing first, is
   * reported as "graph output 'o': ..." with no "source: " level.
   */
  lemma GraphOutputErrorPath(g: Graph, k: nat)
    requires k < |g.outputs|
    requires EntityChecks(g.(outputs := [])).Pass?
    requires forall m :: 0 <= m < k ==> ValidateDataSource(g.outputs[m].source).Pass?
    requires ValidateDataSource(g.outputs[k].source).Fail?
    ensures EntityChecks(g) == Fail(Prefixed(GraphOutputCtx(g.outputs[k].name),
      ValidateDataSource(g.outputs[k].source).error))
  {
    FirstFailureAt(g.outputs, ValidateGraphOutput, GraphOutputContext, k);
  }

  // ---------------------------------------------------------------------------------
  // Connectivity

  /** `find_by_name(outputs, source.output)`: an unset output name matches nothing. */
  function FindOutput(outputs: seq<Output>, name: Option<string>): (r: Option<Output>)
    ensures r.Some? ==> r.value in outputs && name == Some(r.value.name)
    ensures r.None? <==> forall k :: 0 <= k < |outputs| ==> name != Some(outputs[k].name)
  {
    if name.None? then None else FindByName(outputs, OutputName, name.value)
  }

  function IotypeCheck(iotype: string, sourceIotype: string): Outcome<Error> {
    if sourceIotype != iotype then Fail(IotypeDiffers(iotype, sourceIotype)) else Pass
  }

  /** Some entity the source names exists and declares `iotype`. */
  ghost predicate SourceHasIotype(g: Graph, s: DataSource, iotype: string) {
    if s.graphInput.Some? then
      exists gi :: gi in g.inputs && gi.name == s.graphInput.value && gi.iotype == iotype
    else if s.node.Some? then
      exists n, o :: n in g.nodes && n.name == s.node.value && o in n.outputs &&
        s.output == Some(o.name) && o.iotype == iotype
    else if s.subgraph.Some? then
      exists sg, o :: sg in g.subgraphs && sg.name == s.subgraph.value && o in sg.outputs &&
        s.output == Some(o.name) && o.iotype == iotype
    else false
  }

  /**
   * `_validate_source`: resolves a graph input, then a node, then a subgraph reference,
   * and compares the iotype found with the consumer's.
   */
  function ValidateSource(g: Graph, s: DataSource, iotype: string): (r: Outcome<Error>)
    ensures s.graphInput.Some? ==>
      (r == Fail(MissingGraphInput(s.graphInput.value)) <==>
       forall k :: 0 <= k < |g.inputs| ==> g.inputs[k].name != s.graphInput.value)
    ensures s.graphInput.None? && s.node.Some? ==>
      (r == Fail(MissingNode(s.node.value)) <==>
       forall k :: 0 <= k < |g.nodes| ==> g.nodes[k].name != s.node.value)
    ensures s.graphInput.None? && s.node.None? && s.subgraph.Some? ==>
      (r == Fail(MissingSubgraph(s.subgraph.value)) <==>
       forall k :: 0 <= k < |g.subgraphs| ==> g.subgraphs[k].name != s.subgraph.value)
    ensures r == Fail(NoSourceSet) <==> s.graphInput.None? && s.node.None? && s.subgraph.None?
    ensures r.Fail? && r.error.IotypeDiffers? ==> r.error.iotype == iotype && r.error.sourceIotype != iotype
    ensures r.Pass? ==> SourceHasIotype(g, s, iotype)
  {
    if s.graphInput.Some? then
      match FindByName(g.inputs, GraphInputName, s.graphInput.value)
      case None => Fail(MissingGraphInput(s.graphInput.value))
      case Some(gi) => IotypeCheck(iotype, gi.iotype)
    else if s.node.Some? then
      match FindByName(g.nodes, NodeName, s.node.value)
      case None => Fail(MissingNode(s.node.value))
      case Some(n) =>
        match FindOutput(n.outputs, s.output)
        case None => Fail(MissingNodeOutput(s.output, n.name))
        case Some(o) => IotypeCheck(iotype, o.iotype)
    else if s.subgraph.Some? then
      match FindByName(g.subgraphs, SubgraphName, s.subgraph.value)
      case None => Fail(MissingSubgraph(s.subgraph.value))
      case Some(sg) =>
        match FindOutput(sg.outputs, s.output)
        case None => Fail(MissingSubgraphOutput(s.output, sg.name))
        case Some(o) => IotypeCheck(iotype, o.iotype)
    else Fail(NoSourceSet)
  }

  /** With unique names, the source check passes exactly when the named entity declares the iotype. */
  lemma ValidateSourceExact(g: Graph, s: DataSource, iotype: string)
    requires EntitiesValid(g)
    ensures ValidateSource(g, s, iotype).Pass? <==> SourceHasIotype(g, s, iotype)
  {
    if SourceHasIotype(g, s, iotype) {
      if s.graphInput.Some? {
        var gi :| gi in g.inputs && gi.name == s.graphInput.value && gi.iotype == iotype;
        FindByNameUnique(g.inputs, GraphInputName, gi);
      } else if s.node.Some? {
        var n, o :| n in g.nodes && n.name == s.node.value && o in n.outputs &&
          s.output == Some(o.name) && o.iotype == iotype;
        FindByNameUnique(g.nodes, NodeName, n);
        FindByNameUnique(n.outputs, OutputName, o);
      } else {
        var sg, o :| sg in g.subgraphs && sg.name == s.subgraph.value && o in sg.outputs &&
          s.output == Some(o.name) && o.iotype == iotype;
        FindByNameUnique(g.subgraphs, SubgraphName, sg);
        FindByNameUnique(sg.outputs, OutputName, o);
      }
    }
  }

  function InputConnectivity(g: Graph): Input -> Outcome<Error> {
    (i: Input) => ValidateSource(g, i.source, i.iotype)
  }

  function NodeConnectivity(g: Graph): Node -> Outcome<Error> {
    (n: Node) => FirstFailure(n.inputs, InputConnectivity(g), InputContext)
  }

  function GraphOutputConnectivity(g: Graph): GraphOutput -> Outcome<Error> {
    (o: GraphOutput) => ValidateSource(g, o.source, o.iotype)
  }

  /**
   * `_validate_connectivity`: every graph output, then every input of every node.
   * Subgraph inputs are never checked.
   */
  function Connectivity(g: Graph): Outcome<Error> {
    Then(FirstFailure(g.outputs, GraphOutputConnectivity(g), GraphOutputContext),
         FirstFailure(g.nodes, NodeConnectivity(g), NodeContext))
  }

  /** Connectivity passes exactly when every graph output and every node input resolves with its iotype. */
  lemma ConnectivityPass(g: Graph)
    ensures Connectivity(g).Pass? <==>
      (forall o :: o in g.outputs ==> ValidateSource(g, o.source, o.iotype).Pass?) &&
      (forall n, i :: n in g.nodes && i in n.inputs ==> ValidateSource(g, i.source, i.iotype).Pass?)
  {
    var c := Connectivity(g);
    if c.Pass? {
      forall n, i | n in g.nodes && i in n.inputs ensures ValidateSource(g, i.source, i.iotype).Pass? {
        assert NodeConnectivity(g)(n).Pass?;
        assert InputConnectivity(g)(i).Pass?;
      }
      forall o | o in g.outputs ensures ValidateSource(g, o.source, o.iotype).Pass? {
        assert GraphOutputConnectivity(g)(o).Pass?;
      }
    }
  }
}
