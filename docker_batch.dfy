/**
 * The Docker Compose backend: `generate` turns the single graph of a package into one
 * service per node, keyed `<graph>.<node>`, and one service for the graph itself, keyed by
 * the graph's name, wired together through `depends_on` and shared volumes.
 *
 * The pickled command payloads are kept as the values they encode; the YAML dump and the
 * output file are left out. A node input's producer is its `node` source.
 */
module DockerBatch {
  import opened Wrappers
  import opened Pir

  /** What a service runs: one node, given the graph inputs, or the graph's output step. */
  datatype Command = RunNode(node: Node, graphInputs: seq<GraphInput>) | RunGraph(outputs: seq<GraphOutput>)

  /** The only condition `generate` writes: `service_completed_successfully`. */
  datatype Condition = CompletedSuccessfully

  /** A service; `dependsOn` is `None` when the service has no `depends_on` key. */
  datatype Service = Service(
    image: Option<string>,
    command: Command,
    volumes: seq<string>,
    dependsOn: Option<map<string, Condition>>)

  /** The compose document: its version, its services and its named volumes. */
  datatype Compose = Compose(version: string, services: map<string, Service>, volumes: set<string>)

  /** `assert len(package.graphs) == 1`, and reading `node` after a loop over no nodes. */
  datatype DockerError = NotOneGraph | NoNodes

  // ---------------------------------------------------------------------------------
  // The specification

  /** The key of the service of the node named `node` in the graph named `graph`. */
  function ServiceKey(graph: string, node: string): string {
    graph + "." + node
  }

  /** The named volume every service mounts. */
  function NodeOutputsMount(): string {
    "node_outputs:/mnt/node_outputs"
  }

  /** The bind mount of graph input `x`, whose host path comes from `INPUT_x`. */
  function InputMount(x: string): string {
    "${INPUT_" + x + ":?err}:/mnt/graph_inputs/" + x
  }

  /** The bind mount of the graph outputs, whose host path comes from `OUTPUT`. */
  function OutputMount(): string {
    "${OUTPUT:?err}:/mnt/graph_outputs"
  }

  /** The graph-input mounts a node's inputs add, in input order. */
  function InputMounts(inputs: seq<Input>): seq<string>
    decreases |inputs|
  {
    if inputs == [] then []
    else
      var last := inputs[|inputs| - 1];
      InputMounts(inputs[..|inputs| - 1]) + if last.source.graphInput.Some? then [InputMount(last.source.graphInput.value)] else []
  }

  /** The `depends_on` a node's inputs build with `setdefault`, in input order. */
  function NodeDependsOn(graph: string, inputs: seq<Input>): Option<map<string, Condition>>
    decreases |inputs|
  {
    if inputs == [] then None
    else
      var front := NodeDependsOn(graph, inputs[..|inputs| - 1]);
      var last := inputs[|inputs| - 1];
      if last.source.node.None? then front
      else
        var deps := if front.None? then map[] else front.value;
        Some(deps[ServiceKey(graph, last.source.node.value) := CompletedSuccessfully])
  }

  /** The service of node `n` of graph `g`. */
  function NodeService(g: Graph, n: Node): Service {
    Service(n.entrypoint.image, RunNode(n, g.inputs), [NodeOutputsMount()] + InputMounts(n.inputs),
            NodeDependsOn(g.name, n.inputs))
  }

  /** The node services of the first nodes `nodes`, a later node replacing an earlier one's key. */
  function NodeServices(g: Graph, nodes: seq<Node>): map<string, Service>
    decreases |nodes|
  {
    if nodes == [] then map[]
    else
      var last := nodes[|nodes| - 1];
      NodeServices(g, nodes[..|nodes| - 1])[ServiceKey(g.name, last.name) := NodeService(g, last)]
  }

  /** The keys of the services of `nodes`. */
  function NodeKeys(g: Graph, nodes: seq<Node>): set<string> {
    set k | 0 <= k < |nodes| :: ServiceKey(g.name, nodes[k].name)
  }

  /** The graph-input mounts of the graph's own service, one per graph input. */
  function GraphInputMounts(inputs: seq<GraphInput>): seq<string> {
    seq(|inputs|, k requires 0 <= k < |inputs| => InputMount(inputs[k].name))
  }

  /**
   * The graph's service: the last node's image; the node-outputs volume, every graph input
   * and, when the graph has outputs, the graph-outputs mount; a dependency on every node.
   */
  function GraphService(g: Graph): Service
    requires g.nodes != []
  {
    Service(g.nodes[|g.nodes| - 1].entrypoint.image, RunGraph(g.outputs),
            [NodeOutputsMount()] + GraphInputMounts(g.inputs) + (if g.outputs != [] then [OutputMount()] else []),
            Some(map k | k in NodeKeys(g, g.nodes) :: CompletedSuccessfully))
  }

  /** The compose document `generate` returns, or the reason it fails. */
  function ComposeOf(pkg: Package): (r: Result<Compose, DockerError>)
    ensures r.Success? ==> |pkg.graphs| == 1 && pkg.graphs[0].nodes != []
    ensures |pkg.graphs| != 1 ==> r == Failure(NotOneGraph)
  {
    if |pkg.graphs| != 1 then Failure(NotOneGraph)
    else
      var g := pkg.graphs[0];
      if g.nodes == [] then Failure(NoNodes)
      else Success(Compose("3.9", NodeServices(g, g.nodes)[g.name := GraphService(g)], {"node_outputs"}))
  }

  // ---------------------------------------------------------------------------------
  // What the specification promises

  /** A node's `depends_on` is absent exactly when no input comes from a node. */
  lemma {:induction false} NodeDependsOnAbsent(graph: string, inputs: seq<Input>)
    ensures NodeDependsOn(graph, inputs).None? <==> forall k :: 0 <= k < |inputs| ==> inputs[k].source.node.None?
    decreases |inputs|
  {
    if inputs != [] {
      var front := inputs[..|inputs| - 1];
      NodeDependsOnAbsent(graph, front);
      assert forall k :: 0 <= k < |front| ==> front[k] == inputs[k];
    }
  }

  /**
   * A node's `depends_on` names the service of every node an input comes from, and nothing
   * else, each with the condition `service_completed_successfully`.
   */
  lemma {:induction false} NodeDependsOnKeys(graph: string, inputs: seq<Input>, key: string)
    ensures var d := NodeDependsOn(graph, inputs);
      d.Some? ==> (key in d.value <==> exists k :: 0 <= k < |inputs| && inputs[k].source.node.Some? &&
                                                 key == ServiceKey(graph, inputs[k].source.node.value))
    ensures var d := NodeDependsOn(graph, inputs);
      d.Some? && key in d.value ==> d.value[key] == CompletedSuccessfully
    decreases |inputs|
  {
    if inputs != [] {
      var front := inputs[..|inputs| - 1];
      NodeDependsOnKeys(graph, front, key);
      NodeDependsOnAbsent(graph, front);
      assert forall k :: 0 <= k < |front| ==> front[k] == inputs[k];
    }
  }

  /** A node mounts `${INPUT_x:?err}:/mnt/graph_inputs/x` for exactly the graph inputs it reads. */
  lemma {:induction false} InputMountsMembers(inputs: seq<Input>, v: string)
    ensures v in InputMounts(inputs) <==> exists k :: 0 <= k < |inputs| && inputs[k].source.graphInput.Some? &&
                                                    v == InputMount(inputs[k].source.graphInput.value)
    decreases |inputs|
  {
    if inputs != [] {
      var front := inputs[..|inputs| - 1];
      InputMountsMembers(front, v);
      assert forall k :: 0 <= k < |front| ==> front[k] == inputs[k];
    }
  }

  /** The services of the nodes are keyed by `<graph>.<node>`, one key per node name. */
  lemma {:induction false} NodeServicesKeys(g: Graph, nodes: seq<Node>)
    ensures NodeServices(g, nodes).Keys == NodeKeys(g, nodes)
    decreases |nodes|
  {
    if nodes != [] {
      var front := nodes[..|nodes| - 1];
      NodeServicesKeys(g, front);
      assert forall k :: 0 <= k < |front| ==> front[k] == nodes[k];
      assert NodeKeys(g, nodes) == NodeKeys(g, front) + {ServiceKey(g.name, nodes[|nodes| - 1].name)};
    }
  }

  /** The service under a node's key is that node's, unless a later node has the same name. */
  lemma {:induction false} NodeServicesAt(g: Graph, nodes: seq<Node>, k: nat)
    requires k < |nodes|
    requires forall j :: k < j < |nodes| ==> nodes[j].name != nodes[k].name
    ensures ServiceKey(g.name, nodes[k].name) in NodeServices(g, nodes)
    ensures NodeServices(g, nodes)[ServiceKey(g.name, nodes[k].name)] == NodeService(g, nodes[k])
    decreases |nodes|
  {
    NodeServicesKeys(g, nodes);
    NodeServicesKeys(g, nodes[..|nodes| - 1]);
    if k < |nodes| - 1 {
      var front := nodes[..|nodes| - 1];
      NodeKeyInjective(g.name, nodes[k].name, nodes[|nodes| - 1].name);
      NodeServicesAt(g, front, k);
    }
  }

  /** Service keys of one graph differ exactly when the node names do. */
  lemma NodeKeyInjective(graph: string, a: string, b: string)
    ensures ServiceKey(graph, a) == ServiceKey(graph, b) <==> a == b
  {
    if ServiceKey(graph, a) == ServiceKey(graph, b) {
      assert a == ServiceKey(graph, a)[|graph| + 1..];
      assert b == ServiceKey(graph, b)[|graph| + 1..];
    }
  }

  /**
   * The document: version 3.9, the `node_outputs` volume, one service per node key plus
   * one under the graph's own name, which no node key can take.
   */
  lemma ComposeServices(pkg: Package)
    requires ComposeOf(pkg).Success?
    ensures var c := ComposeOf(pkg).value;
      var g := pkg.graphs[0];
      && c.version == "3.9" && c.volumes == {"node_outputs"}
      && c.services.Keys == NodeKeys(g, g.nodes) + {g.name}
      && g.name !in NodeKeys(g, g.nodes)
      && c.services[g.name] == GraphService(g)
  {
    var g := pkg.graphs[0];
    NodeServicesKeys(g, g.nodes);
    forall k | 0 <= k < |g.nodes| ensures ServiceKey(g.name, g.nodes[k].name) != g.name {
      assert |ServiceKey(g.name, g.nodes[k].name)| > |g.name|;
    }
  }

  /**
   * The graph's service runs the last node's image, depends on the service of every node
   * with the condition `service_completed_successfully`, and mounts the graph outputs
   * exactly when the graph has outputs.
   */
  lemma GraphServiceShape(g: Graph)
    requires g.nodes != []
    ensures var s := GraphService(g);
      && s.image == g.nodes[|g.nodes| - 1].entrypoint.image
      && s.dependsOn.Some? && s.dependsOn.value.Keys == NodeKeys(g, g.nodes)
      && (forall k :: k in s.dependsOn.value ==> s.dependsOn.value[k] == CompletedSuccessfully)
      && (forall x :: InputMount(x) in s.volumes <==> exists k :: 0 <= k < |g.inputs| && x == g.inputs[k].name)
      && (OutputMount() in s.volumes <==> g.outputs != [])
  {
    forall x ensures InputMount(x) in GraphService(g).volumes <==> exists k :: 0 <= k < |g.inputs| && x == g.inputs[k].name {
      GraphServiceInput(g, x);
    }
    GraphServiceOutput(g);
  }

  /** The graph's service mounts exactly the graph's inputs. */
  lemma GraphServiceInput(g: Graph, x: string)
    requires g.nodes != []
    ensures InputMount(x) in GraphService(g).volumes <==> exists k :: 0 <= k < |g.inputs| && x == g.inputs[k].name
  {
    var vs := GraphService(g).volumes;
    var ins := GraphInputMounts(g.inputs);
    assert vs == [NodeOutputsMount()] + ins + (if g.outputs != [] then [OutputMount()] else []);
    if InputMount(x) in vs {
      assert InputMount(x) in ins by {
        OutputMountNotInput(x);
        NodeOutputsMountNotInput(x);
      }
      var k :| 0 <= k < |ins| && ins[k] == InputMount(x);
      InputMountInjective(g.inputs[k].name, x);
    }
    if exists k :: 0 <= k < |g.inputs| && x == g.inputs[k].name {
      var k :| 0 <= k < |g.inputs| && x == g.inputs[k].name;
      assert vs[k + 1] == InputMount(x);
    }
  }

  /** The graph's service mounts the graph outputs exactly when the graph has outputs. */
  lemma GraphServiceOutput(g: Graph)
    requires g.nodes != []
    ensures OutputMount() in GraphService(g).volumes <==> g.outputs != []
  {
    var vs := GraphService(g).volumes;
    var ins := GraphInputMounts(g.inputs);
    assert vs == [NodeOutputsMount()] + ins + (if g.outputs != [] then [OutputMount()] else []);
    if g.outputs == [] {
      forall i | 0 <= i < |vs| ensures vs[i] != OutputMount() {
        if i == 0 {
          assert OutputMount()[0] != NodeOutputsMount()[0];
        } else {
          OutputMountNotInput(g.inputs[i - 1].name);
        }
      }
    } else {
      assert vs[|vs| - 1] == OutputMount();
    }
  }

  /** The mounts of two graph inputs are equal only for the same input. */
  lemma InputMountInjective(x: string, y: string)
    requires InputMount(x) == InputMount(y)
    ensures x == y
  {
    var m := InputMount(x);
    assert |m| == 2 * |x| + 33 && |InputMount(y)| == 2 * |y| + 33;
    assert x == m[8..8 + |x|] && y == m[8..8 + |y|];
  }

  /** The graph-outputs mount is no graph-input mount. */
  lemma OutputMountNotInput(x: string)
    ensures OutputMount() != InputMount(x)
  {
    assert OutputMount()[2] == 'O' && InputMount(x)[2] == 'I';
  }

  /** The node-outputs mount is no graph-input mount. */
  lemma NodeOutputsMountNotInput(x: string)
    ensures NodeOutputsMount() != InputMount(x)
  {
    assert NodeOutputsMount()[0] == 'n' && InputMount(x)[0] == '$';
  }

  // ---------------------------------------------------------------------------------
  // The method

  /** One step of the input loop of a node: a `depends_on` entry and a graph-input mount. */
  method AddInput(graph: string, service: Service, inp: Input) returns (r: Service)
    ensures r.image == service.image && r.command == service.command
    ensures r.volumes == service.volumes + if inp.source.graphInput.Some? then [InputMount(inp.source.graphInput.value)] else []
    ensures inp.source.node.None? ==> r.dependsOn == service.dependsOn
    ensures inp.source.node.Some? ==>
      r.dependsOn == Some((if service.dependsOn.None? then map[] else service.dependsOn.value)
                          [ServiceKey(graph, inp.source.node.value) := CompletedSuccessfully])
  {
    r := service;
    if inp.source.node.Some? {
      var name := ServiceKey(graph, inp.source.node.value);
      var deps := if r.dependsOn.None? then map[] else r.dependsOn.value;
      r := r.(dependsOn := Some(deps[name := CompletedSuccessfully]));
    }
    if inp.source.graphInput.Some? {
      r := r.(volumes := r.volumes + [InputMount(inp.source.graphInput.value)]);
    }
  }

  /** The service of one node, built input by input. */
  method BuildNodeService(g: Graph, n: Node) returns (service: Service)
    ensures service == NodeService(g, n)
  {
    service := Service(n.entrypoint.image, RunNode(n, g.inputs), [NodeOutputsMount()], None);
    for j := 0 to |n.inputs|
      invariant service.image == n.entrypoint.image && service.command == RunNode(n, g.inputs)
      invariant service.volumes == [NodeOutputsMount()] + InputMounts(n.inputs[..j])
      invariant service.dependsOn == NodeDependsOn(g.name, n.inputs[..j])
    {
      assert n.inputs[..j + 1][..j] == n.inputs[..j];
      service := AddInput(g.name, service, n.inputs[j]);
    }
    assert n.inputs[..|n.inputs|] == n.inputs;
  }

  /** The graph's service, built from the graph inputs and outputs and then the nodes. */
  method BuildGraphService(g: Graph) returns (service: Service)
    requires g.nodes != []
    ensures service == GraphService(g)
  {
    var volumes := [NodeOutputsMount()];
    for k := 0 to |g.inputs|
      invariant volumes == [NodeOutputsMount()] + GraphInputMounts(g.inputs[..k])
    {
      assert GraphInputMounts(g.inputs[..k + 1]) == GraphInputMounts(g.inputs[..k]) + [InputMount(g.inputs[k].name)];
      volumes := volumes + [InputMount(g.inputs[k].name)];
    }
    assert g.inputs[..|g.inputs|] == g.inputs;
    if g.outputs != [] {
      volumes := volumes + [OutputMount()];
    }
    var deps: map<string, Condition> := map[];
    for k := 0 to |g.nodes|
      invariant deps == map key | key in NodeKeys(g, g.nodes[..k]) :: CompletedSuccessfully
    {
      assert NodeKeys(g, g.nodes[..k + 1]) == NodeKeys(g, g.nodes[..k]) + {ServiceKey(g.name, g.nodes[k].name)} by {
        PrefixKeys(g, g.nodes, k);
      }
      deps := deps[ServiceKey(g.name, g.nodes[k].name) := CompletedSuccessfully];
    }
    assert g.nodes[..|g.nodes|] == g.nodes;
    service := Service(g.nodes[|g.nodes| - 1].entrypoint.image, RunGraph(g.outputs), volumes, Some(deps));
  }

  /** The keys of one more node are the keys so far and that node's. */
  lemma PrefixKeys(g: Graph, nodes: seq<Node>, k: nat)
    requires k < |nodes|
    ensures NodeKeys(g, nodes[..k + 1]) == NodeKeys(g, nodes[..k]) + {ServiceKey(g.name, nodes[k].name)}
  {
    var a := nodes[..k + 1];
    assert forall j :: 0 <= j < k ==> a[j] == nodes[..k][j];
    assert a[k] == nodes[k];
  }

  /**
   * `DockerBatchBackend.generate` up to the YAML dump: the services of the only graph, or
   * the failed assertion when there is not exactly one graph, or the unbound `node` when
   * the graph has no nodes.
   */
  method Generate(pkg: Package) returns (r: Result<Compose, DockerError>)
    ensures r == ComposeOf(pkg)
  {
    if |pkg.graphs| != 1 {
      return Failure(NotOneGraph);
    }
    var g := pkg.graphs[0];
    var services: map<string, Service> := map[];
    for k := 0 to |g.nodes|
      invariant services == NodeServices(g, g.nodes[..k])
    {
      var service := BuildNodeService(g, g.nodes[k]);
      assert g.nodes[..k + 1][..k] == g.nodes[..k];
      services := services[ServiceKey(g.name, g.nodes[k].name) := service];
    }
    assert g.nodes[..|g.nodes|] == g.nodes;
    if g.nodes == [] {
      return Failure(NoNodes);
    }
    var graphService := BuildGraphService(g);
    services := services[g.name := graphService];
    r := Success(Compose("3.9", services, {"node_outputs"}));
  }
}
