/**
 * `Graph.validate` and `Package.validate`: the fail-fast sequence of entity checks,
 * connectivity and acyclicity, and the package-level name and subgraph-reference rules.
 */
module Validation {
  import opened Wrappers
  import opened Pir
  import opened Acyclicity

  /** Every graph output and every node input resolves to a source with its iotype. */
  ghost predicate Connected(g: Graph) {
    && (forall o :: o in g.outputs ==> ValidateSource(g, o.source, o.iotype).Pass?)
    && (forall n, i :: n in g.nodes && i in n.inputs ==> ValidateSource(g, i.source, i.iotype).Pass?)
  }

  /**
   * A graph `Graph.validate` accepts. Its acyclicity stage is the search as written, which
   * shares its visited sets between roots, so a valid graph may still hold a cycle.
   */
  ghost predicate GraphValid(g: Graph) {
    EntitiesValid(g) && Connected(g) && SearchPasses(g)
  }

  /** The errors `Graph.validate` may raise: the first failing stage's error. */
  ghost predicate GraphError(g: Graph, e: Error) {
    || (EntityChecks(g).Fail? && e == EntityChecks(g).error)
    || (EntityChecks(g).Pass? && Connectivity(g).Fail? && e == Connectivity(g).error)
    || (EntityChecks(g).Pass? && Connectivity(g).Pass? &&
        exists i :: 0 <= i < |Roots(g)| && Bad(g, Roots(g), i) && RootError(g, Roots(g)[i], e))
  }

  /**
   * `Graph.validate`: entity checks, then connectivity, then acyclicity; the first failure
   * is the result.
   */
  method GraphValidate(g: Graph) returns (r: Outcome<Error>)
    ensures r.Pass? <==> GraphValid(g)
    ensures EntityChecks(g).Fail? ==> r == EntityChecks(g)
    ensures EntityChecks(g).Pass? && Connectivity(g).Fail? ==> r == Connectivity(g)
    ensures r.Fail? ==> GraphError(g, r.error)
  {
    EntityChecksPass(g);
    ConnectivityPass(g);
    r := EntityChecks(g);
    if r.Fail? {
      return;
    }
    r := Connectivity(g);
    if r.Fail? {
      return;
    }
    r := CheckAcyclicity(g);
  }

  /**
   * What a valid graph guarantees: every rule, every reference resolved with its iotype,
   * and of acyclicity only that a root on a cycle or a dangling path was reached from an
   * earlier root. A graph without cycles passes the acyclicity stage.
   */
  lemma GraphValidMeans(g: Graph)
    requires GraphValid(g)
    ensures EntitiesValid(g)
    ensures forall o :: o in g.outputs ==> SourceHasIotype(g, o.source, o.iotype)
    ensures forall n, i :: n in g.nodes && i in n.inputs ==> SourceHasIotype(g, i.source, i.iotype)
    ensures forall i :: 0 <= i < |Roots(g)| && (OnCycle(g, Roots(g)[i]) || ReachesDangling(g, Roots(g)[i])) ==>
      ReachedBefore(g, Roots(g), i)
  {
    SearchPassesMeans(g);
  }

  /** A graph that passes the entity and connectivity stages and has no cycle is valid. */
  lemma AcyclicGraphValid(g: Graph)
    requires EntitiesValid(g) && Connected(g) && Acyclic(g)
    ensures GraphValid(g)
  {
    SearchPassesMeans(g);
  }

  /** `Graph.validate` accepts the graph in which node `b` feeds itself. */
  lemma GraphValidAcceptsCycle()
    ensures GraphValid(SelfLoopGraph()) && !Acyclic(SelfLoopGraph())
  {
    CheckAcyclicityMissesSelfLoop();
    SelfLoopEntities();
    SelfLoopConnected();
  }

  lemma SelfLoopEntities()
    ensures EntitiesValid(SelfLoopGraph())
  {
    var g := SelfLoopGraph();
    var a, b := g.nodes[0], g.nodes[1];
    assert forall n :: n in g.nodes ==> n == a || n == b;
    assert PortsValid(a.inputs, a.outputs);
    assert PortsValid(b.inputs, b.outputs);
    assert Names(g.nodes, NodeName) == ["a", "b"];
    assert Distinct(["a", "b"]);
  }

  lemma SelfLoopConnected()
    ensures Connected(SelfLoopGraph())
  {
    var g := SelfLoopGraph();
    var b := g.nodes[1];
    var src := b.inputs[0].source;
    assert "a" != "b";
    FindByNameFirst(g.nodes, NodeName, "b", 1);
    assert FindOutput(b.outputs, src.output) == Some(b.outputs[0]);
    assert ValidateSource(g, src, "int").Pass?;
    assert forall n, i :: n in g.nodes && i in n.inputs ==> i.source == src && i.iotype == "int";
  }

  /** `Package._validate_subgraph`: the embedded graph must exist in the package. */
  function ValidateSubgraphRef(p: Package, s: Subgraph): (r: Outcome<Error>)
    ensures r.Pass? <==> exists g :: g in p.graphs && g.name == s.graph
    ensures r.Fail? ==> r.error == MissingGraph(s.name, s.graph)
  {
    if FindByName(p.graphs, GraphName, s.graph).None? then Fail(MissingGraph(s.name, s.graph)) else Pass
  }

  ghost predicate SubgraphRefsResolve(p: Package, g: Graph) {
    forall s :: s in g.subgraphs ==> ValidateSubgraphRef(p, s).Pass?
  }

  /** A package `Package.validate` accepts. */
  ghost predicate PackageValid(p: Package) {
    && Distinct(Names(p.graphs, GraphName))
    && (forall g :: g in p.graphs ==> GraphValid(g) && SubgraphRefsResolve(p, g))
  }

  /** The errors `Package.validate` may raise, each with the rule it reports. */
  ghost predicate PackageError(p: Package, e: Error) {
    || (e == DuplicateNames("graph", Duplicates(Names(p.graphs, GraphName))) &&
        !Distinct(Names(p.graphs, GraphName)))
    || (exists g :: g in p.graphs && !GraphValid(g) && (e.IsCrash() || (e.Prefixed? && e.context == GraphCtx(g.name))))
    || (exists g, s :: (g in p.graphs && s in g.subgraphs && e == MissingGraph(s.name, s.graph) &&
        ValidateSubgraphRef(p, s).Fail?))
  }

  lemma GraphFailure(p: Package, g: Graph, e: Error)
    requires g in p.graphs && !GraphValid(g)
    requires e.IsCrash() || (e.Prefixed? && e.context == GraphCtx(g.name))
    ensures PackageError(p, e) && !PackageValid(p)
  {
  }

  lemma SubgraphRefFailure(p: Package, g: Graph, s: Subgraph)
    requires g in p.graphs && s in g.subgraphs && ValidateSubgraphRef(p, s).Fail?
    ensures PackageError(p, MissingGraph(s.name, s.graph)) && !PackageValid(p)
  {
  }

  /** The loop `for subgraph in graph.subgraphs: self._validate_subgraph(subgraph)`. */
  method ValidateSubgraphRefs(p: Package, g: Graph) returns (r: Outcome<Error>)
    ensures r.Pass? <==> SubgraphRefsResolve(p, g)
    ensures r.Fail? ==> exists s :: s in g.subgraphs && ValidateSubgraphRef(p, s) == r
  {
    var j := 0;
    while j < |g.subgraphs|
      invariant 0 <= j <= |g.subgraphs|
      invariant forall k :: 0 <= k < j ==> ValidateSubgraphRef(p, g.subgraphs[k]).Pass?
    {
      r := ValidateSubgraphRef(p, g.subgraphs[j]);
      if r.Fail? {
        return;
      }
      j := j + 1;
    }
    r := Pass;
  }

  /** One round of the loop over `self.graphs`: the graph, then its subgraph references. */
  method ValidateGraphIn(p: Package, g: Graph) returns (r: Outcome<Error>)
    requires g in p.graphs
    ensures r.Pass? <==> GraphValid(g) && SubgraphRefsResolve(p, g)
    ensures r.Fail? ==> PackageError(p, r.error)
  {
    var e := GraphValidate(g);
    if e.Fail? {
      r := Fail(Wrap(GraphCtx(g.name), e.error));
      GraphFailure(p, g, r.error);
      return;
    }
    r := ValidateSubgraphRefs(p, g);
    if r.Fail? {
      var s :| s in g.subgraphs && ValidateSubgraphRef(p, s) == r;
      SubgraphRefFailure(p, g, s);
    }
  }

  /**
   * `Package.validate`: graph names, then each graph in order (its errors prefixed with
   * "graph 'g': ") followed by the references of its subgraphs.
   */
  method PackageValidate(p: Package) returns (r: Outcome<Error>)
    ensures r.Pass? <==> PackageValid(p)
    ensures r.Fail? ==> PackageError(p, r.error)
    ensures !Distinct(Names(p.graphs, GraphName)) ==> r == NamesCheck(Names(p.graphs, GraphName), "graph")
  {
    r := ValidateNames(Names(p.graphs, GraphName), "graph");
    if r.Fail? {
      return;
    }
    var i := 0;
    while i < |p.graphs|
      invariant 0 <= i <= |p.graphs|
      invariant forall k :: 0 <= k < i ==> GraphValid(p.graphs[k]) && SubgraphRefsResolve(p, p.graphs[k])
    {
      r := ValidateGraphIn(p, p.graphs[i]);
      if r.Fail? {
        return;
      }
      i := i + 1;
    }
    r := Pass;
  }

  /** A package whose only graph embeds itself. */
  function SelfNestingPackage(): Package {
    Package([Graph("g", [], [Subgraph("s", "g", map[], [], [])], [], [])])
  }

  /** Nothing rejects a graph that embeds itself, which flattening could never finish. */
  lemma PackageValidAllowsSelfNesting()
    ensures PackageValid(SelfNestingPackage())
  {
    var p := SelfNestingPackage();
    var g := p.graphs[0];
    var x := SubgraphItem(g.subgraphs[0]);
    assert EntityChecks(g).Pass?;
    assert Connectivity(g).Pass?;
    forall y | Member(g, y) ensures !OnCycle(g, y) && !ReachesDangling(g, y) {
      assert y == x;
      forall z | Reachable(g, y, z) ensures !Edge(g, z, y) && !HasDangling(g, z) {
        ReachableMember(g, y, z);
        assert z == x;
      }
    }
    assert GraphValid(g);
    assert ValidateSubgraphRef(p, g.subgraphs[0]).Pass?;
  }

  /** A source may carry an `output` alongside `graph_input`: nothing rejects it. */
  lemma GraphInputWithOutputAccepted(x: string, o: string)
    ensures ValidateDataSource(DataSource(None, None, Some(o), Some(x))).Pass?
  {
  }
}
