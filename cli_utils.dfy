/**
 * The command-line helpers shared by the subcommands: the `module:name` reference check of
 * `pipeline_def`, and `package_pipelines`, which gathers the graphs of several pipelines
 * into one package, skipping repeats and refusing two different graphs with one name.
 */
module CliUtils {
  import opened Wrappers
  import opened Pir
  import opened Strings
  import Flatten

  /** A pipeline definition, reduced to its name and the package it builds. */
  datatype Pipeline = Pipeline(name: string, pkg: Package)

  datatype CliError =
    | MalformattedReference(arg: string)
    | ConflictingGraphs(name: string)
    | FlattenFailed(pipeline: string, cause: Error)

  /**
   * `pipeline_def`'s check and split: a reference must hold exactly one `:`, and is then
   * the module name before it and the pipeline name after it.
   */
  function PipelineRef(arg: string): (r: Result<(string, string), CliError>)
    ensures r.Success? <==> multiset(arg)[':'] == 1
    ensures r.Failure? ==> r.error == MalformattedReference(arg)
    ensures r.Success? ==> arg == r.value.0 + ":" + r.value.1 && ':' !in r.value.0 && ':' !in r.value.1
  {
    if multiset(arg)[':'] != 1 then Failure(MalformattedReference(arg))
    else
      var i := FirstIndex(arg, ':').value;
      var m, p := arg[..i], arg[i + 1..];
      assert arg == m + [':'] + p;
      assert multiset(arg) == multiset(m) + multiset{':'} + multiset(p);
      Success((m, p))
  }

  // ---------------------------------------------------------------------------------
  // Merging graphs by name

  /** Two graphs in `gs` share a name but differ. */
  ghost predicate Conflict(gs: seq<Graph>) {
    exists x, y :: x in gs && y in gs && x.name == y.name && x != y
  }

  /**
   * One graph `g` against the graphs gathered so far (the inner `for … else`): the first
   * one with its name must equal it and then `g` is skipped; with none, `g` is appended.
   */
  function MergeGraph(acc: seq<Graph>, g: Graph): (r: Result<seq<Graph>, CliError>)
    ensures r.Failure? ==> r.error == ConflictingGraphs(g.name) && exists h :: h in acc && h.name == g.name && h != g
    ensures r.Success? ==> acc <= r.value && |r.value| <= |acc| + 1 && g in r.value
    ensures r.Success? ==> forall h :: h in r.value ==> h in acc || h == g
    ensures Distinct(Names(acc, GraphName)) ==>
      (r.Failure? <==> exists h :: h in acc && h.name == g.name && h != g)
    ensures Distinct(Names(acc, GraphName)) && g in acc ==> r == Success(acc)
    ensures Distinct(Names(acc, GraphName)) && r.Success? ==> Distinct(Names(r.value, GraphName))
  {
    match FindByName(acc, GraphName, g.name)
    case Some(h) =>
      SameNameSame(acc);
      if h != g then Failure(ConflictingGraphs(g.name)) else Success(acc)
    case None =>
      var r := acc + [g];
      assert Names(r, GraphName) == Names(acc, GraphName) + [g.name];
      Success(r)
  }

  /** With distinct names, two gathered graphs with one name are the same graph. */
  lemma SameNameSame(gs: seq<Graph>)
    ensures Distinct(Names(gs, GraphName)) ==> forall x, y :: x in gs && y in gs && x.name == y.name ==> x == y
  {
    if Distinct(Names(gs, GraphName)) {
      forall x, y | x in gs && y in gs && x.name == y.name ensures x == y {
        var i :| 0 <= i < |gs| && gs[i] == x;
        var j :| 0 <= j < |gs| && gs[j] == y;
        assert Names(gs, GraphName)[i] == Names(gs, GraphName)[j];
      }
    }
  }

  /** The graphs `gs` merged in order into `acc` (the loop over one package's graphs). */
  function MergeAll(acc: seq<Graph>, gs: seq<Graph>): (r: Result<seq<Graph>, CliError>)
    ensures r.Failure? ==> r.error.ConflictingGraphs?
    ensures r.Success? ==> acc <= r.value
    ensures r.Success? ==> forall g :: g in acc + gs ==> g in r.value
    ensures r.Success? ==> forall h :: h in r.value ==> h in acc + gs
    ensures Distinct(Names(acc, GraphName)) && r.Success? ==> Distinct(Names(r.value, GraphName))
    decreases |gs|
  {
    if gs == [] then
      assert acc + gs == acc;
      Success(acc)
    else
      match MergeGraph(acc, gs[0])
      case Failure(e) => Failure(e)
      case Success(next) =>
        var r := MergeAll(next, gs[1..]);
        assert forall g :: g in acc + gs <==> g in acc || g == gs[0] || g in gs[1..];
        assert forall g :: g in next + gs[1..] <==> g in next || g in gs[1..];
        r
  }

  /**
   * Given graphs with distinct names, merging fails exactly when two of the graphs involved
   * share a name but differ.
   */
  lemma {:induction false} MergeAllConflict(acc: seq<Graph>, gs: seq<Graph>)
    requires Distinct(Names(acc, GraphName))
    ensures MergeAll(acc, gs).Failure? <==> Conflict(acc + gs)
    decreases |gs|
  {
    var r := MergeAll(acc, gs);
    if r.Success? {
      SameNameSame(r.value);
    } else {
      assert gs != [];
      var m := MergeGraph(acc, gs[0]);
      if m.Failure? {
        var h :| h in acc && h.name == gs[0].name && h != gs[0];
        assert h in acc + gs && gs[0] in acc + gs;
      } else {
        MergeAllConflict(m.value, gs[1..]);
        var x, y :| x in m.value + gs[1..] && y in m.value + gs[1..] && x.name == y.name && x != y;
        assert forall g :: g in m.value + gs[1..] ==> g in acc + gs;
      }
    }
  }

  /** Merging `a + b` is merging `a`, then merging `b` into the result. */
  lemma {:induction false} MergeAllAppend(acc: seq<Graph>, a: seq<Graph>, b: seq<Graph>)
    ensures MergeAll(acc, a + b) ==
      match MergeAll(acc, a) case Failure(e) => Failure(e) case Success(m) => MergeAll(m, b)
    decreases |a|
  {
    if a == [] {
      assert a + b == b;
    } else {
      assert (a + b)[0] == a[0] && (a + b)[1..] == a[1..] + b;
      var m := MergeGraph(acc, a[0]);
      if m.Success? {
        MergeAllAppend(m.value, a[1..], b);
      }
    }
  }

  /**
   * The inner `for graph in package.graphs: … else: append` over the graphs gathered so
   * far; `parser.error` on a conflict ends the command.
   */
  method MergeInto(graphs: seq<Graph>, g: Graph) returns (r: Result<seq<Graph>, CliError>)
    ensures r == MergeGraph(graphs, g)
  {
    for k := 0 to |graphs|
      invariant FindByName(graphs[k..], GraphName, g.name) == FindByName(graphs, GraphName, g.name)
    {
      assert graphs[k..][1..] == graphs[k + 1..];
      if graphs[k].name == g.name {
        if graphs[k] != g {
          return Failure(ConflictingGraphs(g.name));
        }
        return Success(graphs);
      }
    }
    return Success(graphs + [g]);
  }

  // ---------------------------------------------------------------------------------
  // Gathering the pipelines

  /** Every pipeline's graph can be flattened when flattening is asked for. */
  ghost predicate Nested(ps: seq<Pipeline>, flatten: bool) {
    flatten ==> forall p :: p in ps ==> Flatten.WellNested(p.pkg, p.name)
  }

  /** Every flattening asked for succeeds. */
  ghost predicate AllFlatten(ps: seq<Pipeline>, flatten: bool) {
    flatten ==> forall p :: p in ps ==> Flattens(p)
  }

  ghost predicate Flattens(p: Pipeline) {
    Flatten.WellNested(p.pkg, p.name) && Flatten.FlattenOk(p.pkg, p.name)
  }

  /** What one pipeline adds: its package's graphs, or with `flatten` its one flattened graph. */
  function Contribution(p: Pipeline, flatten: bool): seq<Graph>
    requires flatten ==> Flatten.WellNested(p.pkg, p.name)
  {
    if flatten then [Flatten.Inline(p.pkg, p.name)] else p.pkg.graphs
  }

  /** The graphs of all pipelines, in order. */
  function Gathered(ps: seq<Pipeline>, flatten: bool): seq<Graph>
    requires Nested(ps, flatten)
    decreases |ps|
  {
    if ps == [] then [] else Gathered(ps[..|ps| - 1], flatten) + Contribution(ps[|ps| - 1], flatten)
  }

  /** A conflict among the first pipelines' graphs is the outcome for all of them. */
  lemma {:induction false} FailureSpreads(ps: seq<Pipeline>, flatten: bool, i: nat, e: CliError)
    requires Nested(ps, flatten) && i <= |ps|
    requires MergeAll([], Gathered(ps[..i], flatten)) == Failure(e)
    ensures MergeAll([], Gathered(ps, flatten)) == Failure(e)
    decreases |ps|
  {
    if i == |ps| {
      assert ps[..i] == ps;
    } else {
      var front := ps[..|ps| - 1];
      assert front[..i] == ps[..i];
      FailureSpreads(front, flatten, i, e);
      MergeAllAppend([], Gathered(front, flatten), Contribution(ps[|ps| - 1], flatten));
    }
  }

  function AsPackage(m: Result<seq<Graph>, CliError>): Result<Package, CliError> {
    match m
    case Success(gs) => Success(Package(gs))
    case Failure(e) => Failure(e)
  }

  /** The loop over one package's graphs: each merged in turn into `graphs`. */
  method MergeGraphs(graphs: seq<Graph>, gs: seq<Graph>) returns (r: Result<seq<Graph>, CliError>)
    ensures r == MergeAll(graphs, gs)
  {
    var acc := graphs;
    for j := 0 to |gs|
      invariant MergeAll(graphs, gs) == MergeAll(acc, gs[j..])
    {
      assert gs[j..][1..] == gs[j + 1..];
      var m := MergeInto(acc, gs[j]);
      if m.Failure? {
        return Failure(m.error);
      }
      acc := m.value;
    }
    assert gs[|gs|..] == [];
    return Success(acc);
  }

  /** One round of the loop over the pipelines: flatten when asked, then merge. */
  method AddPipeline(graphs: seq<Graph>, p: Pipeline, flatten: bool) returns (r: Result<seq<Graph>, CliError>)
    requires flatten ==> Flatten.WellNested(p.pkg, p.name)
    ensures (!flatten || Flatten.FlattenOk(p.pkg, p.name)) ==> r == MergeAll(graphs, Contribution(p, flatten))
    ensures flatten && !Flatten.FlattenOk(p.pkg, p.name) ==> r.Failure? && r.error.FlattenFailed?
    ensures r.Failure? && r.error.FlattenFailed? ==>
      flatten && p.name == r.error.pipeline && !Flatten.FlattenOk(p.pkg, p.name) &&
      Flatten.FlattenError(p.pkg, p.name, r.error.cause)
  {
    var gs := p.pkg.graphs;
    if flatten {
      var f := Flatten.FlattenGraph(p.pkg, p.name, true);
      if f.Failure? {
        return Failure(FlattenFailed(p.name, f.error));
      }
      gs := [f.value];
    }
    r := MergeGraphs(graphs, gs);
  }

  /** The pipelines up to `i` merged, followed by pipeline `i`'s graphs. */
  lemma GatheredStep(ps: seq<Pipeline>, flatten: bool, i: nat, graphs: seq<Graph>)
    requires Nested(ps, flatten) && i < |ps|
    requires MergeAll([], Gathered(ps[..i], flatten)) == Success(graphs)
    ensures MergeAll([], Gathered(ps[..i + 1], flatten)) == MergeAll(graphs, Contribution(ps[i], flatten))
  {
    assert ps[..i + 1][..i] == ps[..i];
    assert Gathered(ps[..i + 1], flatten) == Gathered(ps[..i], flatten) + Contribution(ps[i], flatten);
    MergeAllAppend([], Gathered(ps[..i], flatten), Contribution(ps[i], flatten));
  }

  lemma AllFlattenStep(ps: seq<Pipeline>, flatten: bool, i: nat)
    requires i < |ps| && AllFlatten(ps[..i], flatten)
    requires flatten ==> Flattens(ps[i])
    ensures AllFlatten(ps[..i + 1], flatten)
  {
    assert forall p :: p in ps[..i + 1] ==> p in ps[..i] || p == ps[i];
  }

  /**
   * `package_pipelines`: each pipeline's package (flattened to its one graph with
   * `flatten`, validating), merged graph by graph into the package built so far.
   */
  method PackagePipelines(pipelines: seq<Pipeline>, flatten: bool) returns (r: Result<Package, CliError>)
    requires Nested(pipelines, flatten)
    ensures AllFlatten(pipelines, flatten) ==> r == AsPackage(MergeAll([], Gathered(pipelines, flatten)))
    ensures r.Success? ==> AllFlatten(pipelines, flatten)
    ensures r.Failure? && r.error.FlattenFailed? ==>
      exists k :: (0 <= k < |pipelines| && flatten && pipelines[k].name == r.error.pipeline &&
                   !Flatten.FlattenOk(pipelines[k].pkg, pipelines[k].name) &&
                   Flatten.FlattenError(pipelines[k].pkg, pipelines[k].name, r.error.cause))
  {
    var graphs: seq<Graph> := [];
    for i := 0 to |pipelines|
      invariant AllFlatten(pipelines[..i], flatten)
      invariant MergeAll([], Gathered(pipelines[..i], flatten)) == Success(graphs)
    {
      var p := pipelines[i];
      var m := AddPipeline(graphs, p, flatten);
      if m.Failure? && m.error.FlattenFailed? {
        assert p in pipelines && !Flattens(p);
        return Failure(m.error);
      }
      GatheredStep(pipelines, flatten, i, graphs);
      assert flatten ==> Flattens(p);
      AllFlattenStep(pipelines, flatten, i);
      if m.Failure? {
        FailureSpreads(pipelines, flatten, i + 1, m.error);
        return Failure(m.error);
      }
      graphs := m.value;
    }
    assert pipelines[..|pipelines|] == pipelines;
    return Success(Package(graphs));
  }
}
