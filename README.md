# pirlib's pipeline IR, in Dafny

This project models the core of pirlib, a library for building ML pipelines. The core
is the pipeline intermediate representation (PIR): a package of graphs whose nodes and
embedded subgraphs are wired together by `DataSource` references.

The model covers:

- the PIR data model and its validators, in fixed fail-fast order: per-entity rules,
  name uniqueness, connectivity with iotype matching, the acyclicity search and the
  package rules;
- the subgraph flattener;
- the in-process scheduler, which runs the ready nodes of a flattened graph one at a
  time;
- the small helpers around them:
  - first-match lookups;
  - the iotype registry;
  - the `name[:format]=url` parser;
  - the package merge of the command line;
  - the PYTHONPATH rebasing, conda pinning and image fill-in of `dockerize`;
  - the config assembly and cache decision of `task`;
- the Argo and Docker Compose generators.

Every PIR entity is a `datatype`. Validation results are `Outcome` values that carry a
structured error. A nested error carries its context, as in
`Prefixed(NodeCtx(n), Prefixed(InputCtx(i), Prefixed(SourceCtx, …)))`, which stands for
the message prefix `node 'n': input 'i': source: …`.

The source mutates state in a loop in several places: the acyclicity worklist, the
name sets, the flattener's rewriting loops, the scheduler's `while True`, merging,
pinning and filling, the template and service builders. Each of these is a `method`
whose loop is proved equal to a specification function. The properties are proved as
lemmas about those functions. State that the source updates in place becomes a
`class`:

- the iotype registry `_TYPE_MAP` (`IoTypes.Registry`);
- the caller's config dictionary that `task` writes into (`Task.Dict`);
- the output directory and cache store seen by the cache wrapper (`Task.TaskEnv`).

Three things that cannot be seen become parameters:

- the task handler of a node, a function from its pre-populated outputs map to the map
  it leaves behind;
- path resolution, given as the resolved parts of each path;
- the encoded command payloads of the Argo backend, given as opaque strings. The
  Docker backend keeps its payloads as the values they encode: the node and graph
  inputs of `run_node`, or the graph outputs of `run_graph`.

`pirlib/pir.py` imports `find_by_name` from `pirlib/utils.py`, which does not define
it. The model uses the first-match `find_by_name` of `pirlib/graph.py:37-40`.
`pirlib/graph.py` is the same code as `pirlib/pir.py` except for
`Entrypoint.validate`. That check is modelled in `LegacyGraph`; everything else is
shared.

The model follows the code as written where it differs from its evident intent (see
"## Findings"). `Graph.validate` runs the acyclicity search as written. Its visited sets
are shared between roots, so a valid graph may still hold a cycle (`Validation.GraphValidAcceptsCycle`).
The flattener runs its rewiring loops as written, and the Argo workflow is named with
`strip(".yml")` as written. The intended versions are kept beside them:
- the per-root search `Acyclicity.CheckAcyclicityFixed`;
- the first-match rewiring, `Flatten.Wiring.FirstMatch`;
- the suffix removal `ArgoBatch.OutputName`.

The scheduler's progress results are stated for graphs without cycles, as an explicit
`Acyclic` hypothesis. Validation alone does not give it.

Modules and files:

| file | module | source |
|---|---|---|
| wrappers.dfy | Wrappers | `Option`, `Result`, `Outcome` |
| strings.dfy | Strings | character searches behind `split` and `rsplit` |
| pir.dfy | Pir | data model, per-entity validation, `_validate_names`, connectivity |
| acyclicity.dfy | Acyclicity | `_validate_acyclicity` |
| validation.dfy | Validation | `Graph.validate`, `Package.validate` |
| flatten.dfy | Flatten | `Package.flatten_graph` |
| legacy_graph.dfy | LegacyGraph | the `Entrypoint.validate` of `graph.py` |
| inproc.dfy | Inproc | `InprocBackend.execute`, `_execute_node` |
| utils.dfy | Utils | `find_by_id`, `find_by_id_prefix` |
| iotypes.dfy | IoTypes | the iotype registry |
| iospec.dfy | IoSpec | `IOSpec.__init__` |
| cli_utils.dfy | CliUtils | `pipeline_def`, `package_pipelines` |
| dockerize.dfy | Dockerize | `_infer_pythonpath`, conda pinning, image fill-in |
| task.dfy | Task | `task`, `TaskDefinition`, `cache_wrapper`, the gate in `run_handler` |
| argo_batch.dfy | ArgoBatch | `argo_name`, `argo_refactor`, templates, `generate` |
| docker_batch.dfy | DockerBatch | `DockerBatchBackend.generate` |

## Model

| member | source | states |
|---|---|---|
| Pir.FindByName | pirlib/graph.py:37-40 | a found item is in the list and has the name; nothing is found iff no item has the name |
| Pir.FindByNameFirst | pirlib/graph.py:37-40 | the first item with the name is the one returned |
| Pir.FindByNameUnique | pirlib/graph.py:37-40 | when names are distinct, every item is found by its own name |
| Pir.Names | pirlib/pir.py:431-438 | the names list has one name per item, in order |
| Pir.DuplicatesAtTwoPositions | pirlib/pir.py:431-438 | a name lands in `twice` iff it occurs at two different positions |
| Pir.TwoPositionsOfDuplicate | pirlib/pir.py:431-438 | a name counted twice has two positions holding it (one direction of the above) |
| Pir.DuplicateOfTwoPositions | pirlib/pir.py:431-438 | a name at two different positions is counted twice (the other direction) |
| Pir.NamesCheckPassIffDistinct | pirlib/pir.py:431-441 | the name check passes iff the names are pairwise distinct |
| Pir.ValidateNames | pirlib/pir.py:431-441 | the `once`/`twice` loop gives the name check's outcome, which passes iff the names are distinct |
| Pir.FirstFailure | pirlib/pir.py:241-245 | a fail-fast loop over items passes iff every item passes |
| Pir.FirstFailureAt | pirlib/pir.py:241-245 | the loop reports the first failing item's error, under that item's prefix |
| Pir.FirstFailureWitness | pirlib/pir.py:241-245 | a failing loop failed at some item, with every earlier item passing |
| Pir.ValidateDataSource | pirlib/pir.py:35-52 | passes iff exactly one of node, subgraph and graph input is set and `output` is set whenever node or subgraph is; only the two documented errors occur |
| Pir.PortsCheckPass | pirlib/pir.py:164-175 | the input and output checks of a node pass iff every input source is valid and input names and output names are each distinct |
| Pir.NodesCheckPass | pirlib/pir.py:162-184 | the node loop passes iff every node's ports are valid |
| Pir.SubgraphsCheckPass | pirlib/pir.py:195-208 | the subgraph loop passes iff every subgraph's ports are valid |
| Pir.GraphOutputsCheckPass | pirlib/pir.py:226-228 | the graph output loop passes iff every output source is valid |
| Pir.EntityChecksPass | pirlib/pir.py:239-264 | the entity stage of `Graph.validate` passes iff every entity rule and every name-uniqueness rule holds |
| Pir.NodeInputErrorPath | pirlib/pir.py:162-168 | a bad source of the first failing input of the first failing node is reported as `node 'n': input 'i': source: …` |
| Pir.GraphOutputErrorPath | pirlib/pir.py:226-228 | a bad graph output source is reported under `graph output 'o': ` with no `source: ` prefix |
| Pir.FindOutput | pirlib/pir.py:295-296 | the output found is in the list under the requested name; none exists iff no output has that name |
| Pir.ValidateSource | pirlib/pir.py:283-318 | graph input, then node, then subgraph decide which lookup runs, each with its own "missing" error; a source with no field set raises; a type clash names the expected iotype and a different one; passing means the source resolves to something of the iotype |
| Pir.ValidateSourceExact | pirlib/pir.py:283-318 | on a graph whose entity rules hold, the check passes iff the source resolves to something of the iotype |
| Pir.ConnectivityPass | pirlib/pir.py:268-281 | connectivity passes iff every graph output source and every node input source passes `_validate_source` with its iotype; subgraph inputs are not checked |
| LegacyGraph.ValidateEntrypoint | pirlib/graph.py:106-111 | the legacy entrypoint check always passes: the compiled pattern is never `None` and the handler is never matched |
| LegacyGraph.ValidateNode | pirlib/graph.py:123-145 | the legacy node check equals the PIR one and passes iff the ports are valid |
| Acyclicity.Roots | pirlib/pir.py:323 | the roots are the nodes followed by the subgraphs, and every member of the graph is among them |
| Acyclicity.Target | pirlib/pir.py:335-351 | an input that resolves refers to a member of the graph |
| Acyclicity.MarkSeen | pirlib/pir.py:327-334 | with unique names, visiting an item by name marks that member and no other |
| Acyclicity.ExploreDone | pirlib/pir.py:325-351 | once the stack is empty, the visited sets are what was visited before plus what is reachable from the root; a root new to the search is on no cycle and reaches no missing entity |
| Acyclicity.FollowInputs | pirlib/pir.py:335-351 | following an item's inputs raises iff one of them names the root; otherwise the stack gains one entry per input naming a node or subgraph, in input order |
| Acyclicity.VisitStep | pirlib/pir.py:326-351 | visiting a new item keeps the search invariant and leaves fewer unvisited names, or raises an error that the root justifies |
| Acyclicity.SearchStep | pirlib/pir.py:325-351 | one round of `while stack:` keeps the invariant and makes progress, or raises a justified error |
| Acyclicity.Explore | pirlib/pir.py:324-351 | the search from one root passes iff the root was already visited or it is on no cycle and reaches no missing entity; on success the visited sets gain exactly what the root reaches; every error is one the root justifies |
| Acyclicity.CheckAcyclicity | pirlib/pir.py:320-351 | as written, with visited sets shared across roots: passes iff no root is new to the search and lies on a cycle or a dangling path; every error comes from such a root |
| Acyclicity.CheckAcyclicityMissesSelfLoop | pirlib/pir.py:320-351 | the example graph, whose second node feeds itself, passes the check as written although it is not acyclic |
| Acyclicity.SelfLoopRootPasses | pirlib/pir.py:320-351 | in the example graph the first root is on no cycle and reaches no missing entity, so its search passes |
| Acyclicity.ExploreFresh | pirlib/pir.py:324-351 | a search with nothing visited passes iff the root is on no cycle and reaches no missing entity |
| Acyclicity.SearchPassesMeans | pirlib/pir.py:320-351 | the search as written accepts every graph without cycles; its acceptance guarantees that every root on a cycle or a dangling path was reached from an earlier root, so the first root is clean |
| Acyclicity.CheckAcyclicityFixed | pirlib/pir.py:320-351 | the corrected check, with fresh visited sets per root, passes iff the graph is acyclic and reaches no missing entity |
| Acyclicity.AcyclicFromRoots | pirlib/pir.py:323 | a graph whose every root is on no cycle and reaches no missing entity is acyclic |
| Validation.GraphValidate | pirlib/pir.py:239-266 | passes iff the graph keeps the entity rules, is connected and passes the acyclicity search as written; an entity error is reported before a connectivity error, and an acyclicity error comes from a root that the search had not reached and that lies on a cycle or reaches a missing entity |
| Validation.GraphValidMeans | pirlib/pir.py:239-266 | a valid graph keeps every entity rule and resolves every graph output and node input with its iotype; of acyclicity it guarantees only that a root on a cycle or a dangling path was reached from an earlier root |
| Validation.AcyclicGraphValid | pirlib/pir.py:239-266 | a graph that keeps the entity rules, is connected and has no cycle is valid |
| Validation.GraphValidAcceptsCycle | pirlib/pir.py:239-266 | `Graph.validate` accepts the graph whose node `b` feeds itself, which is not acyclic |
| Validation.ValidateSubgraphRef | pirlib/pir.py:406-412 | passes iff the package has a graph of the embedded name; otherwise raises "reference to missing graph" |
| Validation.GraphFailure | pirlib/pir.py:397-401 | a graph that `Graph.validate` rejects makes the package invalid, with its error prefixed `graph 'g': ` |
| Validation.SubgraphRefFailure | pirlib/pir.py:402-412 | a subgraph that embeds a missing graph makes the package invalid with that error |
| Validation.ValidateSubgraphRefs | pirlib/pir.py:402-403 | the loop over a graph's subgraphs passes iff every embedded graph exists |
| Validation.ValidateGraphIn | pirlib/pir.py:397-403 | one graph of the package passes iff `Graph.validate` accepts it and its subgraph references resolve |
| Validation.PackageValidate | pirlib/pir.py:395-404 | passes iff graph names are distinct and `Graph.validate` accepts every graph and its subgraph references resolve; duplicate graph names are reported first |
| Validation.PackageValidAllowsSelfNesting | pirlib/pir.py:404 | a package whose graph embeds itself is accepted |
| Validation.GraphInputWithOutputAccepted | pirlib/pir.py:35-52 | a graph input source that also sets `output` is accepted |
| Flatten.Nested | pirlib/pir.py:361-362 | a graph embedded in a well-nested graph is well nested and reaches strictly fewer graphs: the recursion ends |
| Flatten.TheGraph | pirlib/pir.py:360 | the graph looked up by a well-nested name is in the package under that name |
| Flatten.AllNested | pirlib/pir.py:361-362 | every subgraph of a well-nested graph embeds a well-nested graph that reaches fewer graphs |
| Flatten.LeafWellNested | pirlib/pir.py:360-362 | a graph without subgraphs is well nested |
| Flatten.QualifyInjective | pirlib/pir.py:365 | prefixing names with `S.` keeps distinct names distinct |
| Flatten.RenameInputs | pirlib/pir.py:366-368 | the renaming loop over a node's inputs prefixes exactly the node-sourced references |
| Flatten.RenameNodes | pirlib/pir.py:364-368 | every inlined node gets the prefix `S.`, and so do its node-sourced inputs |
| Flatten.RenameOutputs | pirlib/pir.py:369-371 | the embedded graph's node-sourced outputs get the prefix |
| Flatten.RenameKeepsLookup | pirlib/pir.py:364-371 | after renaming, `S.m` is found exactly where `m` was found before |
| Flatten.SourceNamed | pirlib/pir.py:376-377 | an item named by the key exists iff the lookup finds a source |
| Flatten.SourceNamedFirst | pirlib/pir.py:376-378 | the lookup yields the source of the first item with the key's name |
| Flatten.ChainNoMatch | pirlib/pir.py:376-378 | the loop as written leaves a source alone when no item matches its key |
| Flatten.RewireChainAgrees | pirlib/pir.py:376-389 | when no item's source has a key naming a later item, the loop as written agrees with first-match rewiring |
| Flatten.RewireSource | pirlib/pir.py:376-378 | the inner loop, which has no `break`, computes the chained rewiring: each item named by the current source's key replaces it |
| Flatten.RedirectChainFiresTwice | pirlib/pir.py:376-378 | with distinct output names, the loop as written redirects a parent input twice and ends at a different output than first-match rewiring |
| Flatten.SubstituteChainFiresTwice | pirlib/pir.py:387-389 | with distinct input names, the loop as written substitutes an inlined input twice and ends at a different source than first-match rewiring |
| Flatten.RedirectInputs | pirlib/pir.py:374-378 | a parent node's inputs that read from the subgraph are rewired by the chained loop through its outputs; others are kept |
| Flatten.RedirectNodes | pirlib/pir.py:373-378 | every parent node has its inputs rewired by the chained loop |
| Flatten.RedirectOutputs | pirlib/pir.py:379-383 | graph outputs that read from the subgraph are rewired by the chained loop through its outputs |
| Flatten.SubstituteInputs | pirlib/pir.py:385-389 | inlined inputs that read a graph input are rewired by the chained loop over the subgraph inputs |
| Flatten.SubstituteNodes | pirlib/pir.py:384-389 | every inlined node has its inputs rewired by the chained loop |
| Flatten.SpliceRound | pirlib/pir.py:363-390 | one round of the subgraph loop, as written: renames, rewires with the chained loops, and appends the inlined nodes |
| Flatten.SpliceNames | pirlib/pir.py:364-390 | a round, with either rewiring, keeps the parent's node names in place and appends the prefixed names of the inlined nodes |
| Flatten.SpliceRedirects | pirlib/pir.py:373-378 | in the round as written, when no output of the embedded graph reads an output named like a later one, a parent input that read output `o` of `S` carries the renamed source of the first output `o` |
| Flatten.SpliceFirstMatchRedirects | pirlib/pir.py:373-378 | with first-match rewiring, a parent input that read output `o` of `S` carries the renamed source of the embedded graph's first output `o`, with no side condition |
| Flatten.SpliceSubstitutes | pirlib/pir.py:384-389 | in the round as written, when no source fed into `S` is a graph input named like a later input of `S`, an inlined input that read graph input `x` carries the source `S` feeds into its first input `x` |
| Flatten.SpliceFirstMatchSubstitutes | pirlib/pir.py:384-389 | with first-match rewiring, an inlined input that read graph input `x` carries the source `S` feeds into its first input `x`, with no side condition |
| Flatten.Flattened | pirlib/pir.py:361-362 | one flattened graph is computed per subgraph, in order |
| Flatten.FlattenRound | pirlib/pir.py:361-390 | round `i` succeeds iff flattening the embedded graph succeeds, and then yields the parts after `i + 1` rounds as written; otherwise it raises that flattening's error |
| Flatten.FlattenGraph | pirlib/pir.py:358-393 | succeeds iff every nested flattening and the final `Graph.validate` pass; the result is the graph inlined with the loops as written, with no subgraphs, and is valid; otherwise the first error is raised |
| Flatten.FoldNames | pirlib/pir.py:361-390 | after all rounds, the node names are the original ones followed by each subgraph's prefixed flattened names |
| Flatten.InlineNodeNames | pirlib/pir.py:361-391 | the flattened graph's node names are its own followed, per subgraph `S` in order, by `S.` plus the names of `S`'s flattened graph |
| Flatten.FlattenLeaf | pirlib/pir.py:358-393 | a graph without subgraphs flattens to itself and is accepted iff `Graph.validate` accepts it |
| Inproc.FirstMissing | pirlib/backends/inproc.py:42-44 | the first declared graph input absent from `inputs`, or none iff all are supplied |
| Inproc.CheckInputs | pirlib/backends/inproc.py:42-44 | the missing-input loop finds the first missing input |
| Inproc.FirstMissingAt | pirlib/backends/inproc.py:42-44 | an absent input preceded only by supplied ones is the one reported |
| Inproc.BindOne | pirlib/backends/inproc.py:55-65 | one input raises on an unknown graph input, binds iff its source is available, and binds its value under its name, keeping other entries |
| Inproc.BindInputs | pirlib/backends/inproc.py:55-67 | the input loop raises only a key error |
| Inproc.BindInputsBound | pirlib/backends/inproc.py:55-67 | a node's inputs bind iff every source they read is available; a crash comes from an unsupplied graph input |
| Inproc.BindInputsValues | pirlib/backends/inproc.py:56-65 | with distinct input names, each input is bound to `inputs[graph_input]` or `node_outputs[node][output]` |
| Inproc.BindInputsKeeps | pirlib/backends/inproc.py:55-65 | an entry no input names survives the loop |
| Inproc.BindNode | pirlib/backends/inproc.py:54-65 | the method building `node_inputs` gives the loop's outcome |
| Inproc.Remaining | pirlib/backends/inproc.py:48-49 | the remaining nodes are exactly the graph's nodes that have not run |
| Inproc.PickReady | pirlib/backends/inproc.py:53-69 | a picked node is remaining and its inputs bind; a crash comes from some remaining node |
| Inproc.PickReadyFirst | pirlib/backends/inproc.py:53-69 | nothing is picked iff every remaining node is blocked; a picked node comes after blocked nodes only |
| Inproc.PickNode | pirlib/backends/inproc.py:53-69 | the `for … else` search gives the pick |
| Inproc.Prepopulated | pirlib/backends/inproc.py:94-101 | filling the outputs map never moves the temporary counter backwards |
| Inproc.PrepopulatedKeys | pirlib/backends/inproc.py:94-101 | every declared output gets a key before the handler runs, and nothing else is added |
| Inproc.PrepopulatedPlaceholders | pirlib/backends/inproc.py:95-101 | a directory output starts as a fresh directory path, a file output as a fresh file path, any other as `None` |
| Inproc.PrepopulatedKeeps | pirlib/backends/inproc.py:94-101 | an entry no output names is kept |
| Inproc.RunNode | pirlib/backends/inproc.py:91-103 | `_execute_node` equals its specification: split the handler reference, pre-populate, then run the handler |
| Inproc.ExecuteNodeKeeps | pirlib/backends/inproc.py:94-103 | with a handler that keeps its keys, a node that runs leaves a value for each declared output |
| Inproc.PendingDecreases | pirlib/backends/inproc.py:47-71 | recording a new node leaves fewer nodes to run |
| Inproc.StepOf | pirlib/backends/inproc.py:47-71 | a round finishes iff nothing remains; it stops only with "could not finish", a key error or a bad handler reference; otherwise it runs one new node and fewer remain |
| Inproc.RemainingEmpty | pirlib/backends/inproc.py:48-51 | nothing remains iff every node has run |
| Inproc.StepRan | pirlib/backends/inproc.py:53-71 | a round that runs a node picks the first remaining node whose inputs bind and records its outputs under its name |
| Inproc.Schedule | pirlib/backends/inproc.py:46-71 | the loop fails only with "could not finish", a key error or a bad handler reference |
| Inproc.TraceExtend | pirlib/backends/inproc.py:55-71 | running a new node whose producers have all run keeps the run order well formed |
| Inproc.StepTrace | pirlib/backends/inproc.py:53-71 | one round keeps the run order well formed: a node never runs before its producers |
| Inproc.ScheduleTrace | pirlib/backends/inproc.py:46-71 | a finished schedule has run every node exactly once, after its producers |
| Inproc.ScheduleKeepsTrace | pirlib/backends/inproc.py:46-71 | a finished schedule keeps the run order well formed |
| Inproc.ScheduleExtends | pirlib/backends/inproc.py:46-71 | the run order only grows |
| Inproc.ScheduleRunsAll | pirlib/backends/inproc.py:46-71 | a finished schedule has run every node of the graph |
| Inproc.CollectOne | pirlib/backends/inproc.py:73-78 | one graph output is collected iff its source is available, a graph input winning over a node output; other entries are kept |
| Inproc.CollectOutputs | pirlib/backends/inproc.py:72-78 | the output loop fails only with a key error |
| Inproc.CollectOutputsOk | pirlib/backends/inproc.py:72-78 | the outputs are collected iff every source they read is available |
| Inproc.CollectOutputsValues | pirlib/backends/inproc.py:72-78 | with distinct output names, each graph output maps to its source's value |
| Inproc.CollectOutputsKeeps | pirlib/backends/inproc.py:72-78 | an entry no output names is kept |
| Inproc.CollectGraphOutputs | pirlib/backends/inproc.py:72-78 | the method gives the loop's outcome |
| Inproc.ExecuteSpec | pirlib/backends/inproc.py:42-78 | failures are a missing input, "could not finish", a key error or a bad handler reference; a missing-input failure means some declared input is absent |
| Inproc.ExecuteGraph | pirlib/backends/inproc.py:42-78 | the input check, the scheduling loop and the output loop together compute the specification |
| Inproc.MissingInputFirst | pirlib/backends/inproc.py:42-44 | a missing input is reported before any node runs, whatever the handler does |
| Inproc.ExecuteRuns | pirlib/backends/inproc.py:42-78 | with distinct output names, a successful run has run every node after its producers and maps exactly the graph outputs, each to its source's value |
| Inproc.StepKeeps | pirlib/backends/inproc.py:94-102 | with a handler that keeps its keys, every node that has run still has each declared output |
| Inproc.KeptOutput | pirlib/backends/inproc.py:58-63 | a node that has run has each output it declares |
| Inproc.GraphInputSupplied | pirlib/backends/inproc.py:56-57 | a resolving graph-input source names a supplied input |
| Inproc.NodeSourceResolves | pirlib/backends/inproc.py:58-65 | a resolving node source names a node of the graph that declares the output |
| Inproc.BlockedWaitsOnPending | pirlib/backends/inproc.py:53-69 | in a valid graph with every input supplied, a node whose inputs do not bind reads from a node that has not run |
| Inproc.NoCrash | pirlib/backends/inproc.py:56-57 | in a valid graph with every input supplied, no node raises a key error |
| Inproc.HasUnfed | pirlib/backends/inproc.py:68-69 | in an acyclic graph, a nonempty set of items holds one fed by none of the set |
| Inproc.UnfedRemaining | pirlib/backends/inproc.py:48-69 | among the nodes left, some node reads from none of the others left |
| Inproc.PickProgress | pirlib/backends/inproc.py:53-69 | in a valid graph without cycles and with every input supplied, a round with nodes left always picks one |
| Inproc.StepProgress | pirlib/backends/inproc.py:53-71 | in a valid graph without cycles and with every input supplied, one round stops only on a node whose handler reference does not split in two |
| Inproc.PickBound | pirlib/backends/inproc.py:53-67 | a node that binds, among nodes none of which crashes, means some node is picked |
| Inproc.RemainingNoCrash | pirlib/backends/inproc.py:56-57 | no remaining node of a valid graph crashes when every input is supplied |
| Inproc.ScheduleProgress | pirlib/backends/inproc.py:46-71 | with a handler that keeps its keys, the schedule of a valid graph without cycles never raises "could not finish" or a key error; it succeeds when every handler reference splits in two |
| Inproc.OutputsAvailable | pirlib/backends/inproc.py:72-78 | once every node of a valid graph has run, every graph output can be read |
| Inproc.ScheduleCollects | pirlib/backends/inproc.py:46-78 | a finished schedule of a valid graph without cycles leaves every graph output collectable |
| Inproc.ValidGraphRuns | pirlib/backends/inproc.py:42-78 | a valid graph without cycles, with every input supplied and a handler that keeps its keys, runs to the end unless a handler reference does not split |
| Inproc.Execute | pirlib/backends/inproc.py:16-78 | `execute` flattens as written, failing iff flattening fails with its error, and otherwise runs the specification on the flattened graph; a flattened graph without cycles and with every input supplied runs to the end unless a handler reference does not split |
| Inproc.SelfLoopCouldNotFinish | pirlib/backends/inproc.py:68-69 | the graph whose node `b` feeds itself flattens to itself and its run stops with "could not finish", so `Execute` needs its acyclicity hypothesis |
| Utils.FindById | pirlib/utils.py:1-4 | the first item with the id is returned; none is returned iff no item has it |
| Utils.Matching | pirlib/utils.py:6-11 | the positions of the keys starting with the prefix, increasing, and exactly those |
| Utils.MatchingEmptyPrefix | pirlib/utils.py:6-11 | the empty prefix matches every key |
| Utils.FindByIdPrefix | pirlib/utils.py:6-11 | the values of exactly the matching keys, in key order |
| Utils.FindByIdPrefixAll | pirlib/utils.py:6-11 | with the empty prefix the result is every value, in order |
| IoTypes.Registered | pirlib/iotypes/__init__.py:12-17 | registration fails iff the type has a different tag, naming that tag; otherwise the type gets the tag and other entries are unchanged |
| IoTypes.IoTypeOf | pirlib/iotypes/__init__.py:20-23 | lookup succeeds iff the type is registered, and returns its tag |
| IoTypes.RegisterSameTag | pirlib/iotypes/__init__.py:12-17 | re-registering a type with its own tag changes nothing |
| IoTypes.RegisterThenLookup | pirlib/iotypes/__init__.py:12-23 | after a registration, the type looks up to its tag and other types look up as before |
| IoTypes.InitialLookups | pirlib/iotypes/__init__.py:5-41 | after import, int, float, str, DirectoryPath and FilePath map to INT, FLOAT, STRING, DIRECTORY and FILE; DataFrame is registered iff pandas is available; nothing else is registered |
| IoTypes.Registry.Register | pirlib/iotypes/__init__.py:12-17 | a re-tag raises and leaves the map unchanged; otherwise it records the tag |
| IoTypes.Registry.PytypeToIotype | pirlib/iotypes/__init__.py:20-23 | the lookup in the current map |
| Strings.FirstIndex | pirlib/iotypes/iospec.py:14 | the first position of the character, or none iff it is absent |
| Strings.LastIndex | pirlib/iotypes/iospec.py:20 | the last position of the character, or none iff it is absent |
| IoSpec.Parse | pirlib/iotypes/iospec.py:13-22 | no `=` means "could not parse"; a parsed spec renders back to the input, its name part holds no `=`, and its url parses |
| IoSpec.ParseRender | pirlib/iotypes/iospec.py:13-22 | parsing the text of a well-formed spec gives it back |
| IoSpec.ParseWithoutFormat | pirlib/iotypes/iospec.py:19-22 | without a colon, the format is `None` and the name is the whole name part |
| IoSpec.ParseEmptyFormat | pirlib/iotypes/iospec.py:19-22 | a trailing colon gives the empty format, not `None` |
| CliUtils.PipelineRef | pirlib/cli/utils.py:10-15 | a reference is accepted iff it has exactly one `:`, and splits at it |
| CliUtils.MergeGraph | pirlib/cli/utils.py:40-46 | an incoming graph is dropped if an equal graph of its name exists, conflicts if a different one does, and is appended otherwise; distinct names stay distinct |
| CliUtils.SameNameSame | pirlib/cli/utils.py:40-46 | with distinct names, two gathered graphs with one name are the same graph |
| CliUtils.MergeAll | pirlib/cli/utils.py:39-46 | merging only appends, keeps every graph offered, adds nothing else and keeps names distinct |
| CliUtils.MergeAllConflict | pirlib/cli/utils.py:39-46 | merging fails iff two offered graphs share a name but differ |
| CliUtils.MergeAllAppend | pirlib/cli/utils.py:35-46 | merging `a + b` is merging `a`, then `b` into the result |
| CliUtils.MergeInto | pirlib/cli/utils.py:40-46 | the `for … else` search gives the one-graph merge |
| CliUtils.FailureSpreads | pirlib/cli/utils.py:36-46 | a conflict among the first pipelines ends the whole merge with that error |
| CliUtils.MergeGraphs | pirlib/cli/utils.py:39-46 | the loop over one package's graphs gives the merge |
| CliUtils.AddPipeline | pirlib/cli/utils.py:36-46 | a pipeline adds its package's graphs, or with `flatten` its one flattened graph; a failed flatten raises its error |
| CliUtils.PackagePipelines | pirlib/cli/utils.py:29-47 | when every pipeline flattens, the package holds the merge of all pipelines' graphs in order; success means every pipeline flattened; a flatten failure names a pipeline whose flattening fails, with its error |
| Dockerize.NonEmpty | pirlib/cli/dockerize.py:155-157 | empty entries are dropped, the rest kept |
| Dockerize.Pythonpath | pirlib/cli/dockerize.py:151-170 | succeeds iff every nonempty entry is inside the context; then each entry is rebased onto the work directory, in order; otherwise the error names the first entry outside |
| Dockerize.InferPythonpath | pirlib/cli/dockerize.py:151-170 | the loop gives the rebased entries joined with `:`, or the error of the first entry outside |
| Dockerize.PythonpathContextItself | pirlib/cli/dockerize.py:158-164 | an entry that is the context itself maps to the work directory |
| Dockerize.RebaseBelow | pirlib/cli/dockerize.py:158-164 | an entry below the context maps to the work directory joined with the remaining parts |
| Dockerize.PinPrefix | pirlib/cli/dockerize.py:190 | the prefix runs up to and including the first `=`, or is the whole text |
| Dockerize.Pinned | pirlib/cli/dockerize.py:187-196 | a specification becomes the first full entry starting with its prefix, or stays as it is; other entries are untouched |
| Dockerize.PipTables | pirlib/cli/dockerize.py:197-199 | exactly the `pip` tables of the full export |
| Dockerize.FirstPinned | pirlib/cli/dockerize.py:191-196 | the scan with `break` finds the first matching specification, or none iff none matches |
| Dockerize.PinnedFrom | pirlib/cli/dockerize.py:191-196 | the scan from position `k` onward yields the first matching specification after `k`, or keeps the dependency; the result always starts with the prefix |
| Dockerize.PinEntry | pirlib/cli/dockerize.py:187-196 | one round of the pinning loop pins one entry |
| Dockerize.PinHistory | pirlib/cli/dockerize.py:187-196 | every history entry is replaced in place by its pin |
| Dockerize.InferCondaDependencies | pirlib/cli/dockerize.py:186-200 | the dependencies are the pinned history followed by the `pip` tables |
| Dockerize.PinMatchesLongerName | pirlib/cli/dockerize.py:190-196 | an unversioned name pins to a longer package name that it prefixes |
| Dockerize.PinKeepsName | pirlib/cli/dockerize.py:190-196 | a versioned specification pins to one with the same name and `=` |
| Dockerize.WithImage | pirlib/cli/dockerize.py:100-101 | an entrypoint with an image keeps it; one without gets the built image |
| Dockerize.Filled | pirlib/cli/dockerize.py:97-101 | every graph is filled in place, and no graph is added or removed |
| Dockerize.FilledImages | pirlib/cli/dockerize.py:97-101 | after the fill-in every node has an image, and nodes that had one keep it |
| Dockerize.FillIdempotent | pirlib/cli/dockerize.py:97-101 | a second fill-in, with any image, changes nothing |
| Dockerize.FillImages | pirlib/cli/dockerize.py:97-101 | the nested loops give the fill-in |
| Task.FrameworkKeyInjective | pirlib/task.py:219 | distinct settings of one framework get distinct keys |
| Task.FrameworkKeyHasSlash | pirlib/task.py:219 | a framework key holds `/`, so it is neither `cache` nor `cache_key_file` |
| Task.FrameworkKeysInjective | pirlib/task.py:219 | one framework never maps two settings to the same key |
| Task.FrameworkKeysNotCache | pirlib/task.py:214-225 | no framework key clashes with the cache entries |
| Task.FrameworkEntries | pirlib/task.py:217-219 | each framework setting `k: v` appears as `"<framework>/k": v`, and nothing else |
| Task.TaskConfig | pirlib/task.py:211-227 | cache on without a key file raises; otherwise framework settings are added under their keys, user entries are kept, and with the cache on `cache` is true and `cache_key_file` is the file |
| Task.Dict.Set | pirlib/task.py:219 | writing one entry updates only that key |
| Task.NewTaskDefinition | pirlib/task.py:82-85 | the definition keeps the config, framework and function; its name is the name given or the function's |
| Task.WriteFramework | pirlib/task.py:217-219 | the loop adds every framework setting under its key to the caller's dictionary |
| Task.MakeTask | pirlib/task.py:201-236 | `task` fails iff the assembled config does; it builds its definition from that config; a non-empty caller dictionary ends up holding the config, or only the framework entries when the key file is missing; an empty one is left empty |
| Task.TaskConfigGate | pirlib/task.py:185-188 | a config made with the cache on goes through the cache wrapper; one made with it off does so iff the user config does |
| Task.KeyFile | pirlib/task.py:134-140 | the key file is the keyword argument the config names, and a missing one raises |
| Task.TaskEnv.Call | pirlib/task.py:151 | the task function runs once and fills the output |
| Task.TaskEnv.CacheWrapper | pirlib/task.py:127-161 | a missing key file raises without a call; a hit restores the output and returns it without calling; a miss calls once, stores the output and returns the function's value |
| Task.TaskEnv.Fetch | pirlib/task.py:146 | succeeds iff the key is stored, restoring the stored output |
| Task.TaskEnv.Store | pirlib/task.py:154 | stores the output under a new key and leaves a stored key alone |
| Task.TaskEnv.RunTask | pirlib/task.py:184-189 | with the gate closed, the task runs directly once and the store is unchanged; with it open, the result, output and store are those of the cache wrapper: the key-file error with nothing changed, a hit restoring the stored output without a call, or a miss calling once and storing the output |
| Task.TaskEnv.RunTwice | pirlib/task.py:146-159 | a second run with the same key file is a hit: the function is called at most once across the two runs |
| ArgoBatch.StripLeftSuffix | pirlib/backends/argo_batch.py:24 | `lstrip` keeps a suffix |
| ArgoBatch.StripLeft | pirlib/backends/argo_batch.py:24 | `lstrip` never lengthens the text |
| ArgoBatch.StripRight | pirlib/backends/argo_batch.py:24 | `rstrip` never lengthens the text |
| ArgoBatch.StripRightPrefix | pirlib/backends/argo_batch.py:24 | `rstrip` keeps a prefix |
| ArgoBatch.StripLeftSpaces | pirlib/backends/argo_batch.py:24 | `lstrip` removes only whitespace, and all of the leading whitespace |
| ArgoBatch.StripRightSpaces | pirlib/backends/argo_batch.py:24 | `rstrip` removes only whitespace, and all of the trailing whitespace |
| ArgoBatch.StripSlice | pirlib/backends/argo_batch.py:24 | `strip()` keeps a middle slice, removing only whitespace on either side |
| ArgoBatch.StripEnds | pirlib/backends/argo_batch.py:24 | what `strip()` keeps neither starts nor ends with whitespace |
| ArgoBatch.StripNoSpace | pirlib/backends/argo_batch.py:24 | a string without whitespace strips to itself |
| ArgoBatch.ArgoName | pirlib/backends/argo_batch.py:24 | every character of an Argo name is in `[a-zA-Z0-9-]` |
| ArgoBatch.ArgoNameKeeps | pirlib/backends/argo_batch.py:24 | the name has the stripped input's length, alphanumeric characters in place and `-` for the others |
| ArgoBatch.ArgoNameOfArgoName | pirlib/backends/argo_batch.py:24 | a name made of `[a-zA-Z0-9-]` is its own Argo name |
| ArgoBatch.ArgoNameIdempotent | pirlib/backends/argo_batch.py:251-252 | sanitising twice is sanitising once, so the re-sanitising loop changes nothing |
| ArgoBatch.ArgoNameAppend | pirlib/backends/argo_batch.py:265 | a sanitised name with a sanitised suffix is a sanitised name |
| ArgoBatch.ReplaceNothing | pirlib/backends/argo_batch.py:187-188 | `replace` changes nothing when the pattern is absent |
| ArgoBatch.ReplaceKeepsAbsent | pirlib/backends/argo_batch.py:187-188 | `replace` removes every occurrence of its pattern and creates none of a word it cannot complete |
| ArgoBatch.ArgoRefactor | pirlib/backends/argo_batch.py:178-190 | the refactored text holds neither `true` nor `false` |
| ArgoBatch.ArgoRefactorNothing | pirlib/backends/argo_batch.py:187-188 | text with neither word is left as it is |
| ArgoBatch.NodeVolumes | pirlib/backends/argo_batch.py:81-107 | a node container has the volume of a graph input iff one of its inputs reads that graph input, and never the graph outputs volume |
| ArgoBatch.GraphVolumes | pirlib/backends/argo_batch.py:143-163 | the graph container mounts every graph input, and the graph outputs iff the graph has outputs |
| ArgoBatch.StripChars | pirlib/backends/argo_batch.py:219 | stripping characters never lengthens the text |
| ArgoBatch.OutputName | pirlib/backends/argo_batch.py:219 | the corrected name is a prefix of the file name |
| ArgoBatch.OutputNameStem | pirlib/backends/argo_batch.py:219 | the corrected name of `stem.yml` is `stem` |
| ArgoBatch.OutputNameNoSuffix | pirlib/backends/argo_batch.py:219 | a file name without `.yml` is kept whole |
| ArgoBatch.OutputNameAsWrittenStripsLetters | pirlib/backends/argo_batch.py:219 | as written, `my-flow.yml` gives `-flow` |
| ArgoBatch.OutputVolumesDiffer | pirlib/backends/argo_batch.py:81-83 | the node outputs and graph outputs volumes differ |
| ArgoBatch.VolumesAt | pirlib/backends/argo_batch.py:143-163 | a container's volumes and mounts line up: node outputs, each graph input in order, then graph outputs if any |
| ArgoBatch.VolumesGraphOutputs | pirlib/backends/argo_batch.py:159-163 | the graph outputs volume is declared iff the container writes graph outputs |
| ArgoBatch.InputVolumeInjective | pirlib/backends/argo_batch.py:91-95 | graph inputs are told apart by the variable holding their path |
| ArgoBatch.VolumesInputs | pirlib/backends/argo_batch.py:88-107 | a container has a read-only volume for a graph input iff it lists that input |
| ArgoBatch.GraphInputsOf | pirlib/backends/argo_batch.py:87-91 | at most one graph input per node input |
| ArgoBatch.GraphInputsMembers | pirlib/backends/argo_batch.py:87-91 | a node mounts exactly the graph inputs its inputs name |
| ArgoBatch.Dependencies | pirlib/backends/argo_batch.py:109-111 | at most one dependency per input |
| ArgoBatch.DependenciesMembers | pirlib/backends/argo_batch.py:109-111 | a node depends exactly on the sanitised names of the nodes its inputs read from |
| ArgoBatch.DependenciesSanitised | pirlib/backends/argo_batch.py:109-111 | every dependency is a sanitised name |
| ArgoBatch.CreateTemplateFromNode | pirlib/backends/argo_batch.py:55-125 | the input loop builds the node's template and its dependencies, in input order |
| ArgoBatch.GraphTemplate | pirlib/backends/argo_batch.py:128-175 | fails iff the graph has no nodes; otherwise it is named after the graph, uses the first node's image, mounts the graph inputs, and the graph outputs iff there are any |
| ArgoBatch.TasksShape | pirlib/backends/argo_batch.py:257-265 | one task per template, named after it, running its suffixed template, with that template's dependencies |
| ArgoBatch.WorkflowShape | pirlib/backends/argo_batch.py:229-269 | a workflow needs a first graph with nodes; its entrypoint is `argo_name("DAG-" + graph)`; it is a DAG over the node templates and the graph template, and the graph depends on every node template |
| ArgoBatch.WorkflowNameAsWritten | pirlib/backends/argo_batch.py:219 | the workflow for `my-flow.yml` is generated under `-flow-` |
| ArgoBatch.NodeTaskNames | pirlib/backends/argo_batch.py:236-246 | each node template is named after its node, carries its dependencies, and its name is among those the graph depends on |
| ArgoBatch.DagShape | pirlib/backends/argo_batch.py:255-269 | the templates are the suffixed node and graph templates followed by the DAG of their tasks |
| ArgoBatch.WorkflowDepsSanitised | pirlib/backends/argo_batch.py:246-262 | every dependency the tasks get is already sanitised |
| ArgoBatch.NodeDepsSanitised | pirlib/backends/argo_batch.py:109-111 | a node's dependencies are sanitised names |
| ArgoBatch.NodeNamesSanitised | pirlib/backends/argo_batch.py:115 | node template names are sanitised names |
| ArgoBatch.NodeTemplates | pirlib/backends/argo_batch.py:236-240 | the node loop builds each node's template and dependencies, in graph order |
| ArgoBatch.Rename | pirlib/backends/argo_batch.py:251-252 | each template name is re-sanitised |
| ArgoBatch.SanitiseAll | pirlib/backends/argo_batch.py:262 | every dependency is sanitised, in order |
| ArgoBatch.DagTasks | pirlib/backends/argo_batch.py:257-265 | one task per template with its dependencies, and every template gets `-template` appended |
| ArgoBatch.RenameKeeps | pirlib/backends/argo_batch.py:251-252 | re-sanitising sanitised template names changes none |
| ArgoBatch.Generate | pirlib/backends/argo_batch.py:203-269 | without an output file name it fails; otherwise it builds the workflow of the first graph under the output name stripped of `.`, `y`, `m`, `l` at both ends, as written |
| ArgoBatch.GenerateMatches | pirlib/backends/argo_batch.py:236-269 | the values the loops of `generate` build are the parts of the workflow |
| ArgoBatch.SanitisedNames | pirlib/backends/argo_batch.py:251-252 | re-sanitising the node and graph templates of a graph changes none of them |
| DockerBatch.ComposeOf | pirlib/backends/docker_batch.py:39-79 | the compose file needs exactly one graph, and a graph with at least one node |
| DockerBatch.NodeDependsOnAbsent | pirlib/backends/docker_batch.py:53-58 | a node gets no `depends_on` iff none of its inputs reads from a node |
| DockerBatch.NodeDependsOnKeys | pirlib/backends/docker_batch.py:53-58 | a node depends exactly on the services of its producers, each with `service_completed_successfully` |
| DockerBatch.InputMountsMembers | pirlib/backends/docker_batch.py:59-63 | a node mounts exactly the graph inputs its inputs read |
| DockerBatch.NodeServicesKeys | pirlib/backends/docker_batch.py:46-47 | there is one service per node, keyed `graph.node` |
| DockerBatch.NodeServicesAt | pirlib/backends/docker_batch.py:46-63 | each node's key holds that node's service |
| DockerBatch.NodeKeyInjective | pirlib/backends/docker_batch.py:47 | distinct node names give distinct keys |
| DockerBatch.ComposeServices | pirlib/backends/docker_batch.py:39-64 | version 3.9 with the node outputs volume; services are keyed by the nodes plus the graph, whose key is no node's, and hold the graph service |
| DockerBatch.GraphServiceShape | pirlib/backends/docker_batch.py:64-79 | the graph service uses the last node's image, depends on every node service, mounts each graph input, and the graph outputs iff there are any |
| DockerBatch.GraphServiceInput | pirlib/backends/docker_batch.py:70-72 | the graph service mounts a graph input iff the graph declares it |
| DockerBatch.GraphServiceOutput | pirlib/backends/docker_batch.py:73-74 | the graph service mounts the output directory iff the graph has outputs |
| DockerBatch.InputMountInjective | pirlib/backends/docker_batch.py:59-63 | input mounts of different inputs differ |
| DockerBatch.OutputMountNotInput | pirlib/backends/docker_batch.py:73-74 | the output mount is no input mount |
| DockerBatch.NodeOutputsMountNotInput | pirlib/backends/docker_batch.py:51 | the node outputs mount is no input mount |
| DockerBatch.AddInput | pirlib/backends/docker_batch.py:53-63 | one input adds its producer to `depends_on` (creating it if needed) and its graph input mount |
| DockerBatch.BuildNodeService | pirlib/backends/docker_batch.py:47-63 | the input loop builds the node's service |
| DockerBatch.BuildGraphService | pirlib/backends/docker_batch.py:64-79 | the loops build the graph service |
| DockerBatch.Generate | pirlib/backends/docker_batch.py:33-83 | `generate` builds the compose file, or fails when there is not exactly one graph or no node |

## Left out

- I/O and process calls are not modelled: file writes, YAML dumping, printing, `subprocess` calls to docker and conda, `sys.exit`, logging, reading `os.environ`. The environment lookups of `create_nfs_volume_spec`, and the `RuntimeError` raised without `NFS_SERVER`, are not modelled either. An NFS volume is modelled by its Argo name, the variable that holds its path, and its read-only flag.
- Pickle and base64 encoding are not modelled (`encode`, `decode`, the CONDA_ENV_B64 argument). The Argo backend's command payloads are opaque strings given as parameters; the Docker backend's are the values they encode.
- `run_node`, `run_graph`, the `__main__` dispatch of the backends and `execute` of the Argo and Docker backends are not modelled. They are process entry points with file and pickle I/O.
- `_validate_fields` is not modelled: Dafny's types make its runtime type checks hold by construction.
- Error messages are structured error values, not text. The duplicate-name message lists the names of a Python set, whose order is not defined; the model keeps the set.
- Inproc: the handler is a parameter. It maps the pre-populated outputs map to the map it leaves behind. `importlib` lookup is reduced to whether the handler reference splits at one `:`. Temporaries from `tempfile` are numbered, and the counter is a parameter.
- Inproc: the `args.input` and `args.output` handling of `execute` is not modelled. It covers command-line specs, pandas CSV I/O, and line 40, which assigns to `inputs.iotype` instead of `inputs[name]`.
- Flatten.FlattenGraph: requires the graph to exist and the embedding relation to be well founded. The source checks neither: a missing graph crashes in `copy.deepcopy(None).subgraphs`, and a self-embedding graph recurses without end.
- Flatten: sources are values. In the source, `inp.source = o.source` makes two references share one `DataSource` object. An enclosing flattening that renames that object through one reference renames it for both, so a shared source can be prefixed more than once. The model renames each reference once.
- Flatten: the `validate` flag of `flatten_graph` is ignored, as in the source; the merged graph is always validated.
- Acyclicity.CheckAcyclicity: requires unique node names and unique subgraph names. `Graph.validate` only reaches the search after the name checks pass.
- The Argo and Docker backends and the image fill-in of `dockerize` read an `id`/`entrypoints["main"]`/`node_output` schema that `pir.py` does not define. They are modelled over `pir.py`'s `name`, `entrypoint` and `source.node` fields.
- DockerBatch.Generate: the service dictionary is built first and then stored under its key. The source stores it first and then mutates it through the alias; the result is the same.
- `urllib.parse.urlparse` is a parameter of `IoSpec.Parse`: a predicate saying whether the url text parses.
- `_generate_dockerfile` is not modelled: it is a fixed text template around the inferred PYTHONPATH. `_dockerize_handler`'s image name from `uuid4` is a parameter, and the `DOCKER_USER`/`PIRLIB_REPO` retagging is not modelled.
- `pipeline_def`: only the `:` count check and the split are modelled; module import and attribute lookup are foreign calls.
- Task: `TaskInstance`, `TaskDefinition.__call__`, `get_input_type` and `run_handler`'s argument building use `inspect` and type-hint recursion, and are not modelled. The context variable is not modelled either. The cache store is an add-if-absent map from keys to output contents, and `generate_cache_key` is a parameter.
- The dictionary order of the config that `task` builds is not modelled; configs are maps.

## Findings

| source | as written | input that shows it | evidently intended | confidence | as-written member | corrected member |
|---|---|---|---|---|---|---|
| pirlib/pir.py:320-351 | the visited sets are shared by the searches of all roots, so a vertex on a cycle that an earlier root already visited is never searched from itself | nodes `[a, b]` where `a` reads from `b` and `b` reads from itself: the search from `a` visits `b`, and the search from `b` is skipped | every vertex on a cycle is reported | not executed | Acyclicity.CheckAcyclicityMissesSelfLoop | Acyclicity.CheckAcyclicityFixed |
| pirlib/pir.py:376-378 | after `inp.source = o.source` the loop over the subgraph outputs goes on, comparing against the new source's output name | outputs `result` (from `S.train`'s `model`) then `model` (from `S.eval`'s `score`): an input reading `S`'s `result` ends at `S.eval`'s `score` | the input carries the source of the output it named | not executed | Flatten.RedirectChainFiresTwice | Flatten.SpliceFirstMatchRedirects |
| pirlib/pir.py:387-389 | after `i.source = si.source` the loop over the subgraph inputs goes on, comparing against the new source's graph input name | subgraph inputs `a` (fed by graph input `b`) then `b` (fed by node `p`): an inlined input reading `a` ends at node `p` | the inlined input carries the source fed into the input it named | not executed | Flatten.SubstituteChainFiresTwice | Flatten.SpliceFirstMatchSubstitutes |
| pirlib/backends/argo_batch.py:219 | `strip(".yml")` removes the characters `.`, `y`, `m`, `l` from both ends, not the suffix | output file `my-flow.yml` gives the name `-flow` | the file name without its `.yml` suffix, `my-flow` | not executed | ArgoBatch.OutputNameAsWrittenStripsLetters | ArgoBatch.OutputNameStem |
