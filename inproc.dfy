/**
 * `InprocBackend.execute`: run a flattened graph in the current process. After checking
 * that every graph input is supplied, it repeatedly executes the first node, in
 * declaration order, whose node-sourced inputs are all available, and finally reads
 * the graph outputs off the recorded node outputs and the graph inputs.
 *
 * Values are opaque. The handler a node names is a foreign call: it is the parameter
 * `handler`, the outputs map that `run_handler` leaves behind. Temporary directories
 * and files are numbered from a counter instead of being created.
 */
module Inproc {
  import opened Wrappers
  import opened Pir
  import opened Acyclicity
  import Validation
  import Flatten

  /** A value passed between nodes; paths carry the number of the temporary they name. */
  datatype Value = NoValue | DirectoryPath(id: nat) | FilePath(id: nat) | Data(id: nat)

  type Values = map<string, Value>

  /** `handler.run_handler(node, inputs, outputs)`: the outputs map it leaves behind. */
  type Handler = (Node, Values, Values) -> Values

  /** The exceptions `execute` raises. */
  datatype ExecError =
    | FlattenFailed(cause: Error)               // `flatten_graph` raised
    | MissingInput(name: string)                // ValueError "missing input 'x'"
    | CouldNotFinish                            // RuntimeError "could not finish execution"
    | UnknownKey(key: Option<string>)           // KeyError on a dict lookup
    | HandlerNotSplit(handler: string)          // ValueError unpacking `handler.split(":")`

  // ---------------------------------------------------------------------------------
  // The missing-input check

  /** The position of the first declared graph input that `inputs` does not supply. */
  function FirstMissing(decl: seq<GraphInput>, inputs: Values): (r: Option<nat>)
    ensures r.None? <==> forall k :: 0 <= k < |decl| ==> decl[k].name in inputs
    ensures r.Some? ==> r.value < |decl| && decl[r.value].name !in inputs
    ensures r.Some? ==> forall j :: 0 <= j < r.value ==> decl[j].name in inputs
  {
    if decl == [] then None
    else if decl[0].name !in inputs then Some(0)
    else
      match FirstMissing(decl[1..], inputs)
      case None => None
      case Some(k) => Some(k + 1)
  }

  /** `for inp in graph.inputs: if inp.name not in inputs: raise ValueError(…)`. */
  method CheckInputs(decl: seq<GraphInput>, inputs: Values) returns (r: Option<nat>)
    ensures r == FirstMissing(decl, inputs)
  {
    for k := 0 to |decl|
      invariant forall j :: 0 <= j < k ==> decl[j].name in inputs
    {
      if decl[k].name !in inputs {
        FirstMissingAt(decl, inputs, k);
        return Some(k);
      }
    }
    r := None;
  }

  /** The first absent input is the one `FirstMissing` reports. */
  lemma FirstMissingAt(decl: seq<GraphInput>, inputs: Values, k: nat)
    requires k < |decl| && decl[k].name !in inputs
    requires forall j :: 0 <= j < k ==> decl[j].name in inputs
    ensures FirstMissing(decl, inputs) == Some(k)
  {
    var r := FirstMissing(decl, inputs);
    assert r.Some?;
    assert !(r.value < k) && !(k < r.value);
  }

  // ---------------------------------------------------------------------------------
  // Binding the inputs of one node

  /** What the loop `for inp in node.inputs:` ends with. */
  datatype Binding = Blocked | Bound(values: Values) | Crashed(err: ExecError)

  /** A source can be read: the node it names has run and left the output, and the graph input it names is supplied. */
  predicate Available(src: DataSource, inputs: Values, done: map<string, Values>) {
    && (src.node.Some? ==> src.node.value in done && src.output.Some? && src.output.value in done[src.node.value])
    && (src.graphInput.Some? ==> src.graphInput.value in inputs)
  }

  /** The value a node input receives: the node output when a node is named, else the graph input. */
  function InputValue(src: DataSource, inputs: Values, done: map<string, Values>): Option<Value> {
    if src.node.Some? then
      if src.node.value in done && src.output.Some? && src.output.value in done[src.node.value]
      then Some(done[src.node.value][src.output.value]) else None
    else if src.graphInput.Some? && src.graphInput.value in inputs then Some(inputs[src.graphInput.value])
    else None
  }

  /**
   * One round of the loop over a node's inputs, with `acc` the `node_inputs` built so far:
   * a graph-input source is looked up in `inputs` (a KeyError when absent), then a node
   * source breaks the loop unless that node has run and left the referenced output.
   */
  function BindOne(inp: Input, inputs: Values, done: map<string, Values>, acc: Values): (r: Binding)
    ensures r.Crashed? <==> inp.source.graphInput.Some? && inp.source.graphInput.value !in inputs
    ensures r.Crashed? ==> r.err == UnknownKey(inp.source.graphInput)
    ensures r.Bound? <==> Available(inp.source, inputs, done)
    ensures r.Bound? ==> r.values.Keys <= acc.Keys + {inp.name}
    ensures r.Bound? ==> forall x :: x in acc && x != inp.name ==> x in r.values && r.values[x] == acc[x]
    ensures r.Bound? && InputValue(inp.source, inputs, done).Some? ==>
      inp.name in r.values && r.values[inp.name] == InputValue(inp.source, inputs, done).value
  {
    var src := inp.source;
    if src.graphInput.Some? && src.graphInput.value !in inputs then Crashed(UnknownKey(src.graphInput))
    else
      var acc' := if src.graphInput.Some? then acc[inp.name := inputs[src.graphInput.value]] else acc;
      match src.node
      case None => Bound(acc')
      case Some(m) =>
        if m !in done || src.output.None? || src.output.value !in done[m] then Blocked
        else Bound(acc'[inp.name := done[m][src.output.value]])
  }

  /** The loop over the remaining inputs `ins` of a node. */
  function BindInputs(ins: seq<Input>, inputs: Values, done: map<string, Values>, acc: Values): (r: Binding)
    ensures r.Crashed? ==> r.err.UnknownKey?
    decreases |ins|
  {
    if ins == [] then Bound(acc)
    else
      match BindOne(ins[0], inputs, done, acc)
      case Bound(acc') => BindInputs(ins[1..], inputs, done, acc')
      case b => b
  }

  /**
   * A node binds exactly when every source it reads is available; it crashes only on a
   * graph input that is not supplied.
   */
  lemma {:induction false} BindInputsBound(ins: seq<Input>, inputs: Values, done: map<string, Values>, acc: Values)
    ensures BindInputs(ins, inputs, done, acc).Bound? <==> forall i :: i in ins ==> Available(i.source, inputs, done)
    ensures BindInputs(ins, inputs, done, acc).Crashed? ==>
      exists i :: i in ins && i.source.graphInput.Some? && i.source.graphInput.value !in inputs
    decreases |ins|
  {
    if ins != [] {
      var b := BindOne(ins[0], inputs, done, acc);
      if b.Bound? {
        BindInputsBound(ins[1..], inputs, done, b.values);
      }
      assert forall i :: i in ins <==> i == ins[0] || i in ins[1..];
    }
  }

  /** `names[1..]` of distinct names are distinct and do not hold `names[0]`. */
  lemma DistinctTail<T>(items: seq<T>, nameOf: T -> string)
    requires |items| > 0 && Distinct(Names(items, nameOf))
    ensures Distinct(Names(items[1..], nameOf))
    ensures forall j :: 0 <= j < |items[1..]| ==> nameOf(items[1..][j]) != nameOf(items[0])
  {
    var all := Names(items, nameOf);
    var tail := Names(items[1..], nameOf);
    forall i, j | 0 <= i < j < |tail| ensures tail[i] != tail[j] {
      assert tail[i] == all[i + 1] && tail[j] == all[j + 1];
    }
    forall j | 0 <= j < |items[1..]| ensures nameOf(items[1..][j]) != nameOf(items[0]) {
      assert all[j + 1] == nameOf(items[1..][j]) && all[0] == nameOf(items[0]);
    }
  }

  /**
   * With distinct input names, a node that binds has each input bound to its source's
   * value, and no other entry beyond those already in `acc`.
   */
  lemma {:induction false} BindInputsValues(ins: seq<Input>, inputs: Values, done: map<string, Values>, acc: Values)
    requires BindInputs(ins, inputs, done, acc).Bound?
    requires Distinct(Names(ins, InputName))
    ensures var vs := BindInputs(ins, inputs, done, acc).values;
      && (forall k :: 0 <= k < |ins| && InputValue(ins[k].source, inputs, done).Some? ==>
            ins[k].name in vs && vs[ins[k].name] == InputValue(ins[k].source, inputs, done).value)
      && (forall x :: x in vs ==> x in acc || exists k :: 0 <= k < |ins| && ins[k].name == x)
    decreases |ins|
  {
    if ins != [] {
      var inp := ins[0];
      var b := BindOne(inp, inputs, done, acc);
      var next := b.values;
      DistinctTail(ins, InputName);
      BindInputsValues(ins[1..], inputs, done, next);
      var vs := BindInputs(ins, inputs, done, acc).values;
      forall k | 0 <= k < |ins| && InputValue(ins[k].source, inputs, done).Some?
        ensures ins[k].name in vs && vs[ins[k].name] == InputValue(ins[k].source, inputs, done).value
      {
        if k == 0 {
          BindInputsKeeps(ins[1..], inputs, done, next, inp.name);
        } else {
          assert ins[k] == ins[1..][k - 1];
        }
      }
      forall x | x in vs ensures x in acc || exists k :: 0 <= k < |ins| && ins[k].name == x {
        if x !in next {
          var k :| 0 <= k < |ins[1..]| && ins[1..][k].name == x;
          assert ins[k + 1].name == x;
        } else if x !in acc {
          assert ins[0].name == x;
        }
      }
    }
  }

  /** An entry that no remaining input names survives the loop. */
  lemma {:induction false} BindInputsKeeps(ins: seq<Input>, inputs: Values, done: map<string, Values>, acc: Values, x: string)
    requires BindInputs(ins, inputs, done, acc).Bound? && x in acc
    requires forall j :: 0 <= j < |ins| ==> ins[j].name != x
    ensures x in BindInputs(ins, inputs, done, acc).values
    ensures BindInputs(ins, inputs, done, acc).values[x] == acc[x]
    decreases |ins|
  {
    if ins != [] {
      var next := BindOne(ins[0], inputs, done, acc).values;
      assert forall j :: 0 <= j < |ins[1..]| ==> ins[1..][j] == ins[j + 1];
      BindInputsKeeps(ins[1..], inputs, done, next, x);
    }
  }

  /** `for inp in node.inputs:` building `node_inputs`, up to its `break`. */
  method BindNode(n: Node, inputs: Values, done: map<string, Values>) returns (b: Binding)
    ensures b == BindInputs(n.inputs, inputs, done, map[])
  {
    var acc: Values := map[];
    var ins := n.inputs;
    for k := 0 to |ins|
      invariant BindInputs(ins[k..], inputs, done, acc) == BindInputs(ins, inputs, done, map[])
    {
      assert ins[k..][1..] == ins[k + 1..];
      var inp := ins[k];
      if inp.source.graphInput.Some? {
        if inp.source.graphInput.value !in inputs {
          return Crashed(UnknownKey(inp.source.graphInput));
        }
        acc := acc[inp.name := inputs[inp.source.graphInput.value]];
      }
      if inp.source.node.Some? {
        var m := inp.source.node.value;
        if m !in done || inp.source.output.None? || inp.source.output.value !in done[m] {
          return Blocked;
        }
        acc := acc[inp.name := done[m][inp.source.output.value]];
      }
    }
    b := Bound(acc);
  }

  // ---------------------------------------------------------------------------------
  // Choosing the node to run

  /** `[node for node in graph.nodes if node.name not in node_outputs]`. */
  function Remaining(nodes: seq<Node>, done: map<string, Values>): (r: seq<Node>)
    ensures forall n :: n in r <==> n in nodes && n.name !in done
  {
    if nodes == [] then []
    else (if nodes[0].name in done then [] else [nodes[0]]) + Remaining(nodes[1..], done)
  }

  /** What the loop `for node in remaining_nodes:` ends with. */
  datatype Pick = NoneReady | Picked(node: Node, values: Values) | PickCrashed(err: ExecError)

  function PickReady(remaining: seq<Node>, inputs: Values, done: map<string, Values>): (r: Pick)
    ensures r.Picked? ==> r.node in remaining && BindInputs(r.node.inputs, inputs, done, map[]) == Bound(r.values)
    ensures r.PickCrashed? ==> r.err.UnknownKey?
    ensures r.PickCrashed? ==> exists n :: n in remaining && BindInputs(n.inputs, inputs, done, map[]).Crashed?
    decreases |remaining|
  {
    if remaining == [] then NoneReady
    else
      match BindInputs(remaining[0].inputs, inputs, done, map[])
      case Blocked =>
        var r := PickReady(remaining[1..], inputs, done);
        assert forall n :: n in remaining[1..] ==> n in remaining;
        r
      case Bound(vs) => Picked(remaining[0], vs)
      case Crashed(e) => PickCrashed(e)
  }

  /**
   * The node run is the first remaining one that does not block; "could not finish"
   * exactly when every remaining node blocks.
   */
  lemma {:induction false} PickReadyFirst(remaining: seq<Node>, inputs: Values, done: map<string, Values>)
    ensures PickReady(remaining, inputs, done).NoneReady? <==>
      forall k :: 0 <= k < |remaining| ==> BindInputs(remaining[k].inputs, inputs, done, map[]).Blocked?
    ensures PickReady(remaining, inputs, done).Picked? ==>
      exists k :: (0 <= k < |remaining| && remaining[k] == PickReady(remaining, inputs, done).node
                   && forall j :: 0 <= j < k ==> BindInputs(remaining[j].inputs, inputs, done, map[]).Blocked?)
    decreases |remaining|
  {
    if remaining != [] {
      PickReadyFirst(remaining[1..], inputs, done);
      var r := PickReady(remaining, inputs, done);
      if BindInputs(remaining[0].inputs, inputs, done, map[]).Blocked? {
        assert forall k :: 1 <= k < |remaining| ==> remaining[k] == remaining[1..][k - 1];
        if r.Picked? {
          var k :| (0 <= k < |remaining[1..]| && remaining[1..][k] == r.node
                    && forall j :: 0 <= j < k ==> BindInputs(remaining[1..][j].inputs, inputs, done, map[]).Blocked?);
          assert remaining[k + 1] == r.node;
        }
      }
    }
  }

  /** The `for … else` search over the remaining nodes. */
  method PickNode(remaining: seq<Node>, inputs: Values, done: map<string, Values>) returns (r: Pick)
    ensures r == PickReady(remaining, inputs, done)
  {
    for k := 0 to |remaining|
      invariant PickReady(remaining[k..], inputs, done) == PickReady(remaining, inputs, done)
    {
      assert remaining[k..][1..] == remaining[k + 1..];
      var b := BindNode(remaining[k], inputs, done);
      match b
      case Blocked =>
      case Bound(vs) => return Picked(remaining[k], vs);
      case Crashed(e) => return PickCrashed(e);
    }
    r := NoneReady;
  }

  // ---------------------------------------------------------------------------------
  // Running one node

  /** The outputs map of a node and the next unused temporary. */
  datatype Produced = Produced(values: Values, next: nat)

  /** The starting value of an output handed temporary number `tmp`. */
  function Placeholder(o: Output, tmp: nat): Value {
    if o.iotype == "DIRECTORY" then DirectoryPath(tmp)
    else if o.iotype == "FILE" then FilePath(tmp)
    else NoValue
  }

  /** How many temporaries an output takes: one for a directory or a file. */
  function TempsTaken(o: Output): nat {
    if o.iotype == "DIRECTORY" || o.iotype == "FILE" then 1 else 0
  }

  /**
   * `_execute_node`'s outputs map before the handler runs, from temporary `tmp` on: a new
   * directory for a DIRECTORY output, a new file for a FILE output, `None` for any other.
   */
  function Prepopulated(outs: seq<Output>, tmp: nat, acc: Values): (r: Produced)
    ensures tmp <= r.next
    decreases |outs|
  {
    if outs == [] then Produced(acc, tmp)
    else Prepopulated(outs[1..], tmp + TempsTaken(outs[0]), acc[outs[0].name := Placeholder(outs[0], tmp)])
  }

  /** `v` is what output `o` starts with, holding a temporary numbered in `[lo, hi)` when it takes one. */
  predicate IsPlaceholder(o: Output, v: Value, lo: nat, hi: nat) {
    if o.iotype == "DIRECTORY" then v.DirectoryPath? && lo <= v.id < hi
    else if o.iotype == "FILE" then v.FilePath? && lo <= v.id < hi
    else v == NoValue
  }

  /** Every declared output gets a key before the handler runs; nothing else is added. */
  lemma {:induction false} PrepopulatedKeys(outs: seq<Output>, tmp: nat, acc: Values)
    ensures Prepopulated(outs, tmp, acc).values.Keys == acc.Keys + set o | o in outs :: o.name
    decreases |outs|
  {
    if outs != [] {
      var o := outs[0];
      PrepopulatedKeys(outs[1..], tmp + TempsTaken(o), acc[o.name := Placeholder(o, tmp)]);
      assert (set x | x in outs :: x.name) == {o.name} + set x | x in outs[1..] :: x.name;
    }
  }

  /**
   * With distinct names, each declared output starts with a new temporary of its kind,
   * numbered from `tmp` up to the next free one.
   */
  lemma {:induction false} PrepopulatedPlaceholders(outs: seq<Output>, tmp: nat, acc: Values)
    requires Distinct(Names(outs, OutputName))
    ensures forall o :: o in outs ==> o.name in Prepopulated(outs, tmp, acc).values
    ensures forall o :: o in outs ==>
      IsPlaceholder(o, Prepopulated(outs, tmp, acc).values[o.name], tmp, Prepopulated(outs, tmp, acc).next)
    decreases |outs|
  {
    if outs != [] {
      var o := outs[0];
      var tmp' := tmp + TempsTaken(o);
      var acc' := acc[o.name := Placeholder(o, tmp)];
      var r := Prepopulated(outs[1..], tmp', acc');
      assert Prepopulated(outs, tmp, acc) == r;
      DistinctTail(outs, OutputName);
      PrepopulatedPlaceholders(outs[1..], tmp', acc');
      PrepopulatedKeeps(outs[1..], tmp', acc', o.name);
      assert IsPlaceholder(o, r.values[o.name], tmp, r.next);
      forall x | x in outs ensures x.name in r.values && IsPlaceholder(x, r.values[x.name], tmp, r.next) {
        if x != o {
          assert x in outs[1..];
        }
      }
    }
  }

  lemma {:induction false} PrepopulatedKeeps(outs: seq<Output>, tmp: nat, acc: Values, x: string)
    requires x in acc && forall j :: 0 <= j < |outs| ==> outs[j].name != x
    ensures x in Prepopulated(outs, tmp, acc).values
    ensures Prepopulated(outs, tmp, acc).values[x] == acc[x]
    decreases |outs|
  {
    if outs != [] {
      var o := outs[0];
      assert forall j :: 0 <= j < |outs[1..]| ==> outs[1..][j] == outs[j + 1];
      PrepopulatedKeeps(outs[1..], tmp + TempsTaken(o), acc[o.name := Placeholder(o, tmp)], x);
    }
  }

  /** `a, b = s.split(":")` succeeds exactly when `s` holds one colon. */
  predicate SplitsInTwo(s: string) {
    multiset(s)[':'] == 1
  }

  /** `_execute_node`: the node's outputs once its handler has run. */
  function ExecuteNode(n: Node, vs: Values, handler: Handler, tmp: nat): Result<Produced, ExecError> {
    if !SplitsInTwo(n.entrypoint.handler) then Failure(HandlerNotSplit(n.entrypoint.handler))
    else
      var pre := Prepopulated(n.outputs, tmp, map[]);
      Success(Produced(handler(n, vs, pre.values), pre.next))
  }

  /** `_execute_node`, with the loop `for out in node.outputs:` filling the outputs map. */
  method RunNode(n: Node, vs: Values, handler: Handler, tmp: nat) returns (r: Result<Produced, ExecError>)
    ensures r == ExecuteNode(n, vs, handler, tmp)
  {
    if !SplitsInTwo(n.entrypoint.handler) {
      return Failure(HandlerNotSplit(n.entrypoint.handler));
    }
    var pre: Values := map[];
    var next := tmp;
    var outs := n.outputs;
    for k := 0 to |outs|
      invariant Prepopulated(outs[k..], next, pre) == Prepopulated(outs, tmp, map[])
    {
      assert outs[k..][1..] == outs[k + 1..];
      var o := outs[k];
      if o.iotype == "DIRECTORY" {
        pre := pre[o.name := DirectoryPath(next)];
        next := next + 1;
      } else if o.iotype == "FILE" {
        pre := pre[o.name := FilePath(next)];
        next := next + 1;
      } else {
        pre := pre[o.name := NoValue];
      }
    }
    r := Success(Produced(handler(n, vs, pre), next));
  }

  /** The handler leaves every key of the outputs map it was given in place. */
  ghost predicate KeepsOutputs(handler: Handler) {
    forall n: Node, vs: Values, pre: Values :: pre.Keys <= handler(n, vs, pre).Keys
  }

  /** With such a handler, a node that runs leaves a value for each output it declares. */
  lemma ExecuteNodeKeeps(n: Node, vs: Values, handler: Handler, tmp: nat)
    requires KeepsOutputs(handler)
    ensures ExecuteNode(n, vs, handler, tmp).Success? ==>
      forall o :: o in n.outputs ==> o.name in ExecuteNode(n, vs, handler, tmp).value.values
  {
    PrepopulatedKeys(n.outputs, tmp, map[]);
  }

  // ---------------------------------------------------------------------------------
  // The scheduling loop

  /** `node_outputs`, the next unused temporary, and the nodes run so far, in order. */
  datatype State = State(done: map<string, Values>, tmp: nat, trace: seq<Node>)

  /** The node names still to run: the measure of the loop. */
  function Pending(g: Graph, done: map<string, Values>): nat {
    |NodeNameSet(g) - done.Keys|
  }

  lemma PendingDecreases(g: Graph, done: map<string, Values>, n: Node, outs: Values)
    requires n in g.nodes && n.name !in done
    ensures Pending(g, done[n.name := outs]) < Pending(g, done)
  {
    var left := NodeNameSet(g) - done.Keys;
    var left' := NodeNameSet(g) - done[n.name := outs].Keys;
    assert n.name in left && left' == left - {n.name};
  }

  /** What one round of `while True:` does from state `st`. */
  datatype Step = Finished | Stopped(err: ExecError) | Ran(node: Node, next: State)

  function StepOf(g: Graph, inputs: Values, handler: Handler, st: State): (r: Step)
    ensures r.Finished? <==> Remaining(g.nodes, st.done) == []
    ensures r.Stopped? ==> r.err == CouldNotFinish || r.err.UnknownKey? || r.err.HandlerNotSplit?
    ensures r.Ran? ==> r.node in g.nodes && r.node.name !in st.done && Pending(g, r.next.done) < Pending(g, st.done)
  {
    var remaining := Remaining(g.nodes, st.done);
    if remaining == [] then Finished
    else
      match PickReady(remaining, inputs, st.done)
      case NoneReady => Stopped(CouldNotFinish)
      case PickCrashed(e) => Stopped(e)
      case Picked(n, vs) =>
        match ExecuteNode(n, vs, handler, st.tmp)
        case Failure(e) => Stopped(e)
        case Success(ran) =>
          PendingDecreases(g, st.done, n, ran.values);
          Ran(n, State(st.done[n.name := ran.values], ran.next, st.trace + [n]))
  }

  /** Nothing is left to run exactly when every node of the graph has run. */
  lemma RemainingEmpty(nodes: seq<Node>, done: map<string, Values>)
    ensures Remaining(nodes, done) == [] <==> forall n :: n in nodes ==> n.name in done
  {
    var r := Remaining(nodes, done);
    if r != [] {
      assert r[0] in r;
    }
  }

  /** A round that runs a node runs one whose inputs bind, and records its outputs under its name. */
  lemma StepRan(g: Graph, inputs: Values, handler: Handler, st: State)
    requires StepOf(g, inputs, handler, st).Ran?
    ensures var r := StepOf(g, inputs, handler, st);
      && BindInputs(r.node.inputs, inputs, st.done, map[]).Bound?
      && r.node.name in r.next.done
      && ExecuteNode(r.node, BindInputs(r.node.inputs, inputs, st.done, map[]).values, handler, st.tmp)
         == Success(Produced(r.next.done[r.node.name], r.next.tmp))
      && r.next.done == st.done[r.node.name := r.next.done[r.node.name]]
      && r.next.trace == st.trace + [r.node]
  {
  }

  /** The loop `while True:` from state `st`. */
  function Schedule(g: Graph, inputs: Values, handler: Handler, st: State): (r: Result<State, ExecError>)
    ensures r.Failure? ==> r.error == CouldNotFinish || r.error.UnknownKey? || r.error.HandlerNotSplit?
    decreases Pending(g, st.done)
  {
    match StepOf(g, inputs, handler, st)
    case Finished => Success(st)
    case Stopped(e) => Failure(e)
    case Ran(_, next) => Schedule(g, inputs, handler, next)
  }

  /** The names of the nodes in a trace. */
  function Executed(trace: seq<Node>): set<string> {
    set k | 0 <= k < |trace| :: trace[k].name
  }

  /**
   * The nodes run so far: each a node of the graph, run once, after every producer it
   * reads from, and recorded in `node_outputs`.
   */
  ghost predicate TraceOk(g: Graph, st: State) {
    && (forall k :: 0 <= k < |st.trace| ==> st.trace[k] in g.nodes)
    && (forall i, j :: 0 <= i < j < |st.trace| ==> st.trace[i].name != st.trace[j].name)
    && st.done.Keys == Executed(st.trace)
    && (forall k, inp :: 0 <= k < |st.trace| && inp in st.trace[k].inputs && inp.source.node.Some? ==>
          exists j :: 0 <= j < k && st.trace[j].name == inp.source.node.value)
  }

  lemma ExecutedAppend(trace: seq<Node>, n: Node)
    ensures Executed(trace + [n]) == Executed(trace) + {n.name}
  {
    var t := trace + [n];
    assert forall k :: 0 <= k < |trace| ==> t[k] == trace[k];
    assert t[|trace|] == n;
  }

  /** Running a new node of the graph whose producers have all run keeps the trace well formed. */
  lemma TraceExtend(g: Graph, st: State, n: Node, outs: Values, tmp': nat)
    requires TraceOk(g, st)
    requires n in g.nodes && n.name !in st.done
    requires forall i :: i in n.inputs && i.source.node.Some? ==> i.source.node.value in st.done
    ensures TraceOk(g, State(st.done[n.name := outs], tmp', st.trace + [n]))
  {
    var trace := st.trace + [n];
    ExecutedAppend(st.trace, n);
    assert forall k :: 0 <= k < |st.trace| ==> trace[k] == st.trace[k];
    assert trace[|st.trace|] == n;
    forall k, inp | 0 <= k < |trace| && inp in trace[k].inputs && inp.source.node.Some?
      ensures exists j :: 0 <= j < k && trace[j].name == inp.source.node.value
    {
      if k == |st.trace| {
        assert inp.source.node.value in Executed(st.trace);
        var j :| 0 <= j < |st.trace| && st.trace[j].name == inp.source.node.value;
        assert trace[j] == st.trace[j];
      } else {
        var j :| 0 <= j < k && st.trace[j].name == inp.source.node.value;
        assert trace[j] == st.trace[j];
      }
    }
    forall i, j | 0 <= i < j < |trace| ensures trace[i].name != trace[j].name {
      if j == |st.trace| {
        assert st.trace[i].name in Executed(st.trace);
      }
    }
  }

  /** One round keeps the trace well formed. */
  lemma StepTrace(g: Graph, inputs: Values, handler: Handler, st: State)
    requires TraceOk(g, st)
    ensures StepOf(g, inputs, handler, st).Ran? ==> TraceOk(g, StepOf(g, inputs, handler, st).next)
  {
    var r := StepOf(g, inputs, handler, st);
    if r.Ran? {
      StepRan(g, inputs, handler, st);
      BindInputsBound(r.node.inputs, inputs, st.done, map[]);
      TraceExtend(g, st, r.node, r.next.done[r.node.name], r.next.tmp);
    }
  }

  /**
   * A finished schedule extends the trace it started from, keeps it well formed, and
   * has run every node of the graph.
   */
  lemma {:induction false} ScheduleTrace(g: Graph, inputs: Values, handler: Handler, st: State)
    requires TraceOk(g, st)
    ensures Schedule(g, inputs, handler, st).Success? ==>
      var st' := Schedule(g, inputs, handler, st).value;
      && TraceOk(g, st')
      && st.trace <= st'.trace
      && (forall n :: n in g.nodes ==> n.name in st'.done)
  {
    ScheduleKeepsTrace(g, inputs, handler, st);
    ScheduleExtends(g, inputs, handler, st);
    ScheduleRunsAll(g, inputs, handler, st);
  }

  lemma {:induction false} ScheduleKeepsTrace(g: Graph, inputs: Values, handler: Handler, st: State)
    requires TraceOk(g, st)
    ensures Schedule(g, inputs, handler, st).Success? ==> TraceOk(g, Schedule(g, inputs, handler, st).value)
    decreases Pending(g, st.done)
  {
    var r := StepOf(g, inputs, handler, st);
    if r.Ran? {
      StepTrace(g, inputs, handler, st);
      ScheduleKeepsTrace(g, inputs, handler, r.next);
    }
  }

  lemma {:induction false} ScheduleExtends(g: Graph, inputs: Values, handler: Handler, st: State)
    ensures Schedule(g, inputs, handler, st).Success? ==> st.trace <= Schedule(g, inputs, handler, st).value.trace
    decreases Pending(g, st.done)
  {
    var r := StepOf(g, inputs, handler, st);
    if r.Ran? {
      StepRan(g, inputs, handler, st);
      ScheduleExtends(g, inputs, handler, r.next);
    }
  }

  lemma {:induction false} ScheduleRunsAll(g: Graph, inputs: Values, handler: Handler, st: State)
    ensures Schedule(g, inputs, handler, st).Success? ==>
      forall n :: n in g.nodes ==> n.name in Schedule(g, inputs, handler, st).value.done
    decreases Pending(g, st.done)
  {
    var r := StepOf(g, inputs, handler, st);
    if r.Finished? {
      RemainingEmpty(g.nodes, st.done);
    } else if r.Ran? {
      ScheduleRunsAll(g, inputs, handler, r.next);
    }
  }

  // ---------------------------------------------------------------------------------
  // Collecting the graph outputs

  /** The value a graph output takes: a graph input wins over a node output when both are named. */
  function OutputValue(src: DataSource, inputs: Values, done: map<string, Values>): Option<Value> {
    if src.graphInput.Some? then
      if src.graphInput.value in inputs then Some(inputs[src.graphInput.value]) else None
    else if src.node.Some? && src.node.value in done && src.output.Some? && src.output.value in done[src.node.value]
    then Some(done[src.node.value][src.output.value])
    else None
  }

  /**
   * One round of `for out in graph.outputs:`: a node source is read off `node_outputs`,
   * then a graph-input source off `inputs`, each a KeyError when the entry is absent.
   */
  function CollectOne(out: GraphOutput, inputs: Values, done: map<string, Values>, acc: Values): (r: Result<Values, ExecError>)
    ensures r.Success? <==> Available(out.source, inputs, done)
    ensures r.Failure? ==> r.error.UnknownKey?
    ensures r.Success? ==> r.value.Keys <= acc.Keys + {out.name}
    ensures r.Success? ==> forall x :: x in acc && x != out.name ==> x in r.value && r.value[x] == acc[x]
    ensures r.Success? && OutputValue(out.source, inputs, done).Some? ==>
      out.name in r.value && r.value[out.name] == OutputValue(out.source, inputs, done).value
  {
    var src := out.source;
    var fromNode: Result<Values, ExecError> :=
      match src.node
      case None => Success(acc)
      case Some(m) =>
        if m !in done then Failure(UnknownKey(src.node))
        else if src.output.None? || src.output.value !in done[m] then Failure(UnknownKey(src.output))
        else Success(acc[out.name := done[m][src.output.value]]);
    match fromNode
    case Failure(e) => Failure(e)
    case Success(acc') =>
      match src.graphInput
      case None => Success(acc')
      case Some(x) => if x !in inputs then Failure(UnknownKey(src.graphInput)) else Success(acc'[out.name := inputs[x]])
  }

  /** The loop `for out in graph.outputs:` over the remaining outputs `outs`. */
  function CollectOutputs(outs: seq<GraphOutput>, inputs: Values, done: map<string, Values>, acc: Values)
    : (r: Result<Values, ExecError>)
    ensures r.Failure? ==> r.error.UnknownKey?
    decreases |outs|
  {
    if outs == [] then Success(acc)
    else
      match CollectOne(outs[0], inputs, done, acc)
      case Failure(e) => Failure(e)
      case Success(acc') => CollectOutputs(outs[1..], inputs, done, acc')
  }

  /** The outputs are collected exactly when every source they read is available. */
  lemma {:induction false} CollectOutputsOk(outs: seq<GraphOutput>, inputs: Values, done: map<string, Values>, acc: Values)
    ensures CollectOutputs(outs, inputs, done, acc).Success? <==> forall o :: o in outs ==> Available(o.source, inputs, done)
    decreases |outs|
  {
    if outs != [] {
      var c := CollectOne(outs[0], inputs, done, acc);
      if c.Success? {
        CollectOutputsOk(outs[1..], inputs, done, c.value);
      }
      assert forall o :: o in outs <==> o == outs[0] || o in outs[1..];
    }
  }

  /**
   * With distinct output names, the result maps each graph output to its source's value,
   * and holds nothing else beyond `acc`.
   */
  lemma {:induction false} CollectOutputsValues(outs: seq<GraphOutput>, inputs: Values, done: map<string, Values>, acc: Values)
    requires CollectOutputs(outs, inputs, done, acc).Success?
    requires Distinct(Names(outs, GraphOutputName))
    ensures var vs := CollectOutputs(outs, inputs, done, acc).value;
      && (forall k :: 0 <= k < |outs| && OutputValue(outs[k].source, inputs, done).Some? ==>
            outs[k].name in vs && vs[outs[k].name] == OutputValue(outs[k].source, inputs, done).value)
      && (forall x :: x in vs ==> x in acc || exists k :: 0 <= k < |outs| && outs[k].name == x)
    decreases |outs|
  {
    if outs != [] {
      var out := outs[0];
      var next := CollectOne(out, inputs, done, acc).value;
      DistinctTail(outs, GraphOutputName);
      CollectOutputsValues(outs[1..], inputs, done, next);
      var vs := CollectOutputs(outs, inputs, done, acc).value;
      forall k | 0 <= k < |outs| && OutputValue(outs[k].source, inputs, done).Some?
        ensures outs[k].name in vs && vs[outs[k].name] == OutputValue(outs[k].source, inputs, done).value
      {
        if k == 0 {
          CollectOutputsKeeps(outs[1..], inputs, done, next, out.name);
        } else {
          assert outs[k] == outs[1..][k - 1];
        }
      }
      forall x | x in vs ensures x in acc || exists k :: 0 <= k < |outs| && outs[k].name == x {
        if x !in next {
          var k :| 0 <= k < |outs[1..]| && outs[1..][k].name == x;
          assert outs[k + 1].name == x;
        } else if x !in acc {
          assert outs[0].name == x;
        }
      }
    }
  }

  lemma {:induction false} CollectOutputsKeeps(outs: seq<GraphOutput>, inputs: Values, done: map<string, Values>, acc: Values, x: string)
    requires CollectOutputs(outs, inputs, done, acc).Success? && x in acc
    requires forall j :: 0 <= j < |outs| ==> outs[j].name != x
    ensures x in CollectOutputs(outs, inputs, done, acc).value
    ensures CollectOutputs(outs, inputs, done, acc).value[x] == acc[x]
    decreases |outs|
  {
    if outs != [] {
      var next := CollectOne(outs[0], inputs, done, acc).value;
      assert forall j :: 0 <= j < |outs[1..]| ==> outs[1..][j] == outs[j + 1];
      CollectOutputsKeeps(outs[1..], inputs, done, next, x);
    }
  }

  /** The loop `for out in graph.outputs:` building the result. */
  method CollectGraphOutputs(outs: seq<GraphOutput>, inputs: Values, done: map<string, Values>)
    returns (r: Result<Values, ExecError>)
    ensures r == CollectOutputs(outs, inputs, done, map[])
  {
    var acc: Values := map[];
    for k := 0 to |outs|
      invariant CollectOutputs(outs[k..], inputs, done, acc) == CollectOutputs(outs, inputs, done, map[])
    {
      assert outs[k..][1..] == outs[k + 1..];
      var out := outs[k];
      var src := out.source;
      if src.node.Some? {
        var m := src.node.value;
        if m !in done {
          return Failure(UnknownKey(src.node));
        }
        if src.output.None? || src.output.value !in done[m] {
          return Failure(UnknownKey(src.output));
        }
        acc := acc[out.name := done[m][src.output.value]];
      }
      if src.graphInput.Some? {
        if src.graphInput.value !in inputs {
          return Failure(UnknownKey(src.graphInput));
        }
        acc := acc[out.name := inputs[src.graphInput.value]];
      }
    }
    r := Success(acc);
  }

  // ---------------------------------------------------------------------------------
  // Executing a flattened graph

  /** What `execute` computes from the flattened graph `g`, with temporaries numbered from `tmp`. */
  function ExecuteSpec(g: Graph, inputs: Values, handler: Handler, tmp: nat): (r: Result<Values, ExecError>)
    ensures r.Failure? ==>
      r.error.MissingInput? || r.error == CouldNotFinish || r.error.UnknownKey? || r.error.HandlerNotSplit?
    ensures r.Failure? && r.error.MissingInput? ==> FirstMissing(g.inputs, inputs).Some?
  {
    match FirstMissing(g.inputs, inputs)
    case Some(k) => Failure(MissingInput(g.inputs[k].name))
    case None =>
      match Schedule(g, inputs, handler, State(map[], tmp, []))
      case Failure(e) => Failure(e)
      case Success(st) => CollectOutputs(g.outputs, inputs, st.done, map[])
  }

  /** Lines 42-78 of `execute`, on the flattened graph `g`. */
  method ExecuteGraph(g: Graph, inputs: Values, handler: Handler, tmp: nat) returns (r: Result<Values, ExecError>)
    ensures r == ExecuteSpec(g, inputs, handler, tmp)
  {
    var missing := CheckInputs(g.inputs, inputs);
    if missing.Some? {
      return Failure(MissingInput(g.inputs[missing.value].name));
    }
    var done: map<string, Values> := map[];
    var next := tmp;
    ghost var trace: seq<Node> := [];
    while true
      invariant Schedule(g, inputs, handler, State(done, next, trace)) == Schedule(g, inputs, handler, State(map[], tmp, []))
      decreases Pending(g, done)
    {
      var remaining := Remaining(g.nodes, done);
      if remaining == [] {
        break;
      }
      var pick := PickNode(remaining, inputs, done);
      match pick
      case NoneReady =>
        return Failure(CouldNotFinish);
      case PickCrashed(e) =>
        return Failure(e);
      case Picked(n, vs) =>
        var ran := RunNode(n, vs, handler, next);
        if ran.Failure? {
          return Failure(ran.error);
        }
        PendingDecreases(g, done, n, ran.value.values);
        done := done[n.name := ran.value.values];
        next := ran.value.next;
        trace := trace + [n];
    }
    r := CollectGraphOutputs(g.outputs, inputs, done);
  }

  /** A missing graph input is reported before any node runs: whatever the handlers do. */
  lemma MissingInputFirst(g: Graph, inputs: Values, h1: Handler, h2: Handler, tmp: nat, k: nat)
    requires k < |g.inputs| && g.inputs[k].name !in inputs
    requires forall j :: 0 <= j < k ==> g.inputs[j].name in inputs
    ensures ExecuteSpec(g, inputs, h1, tmp) == ExecuteSpec(g, inputs, h2, tmp) == Failure(MissingInput(g.inputs[k].name))
  {
    FirstMissingAt(g.inputs, inputs, k);
  }

  /**
   * Every node of a successful run ran exactly once, after the producers it reads from,
   * and each graph output holds its source's value.
   */
  lemma ExecuteRuns(g: Graph, inputs: Values, handler: Handler, tmp: nat)
    requires Distinct(Names(g.outputs, GraphOutputName))
    ensures ExecuteSpec(g, inputs, handler, tmp).Success? ==>
      var st := Schedule(g, inputs, handler, State(map[], tmp, [])).value;
      var vs := ExecuteSpec(g, inputs, handler, tmp).value;
      && TraceOk(g, st)
      && (forall n :: n in g.nodes ==> n.name in st.done)
      && (forall k :: 0 <= k < |g.outputs| && OutputValue(g.outputs[k].source, inputs, st.done).Some? ==>
            g.outputs[k].name in vs && vs[g.outputs[k].name] == OutputValue(g.outputs[k].source, inputs, st.done).value)
      && (forall x :: x in vs ==> exists k :: 0 <= k < |g.outputs| && g.outputs[k].name == x)
  {
    var st0 := State(map[], tmp, []);
    if ExecuteSpec(g, inputs, handler, tmp).Success? {
      assert TraceOk(g, st0);
      ScheduleTrace(g, inputs, handler, st0);
      var st := Schedule(g, inputs, handler, st0).value;
      CollectOutputsValues(g.outputs, inputs, st.done, map[]);
    }
  }

  // ---------------------------------------------------------------------------------
  // A valid graph always finishes

  /** Every node run so far has a value for each output it declares. */
  ghost predicate OutputsKept(st: State) {
    forall k :: 0 <= k < |st.trace| ==> NodeKept(st.done, st.trace[k])
  }

  /** `n` has been recorded with a value for each output it declares. */
  ghost predicate NodeKept(done: map<string, Values>, n: Node) {
    forall o :: o in n.outputs ==> n.name in done && o.name in done[n.name]
  }

  lemma StepKeeps(g: Graph, inputs: Values, handler: Handler, st: State)
    requires KeepsOutputs(handler) && TraceOk(g, st) && OutputsKept(st)
    ensures StepOf(g, inputs, handler, st).Ran? ==> OutputsKept(StepOf(g, inputs, handler, st).next)
  {
    var r := StepOf(g, inputs, handler, st);
    if r.Ran? {
      var n := r.node;
      StepRan(g, inputs, handler, st);
      ExecuteNodeKeeps(n, BindInputs(n.inputs, inputs, st.done, map[]).values, handler, st.tmp);
      KeepsAppend(st, n, r.next.done[n.name], r.next.tmp);
      assert r.next == State(st.done[n.name := r.next.done[n.name]], r.next.tmp, st.trace + [n]);
    }
  }

  /** Recording a new node with all its outputs keeps every recorded node's outputs. */
  lemma KeepsAppend(st: State, n: Node, outs: Values, tmp': nat)
    requires OutputsKept(st) && n.name !in st.done
    requires forall o :: o in n.outputs ==> o.name in outs
    ensures OutputsKept(State(st.done[n.name := outs], tmp', st.trace + [n]))
  {
    var st' := State(st.done[n.name := outs], tmp', st.trace + [n]);
    forall k | 0 <= k < |st'.trace| ensures NodeKept(st'.done, st'.trace[k]) {
      if k < |st.trace| {
        assert st'.trace[k] == st.trace[k];
        assert NodeKept(st.done, st.trace[k]);
      } else {
        assert st'.trace[k] == n;
      }
    }
  }

  /** Two nodes of a graph with distinct node names that share a name are the same node. */
  lemma SameNameSameNode(g: Graph, a: Node, b: Node)
    requires Distinct(Names(g.nodes, NodeName)) && a in g.nodes && b in g.nodes
    ensures a.name == b.name ==> a == b
  {
    FindByNameUnique(g.nodes, NodeName, a);
    FindByNameUnique(g.nodes, NodeName, b);
  }

  /** A node that has run still has each output it declares. */
  lemma KeptOutput(g: Graph, st: State, n: Node, o: Output)
    requires TraceOk(g, st) && OutputsKept(st) && Distinct(Names(g.nodes, NodeName))
    requires n in g.nodes && o in n.outputs
    ensures n.name in st.done ==> o.name in st.done[n.name]
  {
    if n.name in st.done {
      assert n.name in Executed(st.trace);
      var k :| 0 <= k < |st.trace| && st.trace[k].name == n.name;
      SameNameSameNode(g, st.trace[k], n);
    }
  }

  /** A source that resolves in the graph and names a graph input names a supplied one. */
  lemma GraphInputSupplied(g: Graph, inputs: Values, src: DataSource, iotype: string)
    requires SourceHasIotype(g, src, iotype)
    requires forall i :: i in g.inputs ==> i.name in inputs
    ensures src.graphInput.Some? ==> src.graphInput.value in inputs
  {
    if src.graphInput.Some? {
      var gi :| gi in g.inputs && gi.name == src.graphInput.value && gi.iotype == iotype;
    }
  }

  /**
   * In a valid graph, a source that names a node names one of its nodes and one of that
   * node's outputs, and is available once that node has run.
   */
  lemma NodeSourceResolves(g: Graph, inputs: Values, st: State, src: DataSource, iotype: string)
    requires EntitiesValid(g) && TraceOk(g, st) && OutputsKept(st)
    requires SourceHasIotype(g, src, iotype) && ValidateDataSource(src).Pass?
    requires forall i :: i in g.inputs ==> i.name in inputs
    requires src.node.Some?
    ensures exists m :: (m in g.nodes && m.name == src.node.value && Target(g, Input("", iotype, src)) == RefTo(NodeItem(m))
                         && (m.name in st.done ==> Available(src, inputs, st.done)))
  {
    var m, o :| m in g.nodes && m.name == src.node.value && o in m.outputs && src.output == Some(o.name) && o.iotype == iotype;
    FindByNameUnique(g.nodes, NodeName, m);
    KeptOutput(g, st, m, o);
  }

  /**
   * In a valid graph with every input supplied, a node that does not bind waits on a
   * node that has not run and that feeds it.
   */
  lemma BlockedWaitsOnPending(g: Graph, inputs: Values, st: State, n: Node)
    requires Validation.GraphValid(g)
    requires forall i :: i in g.inputs ==> i.name in inputs
    requires TraceOk(g, st) && OutputsKept(st)
    requires n in g.nodes
    ensures !BindInputs(n.inputs, inputs, st.done, map[]).Bound? ==>
      exists m :: m in g.nodes && m.name !in st.done && Edge(g, NodeItem(n), NodeItem(m))
  {
    BindInputsBound(n.inputs, inputs, st.done, map[]);
    if !BindInputs(n.inputs, inputs, st.done, map[]).Bound? {
      var i :| i in n.inputs && !Available(i.source, inputs, st.done);
      Validation.GraphValidMeans(g);
      assert ValidateDataSource(i.source).Pass?;
      GraphInputSupplied(g, inputs, i.source, i.iotype);
      NodeSourceResolves(g, inputs, st, i.source, i.iotype);
      var m :| m in g.nodes && m.name == i.source.node.value && Target(g, Input("", i.iotype, i.source)) == RefTo(NodeItem(m))
        && (m.name in st.done ==> Available(i.source, inputs, st.done));
      assert Target(g, i) == Target(g, Input("", i.iotype, i.source));
      assert i in ItemInputs(NodeItem(n));
    }
  }

  /** In a valid graph with every input supplied, no node crashes on a missing graph input. */
  lemma NoCrash(g: Graph, inputs: Values, done: map<string, Values>, n: Node)
    requires Validation.GraphValid(g)
    requires forall i :: i in g.inputs ==> i.name in inputs
    requires n in g.nodes
    ensures !BindInputs(n.inputs, inputs, done, map[]).Crashed?
  {
    BindInputsBound(n.inputs, inputs, done, map[]);
    Validation.GraphValidMeans(g);
    forall i | i in n.inputs ensures i.source.graphInput.Some? ==> i.source.graphInput.value in inputs {
      GraphInputSupplied(g, inputs, i.source, i.iotype);
    }
  }

  lemma FewerIn<T>(small: set<T>, big: set<T>, x: T)
    requires small <= big && x in big && x !in small
    ensures |small| < |big|
  {
    var rest := big - small;
    assert big == small + rest && small * rest == {};
    assert x in rest;
  }

  /**
   * A nonempty set, under a reflexive and transitive reachability along which no edge
   * leads back, holds an element with no edge into the set.
   */
  lemma {:induction false} HasSink<T>(s: set<T>, edge: (T, T) -> bool, reach: (T, T) -> bool)
    requires s != {}
    requires forall x :: reach(x, x)
    requires forall x, y, z :: reach(x, y) && edge(y, z) ==> reach(x, z)
    requires forall x, y :: x in s && edge(x, y) ==> !reach(y, x)
    ensures exists x :: x in s && forall y :: y in s ==> !edge(x, y)
    decreases |s|
  {
    var x :| x in s;
    if y :| y in s && edge(x, y) {
      var t := set z | z in s && reach(y, z);
      assert y in t by {
        assert reach(y, y);
      }
      assert x !in t;
      assert t <= s;
      FewerIn(t, s, x);
      HasSink(t, edge, reach);
      var z :| z in t && forall w :: w in t ==> !edge(z, w);
      assert reach(y, z);
      forall w | w in s ensures !edge(z, w) {
        if w !in t {
          assert !reach(y, w);
        }
      }
      assert z in s;
    } else {
      assert forall y :: y in s ==> !edge(x, y);
    }
  }

  /** An item feeding itself through `y` lies on a cycle. */
  lemma CycleThrough(g: Graph, x: Item, y: Item)
    ensures Edge(g, x, y) && Reachable(g, y, x) ==> OnCycle(g, x)
  {
    if Edge(g, x, y) && Reachable(g, y, x) {
      var p :| Path(g, p) && p[0] == y && p[|p| - 1] == x;
      var q := [x] + p;
      forall k | 0 <= k < |q| - 1 ensures Edge(g, q[k], q[k + 1]) {
        if k > 0 {
          assert q[k] == p[k - 1] && q[k + 1] == p[k];
        }
      }
      var front := q[..|q| - 1];
      forall k | 0 <= k < |front| - 1 ensures Edge(g, front[k], front[k + 1]) {
        assert front[k] == q[k] && front[k + 1] == q[k + 1];
      }
      assert Path(g, front) && front[0] == x;
      assert Edge(g, front[|front| - 1], x);
    }
  }

  /** In a graph without cycles, a nonempty set of its items holds one fed by none of the set. */
  lemma HasUnfed(g: Graph, s: set<Item>)
    requires Acyclic(g) && s != {} && forall x :: x in s ==> Member(g, x)
    ensures exists x :: x in s && forall y :: y in s ==> !Edge(g, x, y)
  {
    var edge := (a: Item, b: Item) => Edge(g, a, b);
    var reach := (a: Item, b: Item) => Reachable(g, a, b);
    forall x ensures reach(x, x) {
      ReachableRefl(g, x);
    }
    forall x, y, z | reach(x, y) && edge(y, z) ensures reach(x, z) {
      ReachableStep(g, x, y, z);
    }
    forall x, y | x in s && edge(x, y) ensures !reach(y, x) {
      CycleThrough(g, x, y);
    }
    HasSink(s, edge, reach);
  }

  /** Among the nodes left, some node reads from none of the others left. */
  lemma UnfedRemaining(g: Graph, done: map<string, Values>)
    requires Acyclic(g) && Remaining(g.nodes, done) != []
    ensures exists n :: (n in Remaining(g.nodes, done) &&
      forall m :: m in g.nodes && m.name !in done ==> !Edge(g, NodeItem(n), NodeItem(m)))
  {
    var rem := Remaining(g.nodes, done);
    var s := set n | n in rem :: NodeItem(n);
    assert NodeItem(rem[0]) in s;
    forall x | x in s ensures Member(g, x) {
      var n :| n in rem && x == NodeItem(n);
      assert n in g.nodes;
    }
    HasUnfed(g, s);
    var x :| x in s && forall y :: y in s ==> !Edge(g, x, y);
    var n :| n in rem && x == NodeItem(n);
    forall m | m in g.nodes && m.name !in done ensures NodeItem(m) in s {
      assert m in rem;
    }
  }

  lemma PickProgress(g: Graph, inputs: Values, st: State)
    requires Validation.GraphValid(g) && Acyclic(g)
    requires forall i :: i in g.inputs ==> i.name in inputs
    requires TraceOk(g, st) && OutputsKept(st)
    requires Remaining(g.nodes, st.done) != []
    ensures PickReady(Remaining(g.nodes, st.done), inputs, st.done).Picked?
  {
    var rem := Remaining(g.nodes, st.done);
    UnfedRemaining(g, st.done);
    var n :| n in rem && forall m :: m in g.nodes && m.name !in st.done ==> !Edge(g, NodeItem(n), NodeItem(m));
    BlockedWaitsOnPending(g, inputs, st, n);
    RemainingNoCrash(g, inputs, st.done);
    PickBound(rem, inputs, st.done, n);
  }

  /** A node that binds, among nodes none of which crashes, means some node is picked. */
  lemma PickBound(remaining: seq<Node>, inputs: Values, done: map<string, Values>, n: Node)
    requires n in remaining && BindInputs(n.inputs, inputs, done, map[]).Bound?
    requires forall m :: m in remaining ==> !BindInputs(m.inputs, inputs, done, map[]).Crashed?
    ensures PickReady(remaining, inputs, done).Picked?
  {
    PickReadyFirst(remaining, inputs, done);
    var k :| 0 <= k < |remaining| && remaining[k] == n;
    assert !BindInputs(remaining[k].inputs, inputs, done, map[]).Blocked?;
  }

  lemma RemainingNoCrash(g: Graph, inputs: Values, done: map<string, Values>)
    requires Validation.GraphValid(g)
    requires forall i :: i in g.inputs ==> i.name in inputs
    ensures forall m :: m in Remaining(g.nodes, done) ==> !BindInputs(m.inputs, inputs, done, map[]).Crashed?
  {
    forall m | m in Remaining(g.nodes, done) ensures !BindInputs(m.inputs, inputs, done, map[]).Crashed? {
      NoCrash(g, inputs, done, m);
    }
  }


  /**
   * From a well-formed state of a valid graph with every input supplied and a handler
   * that keeps its outputs, the loop ends with every node run, unless a handler name
   * does not split in two.
   */
  /** In a valid graph with every input supplied, a round stops only on a handler reference that does not split. */
  lemma StepProgress(g: Graph, inputs: Values, handler: Handler, st: State)
    requires Validation.GraphValid(g) && Acyclic(g)
    requires forall i :: i in g.inputs ==> i.name in inputs
    requires TraceOk(g, st) && OutputsKept(st)
    ensures StepOf(g, inputs, handler, st).Stopped? ==>
      StepOf(g, inputs, handler, st).err.HandlerNotSplit? &&
      exists n :: n in g.nodes && !SplitsInTwo(n.entrypoint.handler)
  {
    var remaining := Remaining(g.nodes, st.done);
    if remaining != [] {
      PickProgress(g, inputs, st);
      var p := PickReady(remaining, inputs, st.done);
      assert p.node in remaining;
      assert p.node in g.nodes;
    }
  }

  lemma {:induction false} ScheduleProgress(g: Graph, inputs: Values, handler: Handler, st: State)
    requires Validation.GraphValid(g) && Acyclic(g)
    requires forall i :: i in g.inputs ==> i.name in inputs
    requires KeepsOutputs(handler) && TraceOk(g, st) && OutputsKept(st)
    ensures Schedule(g, inputs, handler, st).Success? || Schedule(g, inputs, handler, st).error.HandlerNotSplit?
    ensures (forall n :: n in g.nodes ==> SplitsInTwo(n.entrypoint.handler)) ==> Schedule(g, inputs, handler, st).Success?
    ensures Schedule(g, inputs, handler, st).Success? ==> OutputsKept(Schedule(g, inputs, handler, st).value)
    decreases Pending(g, st.done)
  {
    var r := StepOf(g, inputs, handler, st);
    StepProgress(g, inputs, handler, st);
    if r.Ran? {
      StepTrace(g, inputs, handler, st);
      StepKeeps(g, inputs, handler, st);
      ScheduleProgress(g, inputs, handler, r.next);
    }
  }

  /** In a valid graph, once every node has run, every graph output can be read. */
  lemma OutputsAvailable(g: Graph, inputs: Values, st: State)
    requires Validation.GraphValid(g)
    requires forall i :: i in g.inputs ==> i.name in inputs
    requires TraceOk(g, st) && OutputsKept(st)
    requires forall n :: n in g.nodes ==> n.name in st.done
    ensures forall o :: o in g.outputs ==> Available(o.source, inputs, st.done)
  {
    Validation.GraphValidMeans(g);
    forall o | o in g.outputs ensures Available(o.source, inputs, st.done) {
      GraphInputSupplied(g, inputs, o.source, o.iotype);
      if o.source.node.Some? {
        NodeSourceResolves(g, inputs, st, o.source, o.iotype);
      }
    }
  }

  /** A schedule of a valid graph that finishes leaves every graph output collectable. */
  lemma ScheduleCollects(g: Graph, inputs: Values, handler: Handler, st: State)
    requires Validation.GraphValid(g) && Acyclic(g)
    requires forall i :: i in g.inputs ==> i.name in inputs
    requires KeepsOutputs(handler) && TraceOk(g, st) && OutputsKept(st)
    ensures Schedule(g, inputs, handler, st).Success? ==>
      CollectOutputs(g.outputs, inputs, Schedule(g, inputs, handler, st).value.done, map[]).Success?
  {
    ScheduleProgress(g, inputs, handler, st);
    ScheduleTrace(g, inputs, handler, st);
    var sch := Schedule(g, inputs, handler, st);
    if sch.Success? {
      OutputsAvailable(g, inputs, sch.value);
      CollectOutputsOk(g.outputs, inputs, sch.value.done, map[]);
    }
  }

  lemma ValidGraphRuns(g: Graph, inputs: Values, handler: Handler, tmp: nat)
    requires Validation.GraphValid(g) && Acyclic(g)
    requires forall i :: i in g.inputs ==> i.name in inputs
    requires KeepsOutputs(handler)
    ensures ExecuteSpec(g, inputs, handler, tmp).Success? || ExecuteSpec(g, inputs, handler, tmp).error.HandlerNotSplit?
    ensures (forall n :: n in g.nodes ==> SplitsInTwo(n.entrypoint.handler)) ==> ExecuteSpec(g, inputs, handler, tmp).Success?
  {
    var st0 := State(map[], tmp, []);
    assert TraceOk(g, st0);
    ScheduleProgress(g, inputs, handler, st0);
    ScheduleCollects(g, inputs, handler, st0);
    var sch := Schedule(g, inputs, handler, st0);
    assert FirstMissing(g.inputs, inputs).None?;
    if sch.Success? {
      assert ExecuteSpec(g, inputs, handler, tmp) == CollectOutputs(g.outputs, inputs, sch.value.done, map[]);
    } else {
      assert ExecuteSpec(g, inputs, handler, tmp) == Failure(sch.error);
    }
  }

  /** `InprocBackend.execute`: flatten the graph, then run it. */
  method Execute(p: Package, name: string, inputs: Values, handler: Handler, tmp: nat)
    returns (r: Result<Values, ExecError>)
    requires Flatten.WellNested(p, name)
    ensures Flatten.FlattenOk(p, name) ==> r == ExecuteSpec(Flatten.Inline(p, name), inputs, handler, tmp)
    ensures !Flatten.FlattenOk(p, name) <==> r.Failure? && r.error.FlattenFailed?
    ensures r.Failure? && r.error.FlattenFailed? ==> Flatten.FlattenError(p, name, r.error.cause)
    ensures (Flatten.FlattenOk(p, name) && KeepsOutputs(handler) && Acyclic(Flatten.Inline(p, name)) &&
             (forall i :: i in Flatten.Inline(p, name).inputs ==> i.name in inputs)) ==>
      r.Success? || r.error.HandlerNotSplit?
  {
    var flat := Flatten.FlattenGraph(p, name, true);
    if flat.Failure? {
      return Failure(FlattenFailed(flat.error));
    }
    r := ExecuteGraph(flat.value, inputs, handler, tmp);
    assert KeepsOutputs(handler) && Acyclic(flat.value) && (forall i :: i in flat.value.inputs ==> i.name in inputs) ==>
      r.Success? || r.error.HandlerNotSplit? by {
      if KeepsOutputs(handler) && Acyclic(flat.value) && (forall i :: i in flat.value.inputs ==> i.name in inputs) {
        ValidGraphRuns(flat.value, inputs, handler, tmp);
      }
    }
  }

  /** A package holding only the graph in which node `b` feeds itself. */
  function SelfLoopPackage(): Package {
    Package([SelfLoopGraph()])
  }

  /**
   * The acyclicity hypothesis of `Execute` is needed: the self-loop graph flattens (its
   * validation accepts it), and the loop then stops with "could not finish", since
   * neither node ever binds.
   */
  lemma SelfLoopCouldNotFinish(handler: Handler, tmp: nat)
    ensures Flatten.WellNested(SelfLoopPackage(), "g")
    ensures Flatten.FlattenOk(SelfLoopPackage(), "g") && Flatten.Inline(SelfLoopPackage(), "g") == SelfLoopGraph()
    ensures ExecuteSpec(SelfLoopGraph(), map[], handler, tmp) == Failure(CouldNotFinish)
  {
    var p := SelfLoopPackage();
    var g := SelfLoopGraph();
    FindByNameFirst(p.graphs, GraphName, "g", 0);
    Flatten.FlattenLeaf(p, g);
    Validation.GraphValidAcceptsCycle();
    var a, b := g.nodes[0], g.nodes[1];
    assert Remaining(g.nodes, map[]) == [a, b] by {
      assert Remaining(g.nodes[1..][1..], map[]) == [];
    }
    assert BindInputs(a.inputs, map[], map[], map[]) == Blocked;
    assert BindInputs(b.inputs, map[], map[], map[]) == Blocked;
    assert PickReady([a, b], map[], map[]) == NoneReady by {
      assert [a, b][1..] == [b];
      assert PickReady([b][1..], map[], map[]) == NoneReady;
    }
    assert FirstMissing(g.inputs, map[]).None?;
  }
}
