/**
 * The pure parts of the `dockerize` command: rebasing the PYTHONPATH entries of the build
 * context onto the image's work directory, pinning the conda dependencies named in the
 * environment's history to the versions of the full export, and giving every entrypoint
 * without an image the image just built.
 *
 * Paths are modelled by their resolved parts (`resolve` stands for
 * `pathlib.Path(p).resolve().parts`); the conda documents are already parsed.
 */
module Dockerize {
  import opened Wrappers
  import opened Strings
  import opened Pir

  datatype DockerizeError = OutsideContext(path: string, context: string)

  /** `pathlib.Path(base).joinpath(*parts).as_posix()` for relative parts. */
  function JoinPath(base: string, parts: seq<string>): string
    decreases |parts|
  {
    if parts == [] then base else JoinPath(base, parts[..|parts| - 1]) + "/" + parts[|parts| - 1]
  }

  /** `sep.join(items)`. */
  function Join(sep: string, items: seq<string>): string
    decreases |items|
  {
    if items == [] then ""
    else if |items| == 1 then items[0]
    else items[0] + sep + Join(sep, items[1..])
  }

  /** The parts of the context are a prefix of the parts of `abs`. */
  predicate Inside(host: seq<string>, abs: seq<string>) {
    |host| <= |abs| && host == abs[..|host|]
  }

  /** The path inside the image of a host path inside the context. */
  function Rebase(host: seq<string>, abs: seq<string>, workdir: string): (p: string)
    requires Inside(host, abs)
  {
    JoinPath(workdir, abs[|host|..])
  }

  /** The entries that are not empty, in order. */
  function NonEmpty(entries: seq<string>): (r: seq<string>)
    ensures |r| <= |entries|
    ensures forall e :: e in r <==> e in entries && e != ""
    decreases |entries|
  {
    if entries == [] then []
    else if entries[0] == "" then NonEmpty(entries[1..])
    else [entries[0]] + NonEmpty(entries[1..])
  }

  /**
   * `_infer_pythonpath` before the final join: the rebased non-empty entries, in order, or
   * the exit naming the first non-empty entry outside the context.
   */
  function Pythonpath(host: seq<string>, context: string, entries: seq<string>, resolve: string -> seq<string>,
                      workdir: string): (r: Result<seq<string>, DockerizeError>)
    ensures r.Success? <==> forall e :: e in entries && e != "" ==> Inside(host, resolve(e))
    ensures r.Success? ==> |r.value| == |NonEmpty(entries)|
    ensures r.Success? ==> forall i :: 0 <= i < |r.value| ==>
      Inside(host, resolve(NonEmpty(entries)[i])) &&
      r.value[i] == Rebase(host, resolve(NonEmpty(entries)[i]), workdir)
    ensures r.Failure? ==> exists k :: (0 <= k < |entries| && FirstOutside(host, entries, resolve, k) &&
                                        r.error == OutsideContext(entries[k], context))
    decreases |entries|
  {
    if entries == [] then Success([])
    else
      var e := entries[0];
      var rest := Pythonpath(host, context, entries[1..], resolve, workdir);
      if e == "" then
        assert forall j :: 0 <= j < |entries[1..]| ==> entries[1..][j] == entries[j + 1];
        rest
      else if !Inside(host, resolve(e)) then
        assert FirstOutside(host, entries, resolve, 0);
        Failure(OutsideContext(e, context))
      else
        assert forall j :: 0 <= j < |entries[1..]| ==> entries[1..][j] == entries[j + 1];
        Prepend([Rebase(host, resolve(e), workdir)], rest)
  }

  /** Entry `k` is the first non-empty entry outside the context. */
  predicate FirstOutside(host: seq<string>, entries: seq<string>, resolve: string -> seq<string>, k: nat)
    requires k < |entries|
  {
    && entries[k] != "" && !Inside(host, resolve(entries[k]))
    && forall j :: 0 <= j < k ==> entries[j] == "" || Inside(host, resolve(entries[j]))
  }

  /** The paths collected so far, in front of what the remaining entries give. */
  function Prepend(ps: seq<string>, r: Result<seq<string>, DockerizeError>): Result<seq<string>, DockerizeError> {
    if r.Success? then Success(ps + r.value) else r
  }

  lemma PrependNothing(r: Result<seq<string>, DockerizeError>)
    ensures Prepend([], r) == r
  {
    if r.Success? {
      assert [] + r.value == r.value;
    }
  }

  lemma PrependTwice(ps: seq<string>, p: string, r: Result<seq<string>, DockerizeError>)
    ensures Prepend(ps, Prepend([p], r)) == Prepend(ps + [p], r)
  {
    if r.Success? {
      assert ps + ([p] + r.value) == (ps + [p]) + r.value;
    }
  }

  /** `_infer_pythonpath`: the rebased entries joined with the path separator `:`. */
  method InferPythonpath(host: seq<string>, context: string, entries: seq<string>, resolve: string -> seq<string>,
                         workdir: string) returns (r: Result<string, DockerizeError>)
    ensures Pythonpath(host, context, entries, resolve, workdir).Success? ==>
      r == Success(Join(":", Pythonpath(host, context, entries, resolve, workdir).value))
    ensures Pythonpath(host, context, entries, resolve, workdir).Failure? ==>
      r == Failure(Pythonpath(host, context, entries, resolve, workdir).error)
  {
    var paths: seq<string> := [];
    assert entries[0..] == entries;
    PrependNothing(Pythonpath(host, context, entries, resolve, workdir));
    for idx := 0 to |entries|
      invariant Pythonpath(host, context, entries, resolve, workdir) ==
        Prepend(paths, Pythonpath(host, context, entries[idx..], resolve, workdir))
    {
      var path := entries[idx];
      assert entries[idx..][1..] == entries[idx + 1..];
      if path == "" {
        continue;
      }
      var abspath := resolve(path);
      if |host| <= |abspath| && host == abspath[..|host|] {
        var relparts := abspath[|host|..];
        PrependTwice(paths, JoinPath(workdir, relparts), Pythonpath(host, context, entries[idx + 1..], resolve, workdir));
        paths := paths + [JoinPath(workdir, relparts)];
      } else {
        return Failure(OutsideContext(path, context));
      }
    }
    assert entries[|entries|..] == [];
    assert Pythonpath(host, context, [], resolve, workdir) == Success([]);
    assert paths + [] == paths;
    return Success(Join(":", paths));
  }

  /** An entry that resolves to the context itself maps to the work directory itself. */
  lemma PythonpathContextItself(host: seq<string>, context: string, e: string, resolve: string -> seq<string>,
                                workdir: string)
    requires e != "" && resolve(e) == host
    ensures Pythonpath(host, context, [e], resolve, workdir) == Success([workdir])
  {
    assert host[..|host|] == host;
    assert resolve(e)[|host|..] == [];
    assert [e][1..] == [];
    assert Pythonpath(host, context, [], resolve, workdir) == Success([]);
    assert Rebase(host, resolve(e), workdir) == workdir;
    assert [workdir] + [] == [workdir];
  }

  /** An entry below the context maps to the work directory followed by the remaining parts. */
  lemma RebaseBelow(host: seq<string>, rel: seq<string>, workdir: string)
    ensures Inside(host, host + rel)
    ensures Rebase(host, host + rel, workdir) == JoinPath(workdir, rel)
  {
    assert (host + rel)[..|host|] == host;
    assert (host + rel)[|host|..] == rel;
  }

  /** An entry of the conda environment: a package specification, a nested table, or anything else. */
  datatype Dependency =
    | Spec(text: string)
    | Table(keys: set<string>, body: nat)
    | Other(body: nat)

  /** The text a pinned specification must start with: up to and including the first `=`, or all of it. */
  function PinPrefix(dep: string): (p: string)
    ensures p <= dep
    ensures '=' !in dep ==> p == dep
    ensures '=' in dep ==> |p| > 0 && p[|p| - 1] == '=' && '=' !in p[..|p| - 1]
  {
    match FirstIndex(dep, '=')
    case None => dep
    case Some(i) =>
      assert dep[..i + 1][..i] == dep[..i];
      dep[..i + 1]
  }

  /** Entry `k` of `full` is the first specification that starts with `prefix`. */
  predicate FirstWithPrefix(full: seq<Dependency>, prefix: string, k: nat)
    requires k < |full|
  {
    && full[k].Spec? && prefix <= full[k].text
    && forall j :: 0 <= j < k ==> !(full[j].Spec? && prefix <= full[j].text)
  }

  /**
   * A history entry after pinning: a specification is replaced by the first specification
   * of the full export that starts with its prefix; anything else is unchanged.
   */
  function Pinned(dep: Dependency, full: seq<Dependency>): (r: Dependency)
    ensures !dep.Spec? ==> r == dep
    ensures dep.Spec? ==> forall k :: 0 <= k < |full| && FirstWithPrefix(full, PinPrefix(dep.text), k) ==> r == full[k]
    ensures dep.Spec? && (forall k :: 0 <= k < |full| ==> !(full[k].Spec? && PinPrefix(dep.text) <= full[k].text)) ==> r == dep
    ensures dep.Spec? ==> r.Spec? && PinPrefix(dep.text) <= r.text
  {
    if !dep.Spec? then dep else PinnedFrom(dep, full, PinPrefix(dep.text), 0)
  }

  /** The search for the first match from position `k` on. */
  function PinnedFrom(dep: Dependency, full: seq<Dependency>, prefix: string, k: nat): (r: Dependency)
    requires k <= |full| && dep.Spec? && prefix <= dep.text
    requires forall j :: 0 <= j < k ==> !(full[j].Spec? && prefix <= full[j].text)
    ensures forall m :: k <= m < |full| && FirstWithPrefix(full, prefix, m) ==> r == full[m]
    ensures (forall m :: k <= m < |full| ==> !(full[m].Spec? && prefix <= full[m].text)) ==> r == dep
    ensures r.Spec? && prefix <= r.text
    decreases |full| - k
  {
    if k == |full| then dep
    else if full[k].Spec? && prefix <= full[k].text then
      assert FirstWithPrefix(full, prefix, k);
      full[k]
    else PinnedFrom(dep, full, prefix, k + 1)
  }

  /** The `pip` tables of the full export, in order. */
  function PipTables(full: seq<Dependency>): (r: seq<Dependency>)
    ensures forall d :: d in r <==> d in full && d.Table? && "pip" in d.keys
    decreases |full|
  {
    if full == [] then []
    else
      var front := PipTables(full[..|full| - 1]);
      var d := full[|full| - 1];
      assert full == full[..|full| - 1] + [d];
      if d.Table? && "pip" in d.keys then front + [d] else front
  }

  /** The merge at the end of `_infer_conda_env`: the pinned history, then the `pip` tables. */
  function CondaDependencies(hist: seq<Dependency>, full: seq<Dependency>): seq<Dependency> {
    seq(|hist|, i requires 0 <= i < |hist| => Pinned(hist[i], full)) + PipTables(full)
  }

  /** The pinning loop: the first full entry starting with the prefix, found by a scan with `break`. */
  method FirstPinned(prefix: string, full: seq<Dependency>) returns (r: Option<string>)
    ensures r.None? <==> forall k :: 0 <= k < |full| ==> !(full[k].Spec? && prefix <= full[k].text)
    ensures r.Some? ==> exists k :: 0 <= k < |full| && FirstWithPrefix(full, prefix, k) && full[k] == Spec(r.value)
  {
    for k := 0 to |full|
      invariant forall j :: 0 <= j < k ==> !(full[j].Spec? && prefix <= full[j].text)
    {
      if full[k].Spec? && prefix <= full[k].text {
        assert FirstWithPrefix(full, prefix, k);
        return Some(full[k].text);
      }
    }
    return None;
  }

  /** One round of the pinning loop: a specification takes its first match, if any. */
  method PinEntry(dep: Dependency, full: seq<Dependency>) returns (r: Dependency)
    ensures r == Pinned(dep, full)
  {
    r := dep;
    if !dep.Spec? {
      return;
    }
    var prefix := PinPrefix(dep.text);
    var found := FirstPinned(prefix, full);
    if found.Some? {
      r := Spec(found.value);
    }
  }

  /** The pinning loop of `_infer_conda_env` (186-196): each history entry is replaced in place. */
  method PinHistory(hist: seq<Dependency>, full: seq<Dependency>) returns (deps: seq<Dependency>)
    ensures |deps| == |hist|
    ensures forall i :: 0 <= i < |hist| ==> deps[i] == Pinned(hist[i], full)
  {
    deps := hist;
    for idx := 0 to |hist|
      invariant |deps| == |hist|
      invariant forall i :: 0 <= i < idx ==> deps[i] == Pinned(hist[i], full)
      invariant deps[idx..] == hist[idx..]
    {
      assert deps[idx] == hist[idx..][0];
      var pinned := PinEntry(deps[idx], full);
      deps := deps[idx := pinned];
    }
  }

  /** `_infer_conda_env` from 186 on: pin the history, then append the `pip` tables of the full export. */
  method InferCondaDependencies(hist: seq<Dependency>, full: seq<Dependency>) returns (deps: seq<Dependency>)
    ensures deps == CondaDependencies(hist, full)
  {
    deps := PinHistory(hist, full);
    ghost var pinned := deps;
    for k := 0 to |full|
      invariant deps == pinned + PipTables(full[..k])
    {
      assert full[..k + 1][..k] == full[..k];
      if full[k].Table? && "pip" in full[k].keys {
        deps := deps + [full[k]];
      }
    }
    assert full[..|full|] == full;
    assert pinned == seq(|hist|, i requires 0 <= i < |hist| => Pinned(hist[i], full));
  }

  /**
   * A name without a version is matched by any specification that merely starts with it:
   * `numpy` takes the pin of `numpy-base` when that comes first.
   */
  lemma PinMatchesLongerName()
    ensures Pinned(Spec("numpy"), [Spec("numpy-base=1.21.5"), Spec("numpy=1.21.5")]) == Spec("numpy-base=1.21.5")
  {
    var full := [Spec("numpy-base=1.21.5"), Spec("numpy=1.21.5")];
    assert "numpy" <= full[0].text;
    assert FirstWithPrefix(full, "numpy", 0);
  }

  /** A pinned name with a version keeps its name: the result starts with the text up to the first `=`. */
  lemma PinKeepsName(dep: Dependency, full: seq<Dependency>)
    requires dep.Spec? && '=' in dep.text
    ensures Pinned(dep, full).Spec?
    ensures var p := PinPrefix(dep.text); p <= Pinned(dep, full).text && p[|p| - 1] == '='
  {
  }

  /** The image an entrypoint has after the fill-in: its own, or the one just built. */
  function WithImage(ep: Entrypoint, image: string): (r: Entrypoint)
    ensures r.image.Some?
    ensures ep.image.Some? ==> r == ep
    ensures ep.image.None? ==> r == ep.(image := Some(image))
  {
    if ep.image.None? then ep.(image := Some(image)) else ep
  }

  function FilledNode(n: Node, image: string): Node {
    n.(entrypoint := WithImage(n.entrypoint, image))
  }

  function FilledGraph(g: Graph, image: string): Graph {
    g.(nodes := seq(|g.nodes|, j requires 0 <= j < |g.nodes| => FilledNode(g.nodes[j], image)))
  }

  /** The package after the fill-in loop. */
  function Filled(pkg: Package, image: string): (r: Package)
    ensures |r.graphs| == |pkg.graphs|
    ensures forall i :: 0 <= i < |pkg.graphs| ==> r.graphs[i] == FilledGraph(pkg.graphs[i], image)
  {
    Package(seq(|pkg.graphs|, i requires 0 <= i < |pkg.graphs| => FilledGraph(pkg.graphs[i], image)))
  }

  /**
   * After the fill-in every entrypoint has an image, those that had one keep it, and
   * nothing but entrypoint images changes.
   */
  lemma FilledImages(pkg: Package, image: string, i: nat, j: nat)
    requires i < |pkg.graphs| && j < |pkg.graphs[i].nodes|
    ensures var g := Filled(pkg, image).graphs[i];
      && g.(nodes := pkg.graphs[i].nodes) == pkg.graphs[i]
      && |g.nodes| == |pkg.graphs[i].nodes|
      && g.nodes[j].(entrypoint := pkg.graphs[i].nodes[j].entrypoint) == pkg.graphs[i].nodes[j]
      && g.nodes[j].entrypoint.image.Some?
      && (pkg.graphs[i].nodes[j].entrypoint.image.Some? ==> g.nodes[j] == pkg.graphs[i].nodes[j])
  {
    var g := pkg.graphs[i];
    assert Filled(pkg, image).graphs[i].nodes[j] == FilledNode(g.nodes[j], image);
  }

  /** A second fill-in, with any image, changes nothing. */
  lemma FillIdempotent(pkg: Package, image: string, image2: string)
    ensures Filled(Filled(pkg, image), image2) == Filled(pkg, image)
  {
    var once := Filled(pkg, image);
    forall i | 0 <= i < |pkg.graphs| ensures FilledGraph(once.graphs[i], image2) == once.graphs[i] {
      var g := once.graphs[i];
      forall j | 0 <= j < |g.nodes| ensures FilledNode(g.nodes[j], image2) == g.nodes[j] {
        assert g.nodes[j] == FilledNode(pkg.graphs[i].nodes[j], image);
      }
      assert FilledGraph(g, image2).nodes == g.nodes;
    }
    assert Filled(once, image2).graphs == once.graphs;
  }

  /** The fill-in loop of `_dockerize_handler`: each entrypoint without an image gets `image`. */
  method FillImages(pkg: Package, image: string) returns (r: Package)
    ensures r == Filled(pkg, image)
  {
    var graphs := pkg.graphs;
    for i := 0 to |graphs|
      invariant |graphs| == |pkg.graphs|
      invariant forall k :: 0 <= k < i ==> graphs[k] == FilledGraph(pkg.graphs[k], image)
      invariant forall k :: i <= k < |graphs| ==> graphs[k] == pkg.graphs[k]
    {
      var nodes := graphs[i].nodes;
      for j := 0 to |nodes|
        invariant |nodes| == |pkg.graphs[i].nodes|
        invariant forall k :: 0 <= k < j ==> nodes[k] == FilledNode(pkg.graphs[i].nodes[k], image)
        invariant forall k :: j <= k < |nodes| ==> nodes[k] == pkg.graphs[i].nodes[k]
      {
        var ep := nodes[j].entrypoint;
        if ep.image.None? {
          nodes := nodes[j := nodes[j].(entrypoint := ep.(image := Some(image)))];
        }
      }
      assert nodes == FilledGraph(pkg.graphs[i], image).nodes;
      graphs := graphs[i := graphs[i].(nodes := nodes)];
    }
    assert graphs == Filled(pkg, image).graphs;
    r := Package(graphs);
  }
}
