/**
 * The Argo Workflows backend: the sanitised names Argo accepts, the textual rewrite of the
 * generated YAML, and the workflow `generate` assembles for the first graph of a package:
 * one container template per node, one for the graph, and a DAG with one task per
 * template.
 *
 * Command payloads (pickled, base64-encoded values) and the NFS server and paths of the
 * volumes come from outside the model; a volume is its name, the variable naming its path
 * and whether it is read-only.
 */
module ArgoBatch {
  import opened Wrappers
  import opened Pir

  // ---------------------------------------------------------------------------------
  // Names

  /** `str.isspace` for one character: the Unicode whitespace Python's `strip()` removes. */
  predicate IsSpace(c: char) {
    || ('\U{9}' <= c <= '\U{D}') || ('\U{1C}' <= c <= '\U{20}')
    || c == '\U{85}' || c == '\U{A0}' || c == '\U{1680}'
    || ('\U{2000}' <= c <= '\U{200A}') || c == '\U{2028}' || c == '\U{2029}'
    || c == '\U{202F}' || c == '\U{205F}' || c == '\U{3000}'
  }

  /** The characters of the class `[a-zA-Z0-9]`. */
  predicate AsciiAlnum(c: char) {
    ('a' <= c <= 'z') || ('A' <= c <= 'Z') || ('0' <= c <= '9')
  }

  /** `s` without its leading whitespace. */
  function StripLeft(s: string): (r: string)
    ensures |r| <= |s|
    decreases |s|
  {
    if s != [] && IsSpace(s[0]) then StripLeft(s[1..]) else s
  }

  /** `s` without its trailing whitespace. */
  function StripRight(s: string): (r: string)
    ensures |r| <= |s|
    decreases |s|
  {
    if s != [] && IsSpace(s[|s| - 1]) then StripRight(s[..|s| - 1]) else s
  }

  /** `s.strip()`. */
  function Strip(s: string): string {
    StripRight(StripLeft(s))
  }

  /** `lstrip` keeps a suffix of `s`. */
  lemma {:induction false} StripLeftSuffix(s: string)
    ensures StripLeft(s) == s[|s| - |StripLeft(s)|..]
    decreases |s|
  {
    if s != [] && IsSpace(s[0]) {
      StripLeftSuffix(s[1..]);
      assert s[1..][|s| - 1 - |StripLeft(s)|..] == s[|s| - |StripLeft(s)|..];
    }
  }

  /** `rstrip` keeps a prefix of `s`. */
  lemma {:induction false} StripRightPrefix(s: string)
    ensures StripRight(s) == s[..|StripRight(s)|]
    decreases |s|
  {
    if s != [] && IsSpace(s[|s| - 1]) {
      StripRightPrefix(s[..|s| - 1]);
      assert s[..|s| - 1][..|StripRight(s)|] == s[..|StripRight(s)|];
    }
  }

  /** `lstrip` removes only whitespace, and all of the leading whitespace. */
  lemma {:induction false} StripLeftSpaces(s: string)
    ensures forall i :: 0 <= i < |s| - |StripLeft(s)| ==> IsSpace(s[i])
    ensures StripLeft(s) != [] ==> !IsSpace(StripLeft(s)[0])
    decreases |s|
  {
    if s != [] && IsSpace(s[0]) {
      StripLeftSpaces(s[1..]);
      forall i | 1 <= i < |s| - |StripLeft(s)| ensures IsSpace(s[i]) {
        assert s[i] == s[1..][i - 1];
      }
    }
  }

  /** `rstrip` removes only whitespace, and all of the trailing whitespace. */
  lemma {:induction false} StripRightSpaces(s: string)
    ensures forall i :: |StripRight(s)| <= i < |s| ==> IsSpace(s[i])
    ensures StripRight(s) != [] ==> !IsSpace(StripRight(s)[|StripRight(s)| - 1])
    decreases |s|
  {
    if s != [] && IsSpace(s[|s| - 1]) {
      StripRightSpaces(s[..|s| - 1]);
      forall i | |StripRight(s)| <= i < |s| - 1 ensures IsSpace(s[i]) {
        assert s[i] == s[..|s| - 1][i];
      }
    }
  }

  /** What `strip()` keeps is a middle slice of `s`; what it removes on either side is whitespace. */
  lemma StripSlice(s: string)
    ensures exists i: nat :: StrippedAt(s, i, Strip(s))
  {
    var left := StripLeft(s);
    var r := StripRight(left);
    var i: nat := |s| - |left|;
    assert StrippedAt(s, i, r) by {
      StripLeftSuffix(s);
      StripRightPrefix(left);
      StripLeftSpaces(s);
      StripRightSpaces(left);
      SliceOfLeft(s, left, r, i);
    }
    assert Strip(s) == r;
  }

  /** The right-stripped part of a suffix of `s` is the slice of what was right-stripped. */
  lemma SliceOfLeft(s: string, left: string, r: string, i: nat)
    requires i + |left| == |s| && left == s[i..]
    requires |r| <= |left| && r == left[..|r|]
    requires forall k :: |r| <= k < |left| ==> IsSpace(left[k])
    ensures r == s[i..i + |r|]
    ensures forall k :: i + |r| <= k < |s| ==> IsSpace(s[k])
  {
    assert s[i..][..|r|] == s[i..i + |r|];
    forall k | i + |r| <= k < |s| ensures IsSpace(s[k]) {
      assert s[k] == left[k - i];
    }
  }

  /** What `strip()` keeps neither starts nor ends with whitespace. */
  lemma StripEnds(s: string)
    ensures Strip(s) != [] ==> !IsSpace(Strip(s)[0]) && !IsSpace(Strip(s)[|Strip(s)| - 1])
  {
    var left := StripLeft(s);
    var r := StripRight(left);
    StripLeftSpaces(s);
    StripRightSpaces(left);
    if r != [] {
      StripRightPrefix(left);
      assert r[0] == left[0];
    }
  }

  /** `r` is `s` from position `i` on, without whitespace removed before `i` or after `r`. */
  predicate StrippedAt(s: string, i: nat, r: string) {
    && i + |r| <= |s| && r == s[i..i + |r|]
    && (forall k :: 0 <= k < i ==> IsSpace(s[k]))
    && (forall k :: i + |r| <= k < |s| ==> IsSpace(s[k]))
  }

  /** A string without whitespace is stripped to itself. */
  lemma StripNoSpace(s: string)
    requires forall i :: 0 <= i < |s| ==> !IsSpace(s[i])
    ensures Strip(s) == s
  {
    assert StripLeft(s) == s;
    assert StripRight(s) == s;
  }

  /** `argo_name`: strip, then every character outside `[a-zA-Z0-9]` becomes `-`. */
  function ArgoName(s: string): (r: string)
    ensures forall i :: 0 <= i < |r| ==> AsciiAlnum(r[i]) || r[i] == '-'
  {
    var t := Strip(s);
    seq(|t|, i requires 0 <= i < |t| => if AsciiAlnum(t[i]) then t[i] else '-')
  }

  /** The Argo name has the stripped name's length: alphanumeric characters stay, the others become `-`. */
  lemma ArgoNameKeeps(s: string)
    ensures |ArgoName(s)| == |Strip(s)|
    ensures forall i :: 0 <= i < |Strip(s)| && AsciiAlnum(Strip(s)[i]) ==> ArgoName(s)[i] == Strip(s)[i]
    ensures forall i :: 0 <= i < |Strip(s)| && !AsciiAlnum(Strip(s)[i]) ==> ArgoName(s)[i] == '-'
  {
    var t := Strip(s);
    assert ArgoName(s) == seq(|t|, i requires 0 <= i < |t| => if AsciiAlnum(t[i]) then t[i] else '-');
  }

  /** A name made only of `[a-zA-Z0-9-]` is its own Argo name. */
  lemma ArgoNameOfArgoName(s: string)
    requires forall i :: 0 <= i < |s| ==> AsciiAlnum(s[i]) || s[i] == '-'
    ensures ArgoName(s) == s
  {
    StripNoSpace(s);
    var r := ArgoName(s);
    assert r == seq(|s|, i requires 0 <= i < |s| => if AsciiAlnum(s[i]) then s[i] else '-');
    assert |r| == |s|;
    forall i | 0 <= i < |s| ensures r[i] == s[i] {
    }
  }

  /** `argo_name` is idempotent, so re-sanitising a template name leaves it as it is. */
  lemma ArgoNameIdempotent(s: string)
    ensures ArgoName(ArgoName(s)) == ArgoName(s)
  {
    ArgoNameOfArgoName(ArgoName(s));
  }

  /** Appending a sanitised suffix commutes with sanitising. */
  lemma ArgoNameAppend(s: string, suffix: string)
    requires forall i :: 0 <= i < |s| ==> AsciiAlnum(s[i]) || s[i] == '-'
    requires forall i :: 0 <= i < |suffix| ==> AsciiAlnum(suffix[i]) || suffix[i] == '-'
    ensures ArgoName(s + suffix) == s + suffix
  {
    ArgoNameOfArgoName(s + suffix);
  }

  // ---------------------------------------------------------------------------------
  // The YAML rewrite

  /** `x` occurs in `s` at position `i`. */
  predicate At(s: string, i: nat, x: string) {
    i + |x| <= |s| && s[i..i + |x|] == x
  }

  /** `x` does not occur in `s`. */
  predicate NoOccurrence(x: string, s: string) {
    forall i: nat :: i <= |s| ==> !At(s, i, x)
  }

  /** `s.replace(pat, rep)` for a non-empty `pat`: left to right, non-overlapping. */
  function Replace(s: string, pat: string, rep: string): string
    requires pat != []
    decreases |s|
  {
    if |s| < |pat| then s
    else if s[..|pat|] == pat then rep + Replace(s[|pat|..], pat, rep)
    else [s[0]] + Replace(s[1..], pat, rep)
  }

  /** Without an occurrence of `pat`, `replace` changes nothing. */
  lemma {:induction false} ReplaceNothing(s: string, pat: string, rep: string)
    requires pat != [] && NoOccurrence(pat, s)
    ensures Replace(s, pat, rep) == s
    decreases |s|
  {
    if |s| >= |pat| {
      assert !At(s, 0, pat);
      assert s[..|pat|] == s[0..0 + |pat|];
      var tail := s[1..];
      forall i: nat ensures !At(tail, i, pat) {
        assert !At(s, i + 1, pat);
        if i + |pat| <= |tail| {
          assert tail[i..i + |pat|] == s[i + 1..i + 1 + |pat|];
        }
      }
      ReplaceNothing(tail, pat, rep);
    }
  }

  /** A prefix of the result that avoids the first character of `rep` is a prefix of the input. */
  lemma {:induction false} PrefixKept(s: string, pat: string, rep: string, w: string)
    requires pat != [] && rep != [] && rep[0] !in w && w <= Replace(s, pat, rep)
    ensures w <= s
    decreases |w|
  {
    if w != [] && |s| >= |pat| {
      assert w[0] in w;
      assert w[0] == Replace(s, pat, rep)[0];
      var rest := Replace(s[1..], pat, rep);
      assert Replace(s, pat, rep) == [s[0]] + rest;
      assert w[1..] <= rest;
      PrefixKept(s[1..], pat, rep, w[1..]);
    }
  }

  /** A window of `a + b` that starts past `a` is a window of `b`. */
  lemma WindowRight(a: string, b: string, i: nat, n: nat)
    requires |a| <= i && i + n <= |a| + |b|
    ensures (a + b)[i..i + n] == b[i - |a|..i - |a| + n]
  {
  }

  /**
   * `w` does not occur in `replace(s, pat, rep)` when it did not occur in `s` (or is `pat`
   * itself), provided no occurrence can start inside `rep` or run into it.
   */
  lemma {:induction false} ReplaceKeepsAbsent(s: string, pat: string, rep: string, w: string)
    requires pat != [] && rep != [] && w != []
    requires w[0] !in rep && rep[0] !in w[1..]
    requires NoOccurrence(w, s) || w == pat
    ensures NoOccurrence(w, Replace(s, pat, rep))
    decreases |s|
  {
    var r := Replace(s, pat, rep);
    if |s| < |pat| {
      if w == pat {
        forall i: nat ensures !At(r, i, w) { }
      }
    } else if s[..|pat|] == pat {
      var tail := s[|pat|..];
      if w != pat {
        forall i: nat ensures !At(tail, i, w) {
          assert !At(s, i + |pat|, w);
          if i + |w| <= |tail| {
            assert tail[i..i + |w|] == s[i + |pat|..i + |pat| + |w|];
          }
        }
      }
      ReplaceKeepsAbsent(tail, pat, rep, w);
      var rest := Replace(tail, pat, rep);
      assert r == rep + rest;
      forall i: nat | i + |w| <= |r| ensures !At(r, i, w) {
        if i < |rep| {
          assert rep[i] in rep;
          assert r[i..i + |w|][0] == rep[i];
        } else {
          WindowRight(rep, rest, i, |w|);
          assert !At(rest, i - |rep|, w);
        }
      }
    } else {
      var tail := s[1..];
      if w != pat {
        forall i: nat ensures !At(tail, i, w) {
          assert !At(s, i + 1, w);
          if i + |w| <= |tail| {
            assert tail[i..i + |w|] == s[i + 1..i + 1 + |w|];
          }
        }
      }
      ReplaceKeepsAbsent(tail, pat, rep, w);
      var rest := Replace(tail, pat, rep);
      assert r == [s[0]] + rest;
      forall i: nat | i + |w| <= |r| ensures !At(r, i, w) {
        if i == 0 {
          StartKept(s, pat, rep, w);
        } else {
          WindowRight([s[0]], rest, i, |w|);
          assert !At(rest, i - 1, w);
        }
      }
    }
  }

  /** Where no match starts, the result starts with `w` only if the input does. */
  lemma StartKept(s: string, pat: string, rep: string, w: string)
    requires pat != [] && rep != [] && w != [] && rep[0] !in w[1..]
    requires |s| >= |pat| && s[..|pat|] != pat
    requires NoOccurrence(w, s) || w == pat
    requires |w| <= |Replace(s, pat, rep)|
    ensures Replace(s, pat, rep)[0..|w|] != w
  {
    var rest := Replace(s[1..], pat, rep);
    var r := Replace(s, pat, rep);
    assert r == [s[0]] + rest;
    var v := r[0..|w|];
    assert v[1..] == rest[..|w| - 1];
    if rep[0] !in v[1..] {
      PrefixKept(s[1..], pat, rep, v[1..]);
      assert At(s, 0, v);
    }
  }

  /** `argo_refactor`: every `true` becomes `yes`, then every `false` becomes `no`. */
  function ArgoRefactor(yaml: string): (r: string)
    ensures NoOccurrence("true", r) && NoOccurrence("false", r)
  {
    var once := Replace(yaml, "true", "yes");
    ReplaceKeepsAbsent(yaml, "true", "yes", "true");
    var twice := Replace(once, "false", "no");
    ReplaceKeepsAbsent(once, "false", "no", "true");
    ReplaceKeepsAbsent(once, "false", "no", "false");
    twice
  }

  /** Text with neither word is left as it is. */
  lemma ArgoRefactorNothing(yaml: string)
    requires NoOccurrence("true", yaml) && NoOccurrence("false", yaml)
    ensures ArgoRefactor(yaml) == yaml
  {
    ReplaceNothing(yaml, "true", "yes");
    ReplaceNothing(yaml, "false", "no");
  }

  /**
   * A node's container mounts a read-only volume for exactly the graph inputs its inputs
   * read, and never the graph outputs.
   */
  lemma NodeVolumes(n: Node, command: string, x: string)
    ensures var vs := Volumes(NodeTemplate(n, command).body);
      && (InputVolume(x) in vs <==> exists k :: 0 <= k < |n.inputs| && Named(n.inputs[k].source.graphInput) &&
                                              x == n.inputs[k].source.graphInput.value)
      && GraphOutputsVolume() !in vs
  {
    var b := NodeTemplate(n, command).body;
    VolumesInputs(b, x);
    VolumesGraphOutputs(b);
    GraphInputsMembers(n.inputs, x);
  }

  /**
   * The graph's container mounts a read-only volume for every graph input, and the
   * graph-outputs volume exactly when the graph has outputs.
   */
  lemma GraphVolumes(g: Graph, command: string, x: string)
    requires g.nodes != []
    ensures var vs := Volumes(GraphTemplate(g, command).value.body);
      && (InputVolume(x) in vs <==> exists k :: 0 <= k < |g.inputs| && x == g.inputs[k].name)
      && (GraphOutputsVolume() in vs <==> g.outputs != [])
  {
    var b := GraphTemplate(g, command).value.body;
    VolumesInputs(b, x);
    VolumesGraphOutputs(b);
    var names := InputNames(g.inputs);
    if x in names {
      var k :| 0 <= k < |names| && names[k] == x;
      assert x == g.inputs[k].name;
    }
    if exists k :: 0 <= k < |g.inputs| && x == g.inputs[k].name {
      var k :| 0 <= k < |g.inputs| && x == g.inputs[k].name;
      assert names[k] == x;
    }
  }

  // ---------------------------------------------------------------------------------
  // The workflow's name

  /** `s.strip(chars)`: drop characters of `chars` from both ends. */
  function StripChars(s: string, chars: set<char>): (r: string)
    ensures |r| <= |s|
    decreases |s|
  {
    if s == [] then s
    else if s[0] in chars then StripChars(s[1..], chars)
    else if s[|s| - 1] in chars then StripChars(s[..|s| - 1], chars)
    else s
  }

  /** The name the workflow is generated under, as written: `parts[-1].strip(".yml")`. */
  function OutputNameAsWritten(file: string): string {
    StripChars(file, {'.', 'y', 'm', 'l'})
  }

  /** The evident intent: the file name without its `.yml` suffix. */
  function OutputName(file: string): (r: string)
    ensures r <= file
  {
    if |file| >= 4 && file[|file| - 4..] == ".yml" then file[..|file| - 4] else file
  }

  /** The intended name gives back the stem of any `.yml` file name. */
  lemma OutputNameStem(stem: string)
    ensures OutputName(stem + ".yml") == stem
  {
    var file := stem + ".yml";
    assert file[|file| - 4..] == ".yml";
    assert file[..|file| - 4] == stem;
  }

  /** A name without the suffix is kept whole. */
  lemma OutputNameNoSuffix(file: string)
    requires !(|file| >= 4 && file[|file| - 4..] == ".yml")
    ensures OutputName(file) == file
  {
  }

  /** `strip(".yml")` removes characters, not the suffix: `my-flow.yml` becomes `-flow`. */
  lemma OutputNameAsWrittenStripsLetters()
    ensures OutputNameAsWritten("my-flow.yml") == "-flow"
    ensures OutputName("my-flow.yml") == "my-flow"
  {
    var chars := {'.', 'y', 'm', 'l'};
    assert "my-flow.yml"[1..] == "y-flow.yml";
    assert "y-flow.yml"[1..] == "-flow.yml";
    assert "-flow.yml"[..8] == "-flow.ym";
    assert "-flow.ym"[..7] == "-flow.y";
    assert "-flow.y"[..6] == "-flow.";
    assert "-flow."[..5] == "-flow";
    assert StripChars("-flow", chars) == "-flow";
    OutputNameStem("my-flow");
  }

  // ---------------------------------------------------------------------------------
  // Templates

  /** An NFS volume: its Argo name, the variable holding its path, and whether it is read-only. */
  datatype Volume = Volume(name: string, pathVar: string, readOnly: bool)

  datatype Mount = Mount(name: string, mountPath: string)

  /**
   * What a template runs: a container, given by its image, its command, the graph inputs
   * whose volumes it mounts and whether it mounts the graph-outputs volume; or the DAG.
   */
  datatype Body =
    | Container(image: Option<string>, command: string, graphInputs: seq<string>, graphOutputs: bool)
    | Dag(tasks: seq<DagTask>)

  datatype Template = Template(name: string, body: Body)

  datatype DagTask = DagTask(name: string, template: string, dependencies: seq<string>)

  datatype Workflow = Workflow(generateName: string, entrypoint: string, templates: seq<Template>)

  datatype ArgoError = NoOutputName | NoGraph | NoNodes

  /** Python truthiness of an optional name. */
  predicate Named(x: Option<string>) {
    x.Some? && x.value != ""
  }

  /** The read-only volume of graph input `x`, and where it is mounted. */
  function InputVolume(x: string): Volume {
    Volume(ArgoName(x), "INPUT_" + x, true)
  }

  function InputMount(x: string): Mount {
    Mount(ArgoName(x), "/mnt/graph_inputs/" + x)
  }

  /** The writable volume of the node outputs, which every container mounts first. */
  function NodeOutputsVolume(): Volume {
    Volume(ArgoName("node_outputs"), "OUTPUT", false)
  }

  /** The writable volume of the graph outputs. */
  function GraphOutputsVolume(): Volume {
    Volume(ArgoName("graph_outputs"), "OUTPUT", false)
  }

  /** The volumes a container declares: node outputs, each graph input, then graph outputs. */
  function Volumes(b: Body): seq<Volume>
    requires b.Container?
  {
    [NodeOutputsVolume()]
    + seq(|b.graphInputs|, k requires 0 <= k < |b.graphInputs| => InputVolume(b.graphInputs[k]))
    + if b.graphOutputs then [GraphOutputsVolume()] else []
  }

  /** The mounts of a container, in the order of its volumes. */
  function Mounts(b: Body): seq<Mount>
    requires b.Container?
  {
    [Mount(ArgoName("node_outputs"), "/mnt/node_outputs")]
    + seq(|b.graphInputs|, k requires 0 <= k < |b.graphInputs| => InputMount(b.graphInputs[k]))
    + if b.graphOutputs then [Mount(ArgoName("graph_outputs"), "/mnt/graph_outputs")] else []
  }

  /** The two writable volumes have different names. */
  lemma OutputVolumesDiffer()
    ensures NodeOutputsVolume() != GraphOutputsVolume()
  {
    StripNoSpace("node_outputs");
    StripNoSpace("graph_outputs");
    ArgoNameKeeps("node_outputs");
    ArgoNameKeeps("graph_outputs");
  }

  /** The volumes of a container, position by position. */
  lemma VolumesAt(b: Body)
    requires b.Container?
    ensures |Mounts(b)| == |Volumes(b)| == 1 + |b.graphInputs| + (if b.graphOutputs then 1 else 0)
    ensures Volumes(b)[0] == NodeOutputsVolume()
    ensures forall k :: 0 <= k < |b.graphInputs| ==> Volumes(b)[k + 1] == InputVolume(b.graphInputs[k])
    ensures b.graphOutputs ==> Volumes(b)[|Volumes(b)| - 1] == GraphOutputsVolume()
  {
    MountsLength(b);
  }

  lemma MountsLength(b: Body)
    requires b.Container?
    ensures |Mounts(b)| == 1 + |b.graphInputs| + (if b.graphOutputs then 1 else 0)
  {
  }

  /**
   * A container has one mount per volume, and the graph-outputs volume is among its volumes
   * exactly when the container mounts the graph outputs.
   */
  lemma VolumesGraphOutputs(b: Body)
    requires b.Container?
    ensures |Mounts(b)| == |Volumes(b)|
    ensures GraphOutputsVolume() in Volumes(b) <==> b.graphOutputs
  {
    VolumesAt(b);
    OutputVolumesDiffer();
    var vs := Volumes(b);
    if !b.graphOutputs {
      forall k | 0 <= k < |vs| ensures vs[k] != GraphOutputsVolume() {
        if k > 0 {
          assert vs[k].readOnly;
        }
      }
    }
  }

  /** Graph inputs are told apart by the variable holding their path. */
  lemma InputVolumeInjective(x: string, y: string)
    requires InputVolume(x) == InputVolume(y)
    ensures x == y
  {
    assert ("INPUT_" + x)[6..] == x && ("INPUT_" + y)[6..] == y;
  }

  /** A container has a read-only volume for a graph input exactly when it lists that input. */
  lemma VolumesInputs(b: Body, x: string)
    requires b.Container?
    ensures InputVolume(x) in Volumes(b) <==> x in b.graphInputs
  {
    if InputVolume(x) in Volumes(b) {
      VolumeOfListedInput(b, x);
    }
    if x in b.graphInputs {
      ListedInputHasVolume(b, x);
    }
  }

  lemma VolumeOfListedInput(b: Body, x: string)
    requires b.Container? && InputVolume(x) in Volumes(b)
    ensures x in b.graphInputs
  {
    VolumesAt(b);
    var vs := Volumes(b);
    var gi := b.graphInputs;
    var k :| 0 <= k < |vs| && vs[k] == InputVolume(x);
    assert 1 <= k <= |gi| by {
      assert vs[k].readOnly;
    }
    InputVolumeInjective(gi[k - 1], x);
  }

  lemma ListedInputHasVolume(b: Body, x: string)
    requires b.Container? && x in b.graphInputs
    ensures InputVolume(x) in Volumes(b)
  {
    VolumesAt(b);
    var gi := b.graphInputs;
    var j :| 0 <= j < |gi| && gi[j] == x;
    assert Volumes(b)[j + 1] == InputVolume(x);
  }

  /** The graph inputs named by the inputs of a node, in input order. */
  function GraphInputsOf(inputs: seq<Input>): (r: seq<string>)
    ensures |r| <= |inputs|
    decreases |inputs|
  {
    if inputs == [] then []
    else
      var front := GraphInputsOf(inputs[..|inputs| - 1]);
      var src := inputs[|inputs| - 1].source;
      if Named(src.graphInput) then front + [src.graphInput.value] else front
  }

  /** A container mounts exactly the graph inputs named by the node's inputs. */
  lemma {:induction false} GraphInputsMembers(inputs: seq<Input>, x: string)
    ensures x in GraphInputsOf(inputs) <==>
            exists k :: 0 <= k < |inputs| && Named(inputs[k].source.graphInput) && x == inputs[k].source.graphInput.value
    decreases |inputs|
  {
    if inputs != [] {
      var front := inputs[..|inputs| - 1];
      GraphInputsMembers(front, x);
      assert forall k :: 0 <= k < |front| ==> front[k] == inputs[k];
    }
  }

  /**
   * The dependencies of a node template: the Argo name of the producer of each input
   * sourced from a named node, in input order.
   */
  function Dependencies(inputs: seq<Input>): (r: seq<string>)
    ensures |r| <= |inputs|
    decreases |inputs|
  {
    if inputs == [] then []
    else
      var front := Dependencies(inputs[..|inputs| - 1]);
      var src := inputs[|inputs| - 1].source;
      if Named(src.node) then front + [ArgoName(src.node.value)] else front
  }

  /** A node depends exactly on the sanitised names of the nodes its inputs come from. */
  lemma {:induction false} DependenciesMembers(inputs: seq<Input>, d: string)
    ensures d in Dependencies(inputs) <==>
            exists k :: 0 <= k < |inputs| && Named(inputs[k].source.node) && d == ArgoName(inputs[k].source.node.value)
    decreases |inputs|
  {
    if inputs != [] {
      var front := inputs[..|inputs| - 1];
      DependenciesMembers(front, d);
      assert forall k :: 0 <= k < |front| ==> front[k] == inputs[k];
    }
  }

  /** Every dependency is a sanitised name. */
  lemma DependenciesSanitised(inputs: seq<Input>, d: string)
    requires d in Dependencies(inputs)
    ensures ArgoName(d) == d
  {
    DependenciesMembers(inputs, d);
    var k :| 0 <= k < |inputs| && Named(inputs[k].source.node) && d == ArgoName(inputs[k].source.node.value);
    ArgoNameIdempotent(inputs[k].source.node.value);
  }

  /** The template of a node; its dependencies are `Dependencies(n.inputs)`. */
  function NodeTemplate(n: Node, command: string): Template {
    Template(ArgoName(n.name), Container(n.entrypoint.image, command, GraphInputsOf(n.inputs), false))
  }

  /** `create_template_from_node`: the loop over the inputs adding volumes and dependencies. */
  method CreateTemplateFromNode(n: Node, command: string) returns (t: Template, deps: seq<string>)
    ensures t == NodeTemplate(n, command) && deps == Dependencies(n.inputs)
  {
    var graphInputs := [];
    deps := [];
    for k := 0 to |n.inputs|
      invariant graphInputs == GraphInputsOf(n.inputs[..k])
      invariant deps == Dependencies(n.inputs[..k])
    {
      var inp := n.inputs[k];
      assert n.inputs[..k + 1][..k] == n.inputs[..k];
      if inp.source.graphInput.Some? && inp.source.graphInput.value != "" {
        graphInputs := graphInputs + [inp.source.graphInput.value];
      }
      if inp.source.node.Some? && inp.source.node.value != "" {
        deps := deps + [ArgoName(inp.source.node.value)];
      }
    }
    assert n.inputs[..|n.inputs|] == n.inputs;
    t := Template(ArgoName(n.name), Container(n.entrypoint.image, command, graphInputs, false));
  }

  function InputNames(inputs: seq<GraphInput>): seq<string> {
    seq(|inputs|, k requires 0 <= k < |inputs| => inputs[k].name)
  }

  /**
   * `create_template_from_graph`: the first node's image, a volume per graph input, and the
   * graph-outputs volume when the graph has outputs; without nodes, `nodes[0]` raises.
   */
  function GraphTemplate(g: Graph, command: string): (r: Result<Template, ArgoError>)
    ensures r.Failure? <==> g.nodes == []
    ensures r.Success? ==> r.value.name == ArgoName(g.name) && r.value.body.Container?
    ensures r.Success? ==> r.value.body.image == g.nodes[0].entrypoint.image
    ensures r.Success? ==> r.value.body.graphInputs == InputNames(g.inputs)
    ensures r.Success? ==> (r.value.body.graphOutputs <==> g.outputs != [])
  {
    if g.nodes == [] then Failure(NoNodes)
    else Success(Template(ArgoName(g.name), Container(g.nodes[0].entrypoint.image, command, InputNames(g.inputs), g.outputs != [])))
  }

  // ---------------------------------------------------------------------------------
  // The workflow

  /** A template with `-template` appended to its name. */
  function Suffixed(t: Template): Template {
    t.(name := t.name + "-template")
  }

  /** The DAG task of a template named `name` with its dependencies. */
  function TaskOf(name: string, deps: seq<string>): DagTask {
    DagTask(name, name + "-template", seq(|deps|, k requires 0 <= k < |deps| => ArgoName(deps[k])))
  }

  /** The names of templates, in order. */
  function TemplateNames(ts: seq<Template>): seq<string> {
    seq(|ts|, k requires 0 <= k < |ts| => ts[k].name)
  }

  /** The template of each node, in graph order. */
  function NodeTemplatesOf(nodes: seq<Node>, command: Node -> string): seq<Template> {
    seq(|nodes|, k requires 0 <= k < |nodes| => NodeTemplate(nodes[k], command(nodes[k])))
  }

  /** The dependencies of each node, in graph order. */
  function DependenciesOf(nodes: seq<Node>): seq<seq<string>> {
    seq(|nodes|, k requires 0 <= k < |nodes| => Dependencies(nodes[k].inputs))
  }

  /** Every template with `-template` appended to its name. */
  function SuffixedAll(ts: seq<Template>): seq<Template> {
    seq(|ts|, k requires 0 <= k < |ts| => Suffixed(ts[k]))
  }

  /** One task per template, with that template's dependencies. */
  function TasksOf(ts: seq<Template>, deps: seq<seq<string>>): seq<DagTask>
    requires |deps| == |ts|
  {
    seq(|ts|, k requires 0 <= k < |ts| => TaskOf(ts[k].name, deps[k]))
  }

  /**
   * The workflow `generate` writes for a package, given the output file's name, the node
   * commands and the graph command; the graph's template depends on every node's.
   */
  function WorkflowOf(pkg: Package, file: string, command: Node -> string, graphCommand: string)
    : Result<Workflow, ArgoError>
  {
    if pkg.graphs == [] then Failure(NoGraph)
    else
      var g := pkg.graphs[0];
      match GraphTemplate(g, graphCommand)
      case Failure(e) => Failure(e)
      case Success(gt) =>
        var nts := NodeTemplatesOf(g.nodes, command);
        var all := nts + [gt];
        var tasks := TasksOf(all, DependenciesOf(g.nodes) + [TemplateNames(nts)]);
        var dagName := ArgoName("DAG-" + g.name);
        Success(Workflow(OutputNameAsWritten(file) + "-", dagName, SuffixedAll(all) + [Template(dagName, Dag(tasks))]))
  }

  /** The task of each template names it and carries its dependencies, sanitised. */
  lemma TasksShape(ts: seq<Template>, deps: seq<seq<string>>)
    requires |deps| == |ts|
    requires forall k, d :: 0 <= k < |ts| && d in deps[k] ==> ArgoName(d) == d
    ensures |TasksOf(ts, deps)| == |SuffixedAll(ts)| == |ts|
    ensures forall k :: 0 <= k < |ts| ==>
      && TasksOf(ts, deps)[k].template == SuffixedAll(ts)[k].name
      && TasksOf(ts, deps)[k].name == ts[k].name
      && TasksOf(ts, deps)[k].dependencies == deps[k]
  {
    forall k | 0 <= k < |ts| ensures TasksOf(ts, deps)[k].dependencies == deps[k] {
      assert forall j :: 0 <= j < |deps[k]| ==> deps[k][j] in deps[k];
    }
  }

  /**
   * The shape of the workflow: the suffixed node templates, the suffixed graph template, then
   * the DAG named by the entrypoint, with one task per container template, in the same order,
   * naming that template; a node's task carries the node's dependencies and the graph's task
   * the names of all node templates.
   */
  lemma WorkflowShape(pkg: Package, file: string, command: Node -> string, graphCommand: string)
    requires WorkflowOf(pkg, file, command, graphCommand).Success?
    ensures pkg.graphs != [] && pkg.graphs[0].nodes != []
    ensures var g := pkg.graphs[0];
      var w := WorkflowOf(pkg, file, command, graphCommand).value;
      var nts := NodeTemplatesOf(g.nodes, command);
      && w.entrypoint == ArgoName("DAG-" + g.name)
      && DagOver(w, nts + [GraphTemplate(g, graphCommand).value], DependenciesOf(g.nodes) + [TemplateNames(nts)])
  {
    var g := pkg.graphs[0];
    var nts := NodeTemplatesOf(g.nodes, command);
    var deps := DependenciesOf(g.nodes) + [TemplateNames(nts)];
    WorkflowDepsSanitised(g, command, nts, deps);
    DagShape(WorkflowOf(pkg, file, command, graphCommand).value, nts + [GraphTemplate(g, graphCommand).value], deps);
  }

  /** The workflow for `my-flow.yml` is generated under `-flow-`, the as-written strip's result. */
  lemma WorkflowNameAsWritten(pkg: Package, command: Node -> string, graphCommand: string)
    requires WorkflowOf(pkg, "my-flow.yml", command, graphCommand).Success?
    ensures WorkflowOf(pkg, "my-flow.yml", command, graphCommand).value.generateName == "-flow-"
  {
    OutputNameAsWrittenStripsLetters();
  }

  /** Each node template is named after its node, and the graph's task depends on every node. */
  lemma NodeTaskNames(nodes: seq<Node>, command: Node -> string)
    ensures |NodeTemplatesOf(nodes, command)| == |DependenciesOf(nodes)| == |nodes|
    ensures forall k :: 0 <= k < |nodes| ==>
      && NodeTemplatesOf(nodes, command)[k].name == ArgoName(nodes[k].name)
      && NodeTemplatesOf(nodes, command)[k].body.Container?
      && DependenciesOf(nodes)[k] == Dependencies(nodes[k].inputs)
      && ArgoName(nodes[k].name) in TemplateNames(NodeTemplatesOf(nodes, command))
  {
    var names := TemplateNames(NodeTemplatesOf(nodes, command));
    assert forall k :: 0 <= k < |nodes| ==> names[k] == ArgoName(nodes[k].name);
  }

  /**
   * `w` holds the suffixed templates of `all` and then the DAG, whose task `k` is named
   * after template `k` of `all`, runs the suffixed template and carries dependencies `deps[k]`.
   */
  predicate DagOver(w: Workflow, all: seq<Template>, deps: seq<seq<string>>) {
    && |deps| == |all| && |w.templates| == |all| + 1
    && var dag := w.templates[|all|];
    && dag.name == w.entrypoint && dag.body.Dag? && |dag.body.tasks| == |all|
    && (forall k :: 0 <= k < |all| ==>
          && w.templates[k] == Suffixed(all[k])
          && dag.body.tasks[k].template == w.templates[k].name
          && dag.body.tasks[k].name == all[k].name
          && dag.body.tasks[k].dependencies == deps[k])
  }

  /** The workflow of a graph is a DAG over its node and graph templates. */
  lemma DagShape(w: Workflow, all: seq<Template>, deps: seq<seq<string>>)
    requires |deps| == |all|
    requires w.templates == SuffixedAll(all) + [Template(w.entrypoint, Dag(TasksOf(all, deps)))]
    requires forall k, d :: 0 <= k < |all| && d in deps[k] ==> ArgoName(d) == d
    ensures DagOver(w, all, deps)
  {
    TasksShape(all, deps);
  }

  /** The dependencies `generate` gives the tasks are all sanitised names. */
  lemma WorkflowDepsSanitised(g: Graph, command: Node -> string, nts: seq<Template>, deps: seq<seq<string>>)
    requires nts == NodeTemplatesOf(g.nodes, command) && deps == DependenciesOf(g.nodes) + [TemplateNames(nts)]
    ensures forall k, d :: 0 <= k < |deps| && d in deps[k] ==> ArgoName(d) == d
  {
    forall k, d | 0 <= k < |deps| && d in deps[k] ensures ArgoName(d) == d {
      if k < |g.nodes| {
        assert d in DependenciesOf(g.nodes)[k];
        NodeDepsSanitised(g.nodes, k, d);
      } else {
        NodeNamesSanitised(g.nodes, command, d);
      }
    }
  }

  /** The dependencies of a node are sanitised names. */
  lemma NodeDepsSanitised(nodes: seq<Node>, k: nat, d: string)
    requires k < |nodes| && d in DependenciesOf(nodes)[k]
    ensures ArgoName(d) == d
  {
    DependenciesSanitised(nodes[k].inputs, d);
  }

  /** The names of the node templates are sanitised names. */
  lemma NodeNamesSanitised(nodes: seq<Node>, command: Node -> string, d: string)
    requires d in TemplateNames(NodeTemplatesOf(nodes, command))
    ensures ArgoName(d) == d
  {
    var names := TemplateNames(NodeTemplatesOf(nodes, command));
    var j :| 0 <= j < |names| && names[j] == d;
    ArgoNameIdempotent(nodes[j].name);
  }

  /** One step of the node loop: the new template is the next node's. */
  lemma AppendTemplate(ts: seq<Template>, t: Template, nodes: seq<Node>, command: Node -> string, k: nat)
    requires k < |nodes| && |ts| == k
    requires forall j :: 0 <= j < k ==> ts[j] == NodeTemplate(nodes[j], command(nodes[j]))
    requires t == NodeTemplate(nodes[k], command(nodes[k]))
    ensures forall j :: 0 <= j < k + 1 ==> (ts + [t])[j] == NodeTemplate(nodes[j], command(nodes[j]))
  {
  }

  /** One step of the node loop: the new dependencies are the next node's. */
  lemma AppendDependencies(deps: seq<seq<string>>, d: seq<string>, nodes: seq<Node>, k: nat)
    requires k < |nodes| && |deps| == k
    requires forall j :: 0 <= j < k ==> deps[j] == Dependencies(nodes[j].inputs)
    requires d == Dependencies(nodes[k].inputs)
    ensures forall j :: 0 <= j < k + 1 ==> (deps + [d])[j] == Dependencies(nodes[j].inputs)
  {
  }

  /** The node templates as `generate` builds them, with their dependencies alongside. */
  method NodeTemplates(nodes: seq<Node>, command: Node -> string) returns (ts: seq<Template>, deps: seq<seq<string>>)
    ensures |ts| == |nodes| && |deps| == |nodes|
    ensures forall j :: 0 <= j < |nodes| ==> ts[j] == NodeTemplate(nodes[j], command(nodes[j]))
    ensures forall j :: 0 <= j < |nodes| ==> deps[j] == Dependencies(nodes[j].inputs)
  {
    ts, deps := [], [];
    for k := 0 to |nodes|
      invariant |ts| == k && |deps| == k
      invariant forall j :: 0 <= j < k ==> ts[j] == NodeTemplate(nodes[j], command(nodes[j]))
      invariant forall j :: 0 <= j < k ==> deps[j] == Dependencies(nodes[j].inputs)
    {
      var t, d := CreateTemplateFromNode(nodes[k], command(nodes[k]));
      AppendTemplate(ts, t, nodes, command, k);
      AppendDependencies(deps, d, nodes, k);
      ts, deps := ts + [t], deps + [d];
    }
  }

  /** The loop re-sanitising each template's name. */
  method Rename(ts: seq<Template>) returns (r: seq<Template>)
    ensures |r| == |ts|
    ensures forall k :: 0 <= k < |ts| ==> r[k] == ts[k].(name := ArgoName(ts[k].name))
  {
    r := ts;
    for k := 0 to |r|
      invariant |r| == |ts|
      invariant forall j :: 0 <= j < k ==> r[j] == ts[j].(name := ArgoName(ts[j].name))
      invariant forall j :: k <= j < |r| ==> r[j] == ts[j]
    {
      r := r[k := r[k].(name := ArgoName(r[k].name))];
    }
  }

  /** `[argo_name(t) for t in deps]`. */
  method SanitiseAll(deps: seq<string>) returns (r: seq<string>)
    ensures r == seq(|deps|, k requires 0 <= k < |deps| => ArgoName(deps[k]))
  {
    r := [];
    for j := 0 to |deps|
      invariant r == seq(j, k requires 0 <= k < j => ArgoName(deps[k]))
    {
      r := r + [ArgoName(deps[j])];
    }
  }

  /** The loop building the DAG tasks, popping the dependencies and suffixing each template's name. */
  method DagTasks(ts: seq<Template>, deps: seq<seq<string>>) returns (r: seq<Template>, tasks: seq<DagTask>)
    requires |deps| == |ts|
    ensures |r| == |ts| && |tasks| == |ts|
    ensures forall k :: 0 <= k < |ts| ==> r[k] == Suffixed(ts[k]) && tasks[k] == TaskOf(ts[k].name, deps[k])
  {
    r, tasks := ts, [];
    for k := 0 to |r|
      invariant |r| == |ts| && |tasks| == k
      invariant forall j :: 0 <= j < k ==> r[j] == Suffixed(ts[j]) && tasks[j] == TaskOf(ts[j].name, deps[j])
      invariant forall j :: k <= j < |r| ==> r[j] == ts[j]
    {
      var name := r[k].name;
      var converted := SanitiseAll(deps[k]);
      tasks := tasks + [DagTask(name, name + "-template", converted)];
      r := r[k := r[k].(name := name + "-template")];
    }
  }

  /** Node and graph template names are sanitised, so re-sanitising changes none of them. */
  lemma RenameKeeps(ts: seq<Template>)
    requires forall k :: 0 <= k < |ts| ==> exists x :: ts[k].name == ArgoName(x)
    ensures forall k :: 0 <= k < |ts| ==> ts[k].(name := ArgoName(ts[k].name)) == ts[k]
  {
    forall k | 0 <= k < |ts| ensures ArgoName(ts[k].name) == ts[k].name {
      var x :| ts[k].name == ArgoName(x);
      ArgoNameIdempotent(x);
    }
  }

  /**
   * `ArgoBatchBackend.generate` up to the YAML dump: the workflow of the first graph, or the
   * failure of the assertion on an empty package, of `nodes[0]` on a graph without nodes,
   * or of `parts[-1]` on an output path without parts.
   */
  method Generate(pkg: Package, outputParts: seq<string>, command: Node -> string, graphCommand: string)
    returns (r: Result<Workflow, ArgoError>)
    ensures outputParts == [] ==> r == Failure(NoOutputName)
    ensures outputParts != [] ==> r == WorkflowOf(pkg, outputParts[|outputParts| - 1], command, graphCommand)
  {
    if outputParts == [] {
      return Failure(NoOutputName);
    }
    var outputName := OutputNameAsWritten(outputParts[|outputParts| - 1]);
    if |pkg.graphs| == 0 {
      return Failure(NoGraph);
    }
    var g := pkg.graphs[0];
    var templates, deps := NodeTemplates(g.nodes, command);
    var gt := GraphTemplate(g, graphCommand);
    if gt.Failure? {
      return Failure(gt.error);
    }
    var nodeNames := TemplateNames(templates);
    var all := templates + [gt.value];
    var renamed := Rename(all);
    var suffixed, tasks := DagTasks(renamed, deps + [nodeNames]);
    var dagName := ArgoName("DAG-" + g.name);
    r := Success(Workflow(outputName + "-", dagName, suffixed + [Template(dagName, Dag(tasks))]));
    GenerateMatches(pkg, outputParts[|outputParts| - 1], command, graphCommand, templates, deps, renamed, suffixed, tasks);
  }

  /** The values the loops of `Generate` build are the parts of `WorkflowOf`. */
  lemma GenerateMatches(pkg: Package, file: string, command: Node -> string, graphCommand: string,
                        templates: seq<Template>, deps: seq<seq<string>>, renamed: seq<Template>,
                        suffixed: seq<Template>, tasks: seq<DagTask>)
    requires pkg.graphs != [] && GraphTemplate(pkg.graphs[0], graphCommand).Success?
    requires var nodes := pkg.graphs[0].nodes;
      && |templates| == |nodes| && |deps| == |nodes|
      && (forall j :: 0 <= j < |nodes| ==> templates[j] == NodeTemplate(nodes[j], command(nodes[j])))
      && (forall j :: 0 <= j < |nodes| ==> deps[j] == Dependencies(nodes[j].inputs))
    requires var all := templates + [GraphTemplate(pkg.graphs[0], graphCommand).value];
      && |renamed| == |all|
      && (forall k :: 0 <= k < |all| ==> renamed[k] == all[k].(name := ArgoName(all[k].name)))
    requires var all := deps + [TemplateNames(templates)];
      && |suffixed| == |renamed| && |tasks| == |renamed| && |all| == |renamed|
      && (forall k :: 0 <= k < |renamed| ==> suffixed[k] == Suffixed(renamed[k]) && tasks[k] == TaskOf(renamed[k].name, all[k]))
    ensures var g := pkg.graphs[0];
      var dagName := ArgoName("DAG-" + g.name);
      WorkflowOf(pkg, file, command, graphCommand) ==
        Success(Workflow(OutputNameAsWritten(file) + "-", dagName, suffixed + [Template(dagName, Dag(tasks))]))
  {
    var g := pkg.graphs[0];
    var gt := GraphTemplate(g, graphCommand).value;
    var nts := NodeTemplatesOf(g.nodes, command);
    assert templates == nts;
    assert deps == DependenciesOf(g.nodes);
    var all := nts + [gt];
    SanitisedNames(g, graphCommand, command);
    assert renamed == all;
    assert suffixed == SuffixedAll(all);
    assert tasks == TasksOf(all, DependenciesOf(g.nodes) + [TemplateNames(nts)]);
  }

  /** Re-sanitising the node and graph templates of a graph changes none of them. */
  lemma SanitisedNames(g: Graph, graphCommand: string, command: Node -> string)
    requires GraphTemplate(g, graphCommand).Success?
    ensures var all := NodeTemplatesOf(g.nodes, command) + [GraphTemplate(g, graphCommand).value];
      forall k :: 0 <= k < |all| ==> all[k].(name := ArgoName(all[k].name)) == all[k]
  {
    var all := NodeTemplatesOf(g.nodes, command) + [GraphTemplate(g, graphCommand).value];
    forall k | 0 <= k < |all| ensures exists x :: all[k].name == ArgoName(x) {
      if k < |g.nodes| {
        assert all[k].name == ArgoName(g.nodes[k].name);
      } else {
        assert all[k].name == ArgoName(g.name);
      }
    }
    RenameKeeps(all);
  }
}
