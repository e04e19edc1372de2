/**
 * Task definitions: the configuration the `task` decorator assembles from the user's
 * configuration, the framework's settings and the cache switch; the copy a task
 * definition keeps; and the cache wrapper that skips the task function when its outputs
 * are already in the cache.
 *
 * The task function and the cache-key digest are parameters; the cache store is a map
 * from keys to output-directory contents that only ever gains keys.
 */
module Task {
  import opened Wrappers
  import opened Pir

  datatype TaskError =
    | CacheKeyFileNotSet
    | KeyFileParamMissing(param: ConfigValue)
    | KeyFileParamUnhashable(param: ConfigValue)

  /** The key under which a framework setting `k` is stored: `"<framework>/<k>"`. */
  function FrameworkKey(framework: string, k: string): string {
    framework + "/" + k
  }

  lemma FrameworkKeyInjective(framework: string, a: string, b: string)
    requires FrameworkKey(framework, a) == FrameworkKey(framework, b)
    ensures a == b
  {
    assert a == FrameworkKey(framework, a)[|framework| + 1..];
    assert b == FrameworkKey(framework, b)[|framework| + 1..];
  }

  /** A framework key holds a `/`, so it is neither `cache` nor `cache_key_file`. */
  lemma FrameworkKeyHasSlash(framework: string, k: string)
    ensures FrameworkKey(framework, k)[|framework|] == '/'
    ensures FrameworkKey(framework, k) != "cache" && FrameworkKey(framework, k) != "cache_key_file"
  {
    var key := FrameworkKey(framework, k);
    assert key[|framework|] == '/';
    assert '/' in key;
    assert '/' !in "cache" && '/' !in "cache_key_file";
  }

  lemma FrameworkKeysNotCache(framework: Option<Framework>)
    ensures framework.Some? ==> forall k :: FrameworkKey(framework.value.name, k) != "cache" &&
                                           FrameworkKey(framework.value.name, k) != "cache_key_file"
  {
    if framework.Some? {
      forall k ensures FrameworkKey(framework.value.name, k) != "cache" &&
                       FrameworkKey(framework.value.name, k) != "cache_key_file" {
        FrameworkKeyHasSlash(framework.value.name, k);
      }
    }
  }

  /** The framework settings among `keys`, under their framework keys. */
  function FrameworkEntries(f: Framework, keys: set<string>): (m: Config)
    requires keys <= f.config.Keys
    ensures forall k :: k in keys ==> FrameworkKey(f.name, k) in m && m[FrameworkKey(f.name, k)] == f.config[k]
    ensures forall x :: x in m ==> exists k :: k in keys && x == FrameworkKey(f.name, k)
  {
    FrameworkKeysInjective(f.name);
    map k | k in keys :: FrameworkKey(f.name, k) := f.config[k]
  }

  lemma FrameworkKeysInjective(framework: string)
    ensures forall a, b :: FrameworkKey(framework, a) == FrameworkKey(framework, b) ==> a == b
  {
    forall a, b | FrameworkKey(framework, a) == FrameworkKey(framework, b) ensures a == b {
      FrameworkKeyInjective(framework, a, b);
    }
  }

  /** Python truthiness of the optional `cache_key_file` argument. */
  predicate KeyFileSet(keyFile: Option<string>) {
    keyFile.Some? && keyFile.value != ""
  }

  /** The configuration after the framework loop (214-219 of `task`). */
  function WithFramework(config: Config, framework: Option<Framework>): Config {
    if framework.None? then config else config + FrameworkEntries(framework.value, framework.value.config.Keys)
  }

  /**
   * The configuration `task` hands to the task definition: the user's entries, then one
   * entry per framework setting, then the two cache entries; or the error raised when the
   * cache is on without a key file.
   */
  function TaskConfig(config: Config, framework: Option<Framework>, cache: bool, keyFile: Option<string>)
    : (r: Result<Config, TaskError>)
    ensures r.Failure? <==> cache && !KeyFileSet(keyFile)
    ensures r.Failure? ==> r.error == CacheKeyFileNotSet
    ensures r.Success? && framework.Some? ==> forall k :: k in framework.value.config ==>
      FrameworkKey(framework.value.name, k) in r.value &&
      r.value[FrameworkKey(framework.value.name, k)] == framework.value.config[k]
    ensures r.Success? ==> forall k :: k in config && !FromTask(k, framework, cache) ==>
      k in r.value && r.value[k] == config[k]
    ensures r.Success? ==> forall k :: k in r.value ==> k in config || FromTask(k, framework, cache)
    ensures r.Success? && cache ==> "cache" in r.value && r.value["cache"] == Bool(true)
    ensures r.Success? && cache ==> "cache_key_file" in r.value && r.value["cache_key_file"] == Str(keyFile.value)
    ensures framework.None? && !cache ==> r == Success(config)
  {
    var c := WithFramework(config, framework);
    if cache then
      if KeyFileSet(keyFile) then
        assert FromTask("cache", framework, cache) && FromTask("cache_key_file", framework, cache);
        FrameworkKeysNotCache(framework);
        Success(c["cache" := Bool(true)]["cache_key_file" := Str(keyFile.value)])
      else Failure(CacheKeyFileNotSet)
    else Success(c)
  }

  /** `k` is a key `task` writes: a framework key, or a cache entry when the cache is on. */
  predicate FromTask(k: string, framework: Option<Framework>, cache: bool) {
    || (framework.Some? && exists s :: s in framework.value.config && k == FrameworkKey(framework.value.name, s))
    || (cache && (k == "cache" || k == "cache_key_file"))
  }

  /** A caller's dictionary, which `task` writes into when it is not empty. */
  class Dict {
    var entries: Config

    constructor(entries: Config)
      ensures this.entries == entries
    {
      this.entries := entries;
    }

    method Set(k: string, v: ConfigValue)
      modifies this
      ensures entries == old(entries)[k := v]
    {
      entries := entries[k := v];
    }
  }

  /** The opaque function object a task wraps. */
  datatype TaskFunction = TaskFunction(id: nat, name: Option<string>)

  datatype TaskDefinition = TaskDefinition(
    func: Option<TaskFunction>,
    name: Option<string>,
    config: Config,
    framework: Option<Framework>)

  /**
   * `TaskDefinition.__init__`: the name, or the function's `__name__` when the name is
   * empty; a copy of the configuration, which is `{}` when it is empty.
   */
  function NewTaskDefinition(func: Option<TaskFunction>, name: Option<string>, config: Config,
                             framework: Option<Framework>): (d: TaskDefinition)
    ensures d.config == config && d.framework == framework && d.func == func
    ensures name.Some? && name.value != "" ==> d.name == name
    ensures !(name.Some? && name.value != "") ==> d.name == (if func.Some? then func.value.name else None)
  {
    var n := if name.Some? && name.value != "" then name else if func.Some? then func.value.name else None;
    TaskDefinition(func, n, if config != map[] then config else map[], framework)
  }

  lemma FrameworkEntriesAdd(base: Config, f: Framework, done: set<string>, k: string)
    requires done <= f.config.Keys && k in f.config
    ensures base + FrameworkEntries(f, done + {k}) == (base + FrameworkEntries(f, done))[FrameworkKey(f.name, k) := f.config[k]]
  {
    var m := FrameworkEntries(f, done + {k});
    var m0 := FrameworkEntries(f, done);
    var key := FrameworkKey(f.name, k);
    forall x | x in m ensures x in m0 || x == key {
      var j :| j in done + {k} && x == FrameworkKey(f.name, j);
      if j != k {
        assert j in done;
      }
    }
    forall x | x in m0 ensures x in m && m[x] == m0[x] {
      var j :| j in done && x == FrameworkKey(f.name, j);
      assert m[FrameworkKey(f.name, j)] == f.config[j];
    }
    assert m == m0[key := f.config[k]];
  }

  /** The loop of `task` that writes each framework setting into `d`. */
  method WriteFramework(d: Dict, f: Framework)
    modifies d
    ensures d.entries == old(d.entries) + FrameworkEntries(f, f.config.Keys)
  {
    ghost var base := d.entries;
    var todo := f.config.Keys;
    assert f.config.Keys - todo == {};
    assert FrameworkEntries(f, {}) == map[];
    assert base + map[] == base;
    while todo != {}
      invariant todo <= f.config.Keys
      invariant d.entries == base + FrameworkEntries(f, f.config.Keys - todo)
      decreases |todo|
    {
      var k :| k in todo;
      ghost var done := f.config.Keys - todo;
      d.Set(FrameworkKey(f.name, k), f.config[k]);
      todo := todo - {k};
      assert f.config.Keys - todo == done + {k};
      FrameworkEntriesAdd(base, f, done, k);
    }
    assert f.config.Keys - todo == f.config.Keys;
  }

  /**
   * `task`: a caller's non-empty dictionary is written in place (and keeps the framework
   * entries even when the cache error is raised); otherwise a new empty dictionary is used.
   * The definition keeps a copy, so later changes to the caller's dictionary do not reach it.
   */
  method MakeTask(func: Option<TaskFunction>, name: Option<string>, caller: Dict?, framework: Option<Framework>,
                  cache: bool, keyFile: Option<string>) returns (r: Result<TaskDefinition, TaskError>)
    modifies caller
    ensures var base := if caller != null then old(caller.entries) else map[];
      && (r.Failure? <==> TaskConfig(base, framework, cache, keyFile).Failure?)
      && (r.Failure? ==> r.error == CacheKeyFileNotSet)
      && (r.Success? ==> r == Success(NewTaskDefinition(func, name, TaskConfig(base, framework, cache, keyFile).value, framework)))
    ensures caller != null && old(caller.entries) != map[] && r.Success? ==> caller.entries == r.value.config
    ensures caller != null && old(caller.entries) != map[] && r.Failure? ==>
      caller.entries == WithFramework(old(caller.entries), framework)
    ensures caller != null && old(caller.entries) == map[] ==> caller.entries == map[]
  {
    var config: Dict;
    if caller != null && caller.entries != map[] {
      config := caller;
    } else {
      config := new Dict(map[]);
    }
    if framework.Some? {
      WriteFramework(config, framework.value);
    }
    if cache {
      if keyFile.Some? && keyFile.value != "" {
        config.Set("cache", Bool(true));
        config.Set("cache_key_file", Str(keyFile.value));
      } else {
        return Failure(CacheKeyFileNotSet);
      }
    }
    r := Success(NewTaskDefinition(func, name, config.entries, framework));
  }

  /** The gate in `run_handler`: a non-empty configuration whose `cache` entry is truthy. */
  predicate UsesCache(config: Config) {
    config != map[] && "cache" in config && Truthy(config["cache"])
  }

  /** A configuration made with the cache on uses the cache wrapper; one made with it off uses it only if the user set `cache`. */
  lemma TaskConfigGate(config: Config, framework: Option<Framework>, cache: bool, keyFile: Option<string>)
    requires TaskConfig(config, framework, cache, keyFile).Success?
    ensures cache ==> UsesCache(TaskConfig(config, framework, cache, keyFile).value)
    ensures !cache ==> (UsesCache(TaskConfig(config, framework, cache, keyFile).value) <==> UsesCache(config))
  {
    var r := TaskConfig(config, framework, cache, keyFile).value;
    if !cache {
      if framework.Some? {
        forall s | s in framework.value.config ensures FrameworkKey(framework.value.name, s) != "cache" {
          FrameworkKeyHasSlash(framework.value.name, s);
        }
      }
      assert !FromTask("cache", framework, cache);
      if "cache" in r {
        assert "cache" in config;
      }
    }
  }

  /** An opaque argument or return value of a task function. */
  datatype Value = Value(id: nat)

  /**
   * The key file of a call: the keyword argument named by the `cache_key_file` entry.
   * `config.get` gives `None` for a missing entry, and no keyword is named `None`.
   */
  function KeyFile(config: Config, kwargs: map<string, Value>): (r: Result<Value, TaskError>)
    ensures r.Success? <==> "cache_key_file" in config && config["cache_key_file"].Str? &&
                            config["cache_key_file"].s in kwargs
    ensures r.Success? ==> r.value == kwargs[config["cache_key_file"].s]
    ensures r.Failure? && "cache_key_file" !in config ==> r.error == KeyFileParamMissing(Null)
  {
    var param := if "cache_key_file" in config then config["cache_key_file"] else Null;
    match param
    case Str(s) => if s in kwargs then Success(kwargs[s]) else Failure(KeyFileParamMissing(param))
    case Document(_, _) => Failure(KeyFileParamUnhashable(param))
    case _ => Failure(KeyFileParamMissing(param))
  }

  /**
   * The state a task run touches: the cache store, the task's output directory, and the
   * number of times the task function has been called.
   */
  class TaskEnv {
    var store: map<string, nat>
    var output: nat
    var calls: nat

    constructor(store: map<string, nat>)
      ensures this.store == store && output == 0 && calls == 0
    {
      this.store := store;
      output := 0;
      calls := 0;
    }

    /** The task function: it fills the output directory and returns a value. */
    method Call(func: map<string, Value> -> (Value, nat), kwargs: map<string, Value>) returns (v: Value)
      modifies this
      ensures (v, output) == func(kwargs) && calls == old(calls) + 1 && store == old(store)
    {
      v := func(kwargs).0;
      output := func(kwargs).1;
      calls := calls + 1;
    }

    /**
     * `run_func_with_cache`: on a hit the output directory is restored from the store, the
     * function is not called and the output path is returned; on a miss the function is
     * called once and its outputs are stored under the key.
     */
    method CacheWrapper(config: Config, kwargs: map<string, Value>, keyOf: Value -> string,
                        func: map<string, Value> -> (Value, nat), outputPath: Value) returns (r: Result<Value, TaskError>)
      modifies this
      ensures KeyFile(config, kwargs).Failure? ==>
        r == Failure(KeyFile(config, kwargs).error) && unchanged(this)
      ensures KeyFile(config, kwargs).Success? && keyOf(KeyFile(config, kwargs).value) in old(store) ==>
        && r == Success(outputPath)
        && output == old(store)[keyOf(KeyFile(config, kwargs).value)]
        && calls == old(calls) && store == old(store)
      ensures KeyFile(config, kwargs).Success? && keyOf(KeyFile(config, kwargs).value) !in old(store) ==>
        && r == Success(func(kwargs).0)
        && output == func(kwargs).1
        && calls == old(calls) + 1
        && store == old(store)[keyOf(KeyFile(config, kwargs).value) := func(kwargs).1]
    {
      var param := if "cache_key_file" in config then config["cache_key_file"] else Null;
      if !param.Str? || param.s !in kwargs {
        return Failure(KeyFile(config, kwargs).error);
      }
      var keyFile := kwargs[param.s];
      var key := keyOf(keyFile);
      var ok := Fetch(key);
      if !ok {
        var v := Call(func, kwargs);
        Store(key);
        return Success(v);
      }
      return Success(outputPath);
    }

    /** `fetch_directory`: restore the output directory when the key is stored. */
    method Fetch(key: string) returns (ok: bool)
      modifies this
      ensures ok <==> key in old(store)
      ensures ok ==> output == old(store)[key]
      ensures !ok ==> output == old(output)
      ensures store == old(store) && calls == old(calls)
    {
      ok := key in store;
      if ok {
        output := store[key];
      }
    }

    /** `cache_directory`: store the output directory under a key not stored yet. */
    method Store(key: string)
      modifies this
      ensures key in old(store) ==> store == old(store)
      ensures key !in old(store) ==> store == old(store)[key := old(output)]
      ensures output == old(output) && calls == old(calls)
    {
      if key !in store {
        store := store[key := output];
      }
    }

    /** The call in `run_handler`: through the cache wrapper exactly when the gate is open. */
    method RunTask(config: Config, kwargs: map<string, Value>, keyOf: Value -> string,
                   func: map<string, Value> -> (Value, nat), outputPath: Value) returns (r: Result<Value, TaskError>)
      modifies this
      ensures !UsesCache(config) ==>
        r == Success(func(kwargs).0) && output == func(kwargs).1 && calls == old(calls) + 1 && store == old(store)
      ensures UsesCache(config) && KeyFile(config, kwargs).Failure? ==>
        r == Failure(KeyFile(config, kwargs).error) && unchanged(this)
      ensures UsesCache(config) && KeyFile(config, kwargs).Success? && keyOf(KeyFile(config, kwargs).value) in old(store) ==>
        && r == Success(outputPath)
        && output == old(store)[keyOf(KeyFile(config, kwargs).value)]
        && calls == old(calls) && store == old(store)
      ensures UsesCache(config) && KeyFile(config, kwargs).Success? && keyOf(KeyFile(config, kwargs).value) !in old(store) ==>
        && r == Success(func(kwargs).0)
        && output == func(kwargs).1
        && calls == old(calls) + 1
        && store == old(store)[keyOf(KeyFile(config, kwargs).value) := func(kwargs).1]
    {
      if config != map[] && "cache" in config && Truthy(config["cache"]) {
        r := CacheWrapper(config, kwargs, keyOf, func, outputPath);
      } else {
        var v := Call(func, kwargs);
        r := Success(v);
      }
    }

    /**
     * Two runs with the same key-file argument: the function is called at most once, and
     * the second run is a hit that returns the output path with the first run's outputs.
     */
    method RunTwice(config: Config, kwargs: map<string, Value>, keyOf: Value -> string,
                    func: map<string, Value> -> (Value, nat), outputPath: Value) returns (r1: Result<Value, TaskError>, r2: Result<Value, TaskError>)
      modifies this
      ensures KeyFile(config, kwargs).Success? ==>
        && calls <= old(calls) + 1
        && r2 == Success(outputPath)
        && keyOf(KeyFile(config, kwargs).value) in store
        && output == store[keyOf(KeyFile(config, kwargs).value)]
    {
      r1 := CacheWrapper(config, kwargs, keyOf, func, outputPath);
      r2 := CacheWrapper(config, kwargs, keyOf, func, outputPath);
    }
  }
}
