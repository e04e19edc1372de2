/**
 * The iotype registry: the module-level map from Python types to iotype tags, the
 * registration that refuses to re-tag a type, the lookup, and the registrations made
 * when the module is imported.
 */
module IoTypes {
  import opened Wrappers

  /** The Python types the registry can be keyed by. */
  datatype PyType =
    | IntType
    | FloatType
    | StrType
    | DirectoryPathType
    | FilePathType
    | DataFrameType
    | OtherType(name: string)

  datatype RegistryError =
    | AlreadyRegistered(pytype: PyType, iotype: string)
    | NotRegistered(pytype: PyType)

  type TypeMap = map<PyType, string>

  /**
   * `register_iotype` applied to the map `m`: a type already tagged differently raises and
   * leaves the map alone; otherwise the type is (re)tagged and nothing else changes.
   */
  function Registered(m: TypeMap, t: PyType, tag: string): (r: Result<TypeMap, RegistryError>)
    ensures r.Failure? <==> t in m && m[t] != tag
    ensures r.Failure? ==> r.error == AlreadyRegistered(t, m[t])
    ensures r.Success? ==> r.value.Keys == m.Keys + {t} && r.value[t] == tag
    ensures r.Success? ==> forall u :: u in m && u != t ==> r.value[u] == m[u]
  {
    if t in m && m[t] != tag then Failure(AlreadyRegistered(t, m[t])) else Success(m[t := tag])
  }

  /** `pytype_to_iotype` on the map `m`: the registered tag, or "has not been registered". */
  function IoTypeOf(m: TypeMap, t: PyType): (r: Result<string, RegistryError>)
    ensures r.Success? <==> t in m
    ensures r.Success? ==> r.value == m[t]
    ensures r.Failure? ==> r.error == NotRegistered(t)
  {
    if t !in m then Failure(NotRegistered(t)) else Success(m[t])
  }

  /** Registering a type with the tag it already has changes nothing. */
  lemma RegisterSameTag(m: TypeMap, t: PyType)
    requires t in m
    ensures Registered(m, t, m[t]) == Success(m)
  {
    assert m[t := m[t]] == m;
  }

  /**
   * After a registration that succeeds, the type looks up to its tag and every other type
   * looks up as before; after one that fails, every lookup is as before.
   */
  lemma RegisterThenLookup(m: TypeMap, t: PyType, tag: string, u: PyType)
    ensures Registered(m, t, tag).Success? ==> IoTypeOf(Registered(m, t, tag).value, t) == Success(tag)
    ensures Registered(m, t, tag).Success? && u != t ==>
      IoTypeOf(Registered(m, t, tag).value, u) == IoTypeOf(m, u)
  {
  }

  /** The three builtin entries of `_TYPE_MAP`. */
  function BuiltinTypes(): TypeMap {
    map[IntType := "INT", FloatType := "FLOAT", StrType := "STRING"]
  }

  /**
   * The registry after the module's import: the builtins, then DIRECTORY and FILE, then
   * DATAFRAME when pandas can be imported.
   */
  function InitialTypes(pandasAvailable: bool): TypeMap {
    var m := BuiltinTypes()[DirectoryPathType := "DIRECTORY"][FilePathType := "FILE"];
    if pandasAvailable then m[DataFrameType := "DATAFRAME"] else m
  }

  /** What each type looks up to right after import. */
  lemma InitialLookups(pandasAvailable: bool, name: string)
    ensures IoTypeOf(InitialTypes(pandasAvailable), IntType) == Success("INT")
    ensures IoTypeOf(InitialTypes(pandasAvailable), FloatType) == Success("FLOAT")
    ensures IoTypeOf(InitialTypes(pandasAvailable), StrType) == Success("STRING")
    ensures IoTypeOf(InitialTypes(pandasAvailable), DirectoryPathType) == Success("DIRECTORY")
    ensures IoTypeOf(InitialTypes(pandasAvailable), FilePathType) == Success("FILE")
    ensures IoTypeOf(InitialTypes(pandasAvailable), DataFrameType).Success? <==> pandasAvailable
    ensures IoTypeOf(InitialTypes(pandasAvailable), OtherType(name)) == Failure(NotRegistered(OtherType(name)))
  {
  }

  /** The module-level `_TYPE_MAP`, updated in place by `register_iotype`. */
  class Registry {
    var types: TypeMap

    /** Importing the module: the builtin map, then the registrations at its foot. */
    constructor(pandasAvailable: bool)
      ensures types == InitialTypes(pandasAvailable)
    {
      types := BuiltinTypes();
      new;
      var r := Register(DirectoryPathType, "DIRECTORY");
      r := Register(FilePathType, "FILE");
      if pandasAvailable {
        r := Register(DataFrameType, "DATAFRAME");
      }
    }

    /** `register_iotype`: raises on a re-tag and leaves the map unchanged, or records the tag. */
    method Register(t: PyType, tag: string) returns (r: Outcome<RegistryError>)
      modifies this
      ensures Registered(old(types), t, tag).Failure? ==>
        r == Fail(Registered(old(types), t, tag).error) && types == old(types)
      ensures Registered(old(types), t, tag).Success? ==> r.Pass? && types == Registered(old(types), t, tag).value
    {
      if t in types && types[t] != tag {
        return Fail(AlreadyRegistered(t, types[t]));
      }
      types := types[t := tag];
      return Pass;
    }

    /** `pytype_to_iotype`: the lookup in the current map. */
    method PytypeToIotype(t: PyType) returns (r: Result<string, RegistryError>)
      ensures r == IoTypeOf(types, t)
    {
      if t !in types {
        return Failure(NotRegistered(t));
      }
      return Success(types[t]);
    }
  }
}
