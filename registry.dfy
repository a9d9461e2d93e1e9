/**
 * The declaration registries: placement configurations and the function registry,
 * a dictionary whose insertion order is kept so that a search over its values
 * visits them as the C# enumeration does.
 */
module Registry {
  import opened Wrappers

  /** A placement decision: output buffer id (empty: emit nothing) and final name. */
  datatype BaseConfig = BaseConfig(name: string, source: string)

  datatype StructInfo = StructInfo(name: string, config: BaseConfig)

  datatype FunctionInfo = FunctionInfo(name: string, signature: string, config: BaseConfig)

  /** `Dictionary<string, FunctionInfo>`: `order` lists the keys in insertion order. */
  datatype FunctionTable = FunctionTable(order: seq<string>, infos: map<string, FunctionInfo>)
  {
    ghost predicate Valid()
    {
      (forall i, j :: 0 <= i < j < |order| ==> order[i] != order[j])
      && (forall k :: k in infos <==> k in order)
    }

    /** `this[key] = info`: an existing key keeps its place, a new one goes last. */
    function Put(key: string, info: FunctionInfo): (r: FunctionTable)
      requires Valid()
      ensures r.Valid()
      ensures r.infos == infos[key := info]
      ensures key in infos ==> r.order == order
      ensures key !in infos ==> r.order == order + [key]
    {
      if key in infos then FunctionTable(order, infos[key := info])
      else FunctionTable(order + [key], infos[key := info])
    }

    /** Assigning a key twice leaves the table as the second assignment alone would. */
    lemma PutTwice(key: string, a: FunctionInfo, b: FunctionInfo)
      requires Valid()
      ensures Put(key, a).Put(key, b) == Put(key, b)
    {
      assert infos[key := a][key := b] == infos[key := b];
    }

    /** `(from f in this where f.Value.Config.Name == name select f.Value).FirstOrDefault()`. */
    function FindByConfigName(name: string): (r: Option<FunctionInfo>)
      ensures r.Some? ==> r.value.config.name == name && r.value in infos.Values
      ensures r.None? ==> forall k :: k in order && k in infos ==> infos[k].config.name != name
    {
      FindFrom(order, name)
    }

    function FindFrom(keys: seq<string>, name: string): (r: Option<FunctionInfo>)
      ensures r.Some? ==> r.value.config.name == name && r.value in infos.Values
      ensures r.None? ==> forall k :: k in keys && k in infos ==> infos[k].config.name != name
    {
      if keys == [] then None
      else if keys[0] in infos && infos[keys[0]].config.name == name then Some(infos[keys[0]])
      else FindFrom(keys[1..], name)
    }
  }

  function EmptyTable(): (r: FunctionTable)
    ensures r.Valid() && r.infos == map[]
  {
    FunctionTable([], map[])
  }

  /**
   * The callee name of a call (735-755): the configured name of the function registered
   * under `name`, else that of the first function configured with that name, else `name`.
   */
  function ResolveCallee(fs: FunctionTable, name: string): string
  {
    if name in fs.infos then fs.infos[name].config.name
    else
      var found := fs.FindByConfigName(name);
      if found.Some? then found.value.config.name else name
  }

  /** The fallback search never renames: a call resolves by its registry key or stays as it is. */
  lemma ResolveCalleeByKey(fs: FunctionTable, name: string)
    ensures ResolveCallee(fs, name) == if name in fs.infos then fs.infos[name].config.name else name
  {
  }
}
