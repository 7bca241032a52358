/** The YAML helpers of dbt-coves (dbt_coves/utils/yaml.py): the decision of
    `open_yaml`, its `lru_cache(maxsize=1)` memo, and `YamlHandler`, a mutable
    view of one loaded document with item access and dotted-key lookup.
    The file system is a parameter: the files that exist, each with the value
    the YAML loader returns for it. */
module Yaml {
  import opened Wrappers
  import opened Text

  /** A loaded YAML value. */
  datatype Value =
    | Null
    | Bool(b: bool)
    | Int(i: int)
    | Str(s: string)
    | List(items: seq<Value>)
    | Mapping(entries: map<string, Value>)

  /** Python truthiness of a loaded value: `if contents:`. */
  predicate Truthy(v: Value): (b: bool)
    ensures b ==> v != Null && v != Bool(false) && v != Int(0) && v != Str("") &&
                  v != List([]) && v != Mapping(map[])
    ensures !b ==> v in {Null, Bool(false), Int(0), Str(""), List([]), Mapping(map[])}
  {
    match v
    case Null => false
    case Bool(b) => b
    case Int(i) => i != 0
    case Str(s) => s != ""
    case List(items) => items != []
    case Mapping(entries) => entries != map[]
  }

  /** The paths that are files, each with what `YAML().load` gives for it. */
  type FileSystem = map<string, Value>

  datatype YamlError = FileNotFoundError(path: string) | YamlFileEmptyError(path: string)

  /** The decision of `open_yaml`: the existence check comes first, then the
      emptiness check on the loaded contents. */
  function OpenYaml(fs: FileSystem, path: string): (r: Result<Value, YamlError>)
    ensures r.Success? <==> path in fs && Truthy(fs[path])
    ensures r.Success? ==> r.value == fs[path] && Truthy(r.value)
    ensures r == Failure(FileNotFoundError(path)) <==> path !in fs
    ensures r == Failure(YamlFileEmptyError(path)) <==> path in fs && !Truthy(fs[path])
  {
    if path in fs then
      var contents := fs[path];
      if Truthy(contents) then Success(contents) else Failure(YamlFileEmptyError(path))
    else
      Failure(FileNotFoundError(path))
  }

  /** The object the loader returns; the handler mutates it in place, and the
      cache keeps a reference to the same object. */
  class Document {
    var root: Value

    constructor (root: Value)
      ensures this.root == root
    {
      this.root := root;
    }
  }

  /** `functools.lru_cache(maxsize=1)` around `open_yaml`: one remembered
      (path, result) pair. A call that raises leaves the slot as it was.
      `loads` records each path the YAML loader actually read. */
  class OpenYamlCache {
    var slot: Option<(string, Document)>
    ghost var loads: seq<string>

    constructor ()
      ensures slot == None && loads == []
    {
      slot := None;
      loads := [];
    }

    predicate Holds(path: string)
      reads this
    {
      slot.Some? && slot.value.0 == path
    }

    method Open(fs: FileSystem, path: string) returns (r: Result<Document, YamlError>)
      modifies this
      // A repeat call with the cached path: the cached object, no load, whatever
      // the file system now holds.
      ensures old(Holds(path)) ==>
        r == Success(old(slot).value.1) && slot == old(slot) && loads == old(loads)
      // Any other call runs open_yaml; the loader reads the file only if it exists.
      ensures !old(Holds(path)) ==>
        loads == old(loads) + (if path in fs then [path] else []) &&
        (r.Success? <==> OpenYaml(fs, path).Success?) &&
        (r.Success? ==> fresh(r.value) && r.value.root == OpenYaml(fs, path).value &&
                        slot == Some((path, r.value))) &&
        (r.Failure? ==> r.error == OpenYaml(fs, path).error && slot == old(slot))
    {
      if slot.Some? && slot.value.0 == path {
        return Success(slot.value.1);
      }
      if path in fs {
        loads := loads + [path];
      }
      match OpenYaml(fs, path)
      case Failure(e) =>
        r := Failure(e);
      case Success(contents) =>
        var doc := new Document(contents);
        slot := Some((path, doc));
        r := Success(doc);
    }
  }

  // ---------------------------------------------------------------------------
  // Python subscripting, `in` and `len` on a loaded value (string keys)

  datatype HandlerError = KeyError(key: string) | TypeError(operation: string)

  /** `v[key]` with a string key: a mapping looks the key up; every other
      value raises TypeError. */
  function ItemOf(v: Value, key: string): (r: Result<Value, HandlerError>)
    ensures r.Success? <==> v.Mapping? && key in v.entries
    ensures r.Success? ==> r.value == v.entries[key]
    ensures v.Mapping? && key !in v.entries ==> r == Failure(KeyError(key))
    ensures !v.Mapping? ==> r.Failure? && r.error.TypeError?
  {
    match v
    case Mapping(entries) => if key in entries then Success(entries[key]) else Failure(KeyError(key))
    case _ => Failure(TypeError("subscript"))
  }

  /** `key in v`: key membership for a mapping, element membership for a list,
      substring for a string; other values raise TypeError. */
  function ContainsKey(v: Value, key: string): (r: Result<bool, HandlerError>)
    ensures v.Mapping? ==> r == Success(key in v.entries)
    ensures v.Mapping? ==> (r == Success(true) <==> ItemOf(v, key).Success?)
    ensures r.Failure? <==> !(v.Mapping? || v.List? || v.Str?)
  {
    match v
    case Mapping(entries) => Success(key in entries)
    case List(items) => Success(Str(key) in items)
    case Str(s) => Success(IsSubstring(key, s))
    case _ => Failure(TypeError("in"))
  }

  /** `len(v)`. */
  function LengthOf(v: Value): (r: Result<nat, HandlerError>)
    ensures v.Mapping? ==> r == Success(|v.entries|)
    ensures r.Failure? <==> !(v.Mapping? || v.List? || v.Str?)
  {
    match v
    case Mapping(entries) => Success(|entries|)
    case List(items) => Success(|items|)
    case Str(s) => Success(|s|)
    case _ => Failure(TypeError("len"))
  }

  /** The value after `v[key] = value`: only a mapping accepts a string key. */
  function WithItem(v: Value, key: string, value: Value): (r: Result<Value, HandlerError>)
    ensures r.Success? <==> v.Mapping?
    ensures r.Success? ==>
      ItemOf(r.value, key) == Success(value) &&
      ContainsKey(r.value, key) == Success(true) &&
      LengthOf(r.value) == Success(if key in v.entries then |v.entries| else |v.entries| + 1) &&
      forall other :: other != key ==> ItemOf(r.value, other) == ItemOf(v, other)
  {
    match v
    case Mapping(entries) => Success(Mapping(entries[key := value]))
    case _ => Failure(TypeError("item assignment"))
  }

  /** The value after `del v[key]`: an absent key raises KeyError. */
  function WithoutItem(v: Value, key: string): (r: Result<Value, HandlerError>)
    ensures r.Success? <==> v.Mapping? && key in v.entries
    ensures v.Mapping? && key !in v.entries ==> r == Failure(KeyError(key))
    ensures !v.Mapping? ==> r.Failure? && r.error.TypeError?
    ensures r.Success? ==>
      ItemOf(r.value, key) == Failure(KeyError(key)) &&
      ContainsKey(r.value, key) == Success(false) &&
      LengthOf(r.value) == Success(|v.entries| - 1) &&
      forall other :: other != key ==> ItemOf(r.value, other) == ItemOf(v, other)
  {
    match v
    case Mapping(entries) =>
      if key in entries then Success(Mapping(entries - {key})) else Failure(KeyError(key))
    case _ => Failure(TypeError("item deletion"))
  }

  /** Adding a fresh key and deleting it again gives back the original mapping. */
  lemma SetThenDeleteRestores(v: Value, key: string, value: Value)
    requires v.Mapping? && key !in v.entries
    ensures WithItem(v, key, value).Success?
    ensures WithoutItem(WithItem(v, key, value).value, key) == Success(v)
  {
    assert v.entries[key := value] - {key} == v.entries;
  }

  // ---------------------------------------------------------------------------
  // The dotted-key lookup inside `prop`

  /** What the loop computes: `current` is the value found so far, `Null` before
      the first segment. Where it is Null (at the start, or because the last
      segment found a YAML null) the next segment indexes the top-level config. */
  function Traverse(config: Value, current: Value, keys: seq<string>): (r: Result<Value, HandlerError>)
    decreases |keys|
    ensures keys == [] ==> r == Success(current)
    ensures r.Failure? && r.error.KeyError? ==> r.error.key in keys
  {
    if keys == [] then Success(current)
    else
      match ItemOf(if current.Null? then config else current, keys[0])
      case Failure(e) => Failure(e)
      case Success(next) => Traverse(config, next, keys[1..])
  }

  /** The reading a path like "a.b.c" suggests: each segment indexes the value
      the previous one found. */
  function NestedGet(v: Value, keys: seq<string>): Result<Value, HandlerError>
    decreases |keys|
  {
    if keys == [] then Success(v)
    else
      match ItemOf(v, keys[0])
      case Failure(e) => Failure(e)
      case Success(next) => NestedGet(next, keys[1..])
  }

  /** No segment but the last finds a YAML null. */
  ghost predicate NoNullBeforeEnd(v: Value, keys: seq<string>)
    decreases |keys|
  {
    keys == [] ||
    match ItemOf(v, keys[0])
    case Failure(_) => true
    case Success(next) => (|keys| > 1 ==> !next.Null?) && NoNullBeforeEnd(next, keys[1..])
  }

  lemma {:induction false} TraverseFromValue(config: Value, current: Value, keys: seq<string>)
    requires !current.Null? && NoNullBeforeEnd(current, keys)
    decreases |keys|
    ensures Traverse(config, current, keys) == NestedGet(current, keys)
  {
    if keys != [] {
      match ItemOf(current, keys[0])
      case Failure(_) =>
      case Success(next) =>
        if |keys| > 1 {
          TraverseFromValue(config, next, keys[1..]);
        }
    }
  }

  /** Without a null along the way, the lookup follows the path segment by segment. */
  lemma {:induction false} TraverseFollowsPath(config: Value, keys: seq<string>)
    requires keys != [] && NoNullBeforeEnd(config, keys)
    ensures Traverse(config, Null, keys) == NestedGet(config, keys)
  {
    match ItemOf(config, keys[0])
    case Failure(_) =>
    case Success(next) =>
      assert Traverse(config, Null, keys) == Traverse(config, next, keys[1..]);
      assert NestedGet(config, keys) == NestedGet(next, keys[1..]);
      if |keys| > 1 {
        TraverseFromValue(config, next, keys[1..]);
      }
  }

  /** A one-segment path yields `config[key]`. */
  lemma TraverseOneSegment(config: Value, key: string)
    ensures Traverse(config, Null, [key]) == ItemOf(config, key)
  {
  }

  /** A segment that finds a YAML null sends the next segment back to the
      top-level config. */
  lemma {:induction false} TraverseNullRestarts(config: Value, current: Value, key: string, rest: seq<string>)
    requires ItemOf(if current.Null? then config else current, key) == Success(Null)
    ensures Traverse(config, current, [key] + rest) == Traverse(config, Null, rest)
  {
    assert ([key] + rest)[1..] == rest;
  }

  /** For `{"a": null, "b": 1}` the path "a.b" yields 1, though `a` holds no `b`. */
  lemma TraverseNullExample()
    ensures
      var config := Mapping(map["a" := Null, "b" := Int(1)]);
      Traverse(config, Null, ["a", "b"]) == Success(Int(1)) &&
      NestedGet(config, ["a", "b"]).Failure?
  {
    var config := Mapping(map["a" := Null, "b" := Int(1)]);
    assert ["a", "b"][1..] == ["b"];
    TraverseNullRestarts(config, Null, "a", ["b"]);
  }

  // ---------------------------------------------------------------------------
  // YamlHandler

  /** `YamlHandler`: the path it was built from and the loaded document. */
  class YamlHandler {
    const path: string
    const config: Document

    constructor (path: string, config: Document)
      ensures this.path == path && this.config == config
    {
      this.path := path;
      this.config := config;
    }

    /** The `path` property. */
    function Path(): (p: string)
      ensures p == path
    {
      path
    }

    /** `self[key]`. */
    function GetItem(key: string): (r: Result<Value, HandlerError>)
      reads config
      ensures config.root.Mapping? ==>
        (r.Success? <==> key in config.root.entries) &&
        (r.Success? ==> r.value == config.root.entries[key]) &&
        (r.Failure? ==> r.error == KeyError(key))
      ensures !config.root.Mapping? ==> r.Failure? && r.error.TypeError?
    {
      ItemOf(config.root, key)
    }

    /** `key in self`. */
    function Contains(key: string): (r: Result<bool, HandlerError>)
      reads config
      ensures config.root.Mapping? ==> r == Success(key in config.root.entries)
      ensures config.root.Mapping? ==> (r == Success(true) <==> GetItem(key).Success?)
    {
      ContainsKey(config.root, key)
    }

    /** `len(self)`. */
    function Len(): (r: Result<nat, HandlerError>)
      reads config
      ensures config.root.Mapping? ==> r == Success(|config.root.entries|)
    {
      LengthOf(config.root)
    }

    /** `self[key] = value`, which writes into the loaded document. */
    method SetItem(key: string, value: Value) returns (r: Outcome<HandlerError>)
      modifies config
      ensures r.Pass? <==> old(config.root).Mapping?
      ensures r.Pass? ==> config.root == WithItem(old(config.root), key, value).value
      ensures r.Pass? ==> GetItem(key) == Success(value) && Contains(key) == Success(true)
      ensures r.Pass? ==> forall other :: other != key ==> GetItem(other) == old(GetItem(other))
      ensures r.Fail? ==> r.error.TypeError? && config.root == old(config.root)
    {
      match WithItem(config.root, key, value)
      case Success(v) =>
        config.root := v;
        r := Pass;
      case Failure(e) =>
        r := Fail(e);
    }

    /** `del self[key]`. */
    method DelItem(key: string) returns (r: Outcome<HandlerError>)
      modifies config
      ensures r.Pass? <==> old(config.root).Mapping? && key in old(config.root).entries
      ensures r.Pass? ==> config.root == WithoutItem(old(config.root), key).value
      ensures r.Pass? ==> Contains(key) == Success(false) && Len() == Success(old(Len()).value - 1)
      ensures r.Pass? ==> forall other :: other != key ==> GetItem(other) == old(GetItem(other))
      ensures old(config.root).Mapping? && key !in old(config.root).entries ==> r == Fail(KeyError(key))
      ensures !old(config.root).Mapping? ==> r.Fail? && r.error.TypeError?
      ensures r.Fail? ==> config.root == old(config.root)
    {
      match WithoutItem(config.root, key)
      case Success(v) =>
        config.root := v;
        r := Pass;
      case Failure(e) =>
        r := Fail(e);
    }

    /** The key traversal of `prop(value)`: split the path on '.', then index
        segment by segment. */
    method Prop(value: string) returns (r: Result<Value, HandlerError>)
      ensures r == Traverse(config.root, Null, Split(value, '.'))
    {
      var keys := Split(value, '.');
      var parsed := Null;
      var i := 0;
      while i < |keys|
        invariant 0 <= i <= |keys|
        invariant Traverse(config.root, Null, keys) == Traverse(config.root, parsed, keys[i..])
      {
        match ItemOf(if parsed.Null? then config.root else parsed, keys[i]) {
          case Failure(e) =>
            return Failure(e);
          case Success(next) =>
            parsed := next;
        }
        i := i + 1;
      }
      return Success(parsed);
    }
  }

  /** `YamlHandler(path)`: record the path, then open it through the cache. */
  method NewYamlHandler(cache: OpenYamlCache, fs: FileSystem, path: string)
    returns (r: Result<YamlHandler, YamlError>)
    modifies cache
    ensures r.Success? <==> old(cache.Holds(path)) || OpenYaml(fs, path).Success?
    ensures r.Success? ==> fresh(r.value) && r.value.Path() == path
    ensures r.Success? ==> cache.slot == Some((path, r.value.config))
    ensures r.Success? && old(cache.Holds(path)) ==> r.value.config == old(cache.slot).value.1
    ensures r.Success? && !old(cache.Holds(path)) ==> fresh(r.value.config) && r.value.config.root == fs[path]
    ensures r.Failure? ==> r.error == OpenYaml(fs, path).error && cache.slot == old(cache.slot)
    ensures cache.loads == old(cache.loads) + (if !old(cache.Holds(path)) && path in fs then [path] else [])
  {
    var outcome := cache.Open(fs, path);
    match outcome
    case Failure(e) =>
      r := Failure(e);
    case Success(doc) =>
      var h := new YamlHandler(path, doc);
      r := Success(h);
  }

  /** The handler writes into the object the cache holds, so reopening the same
      path sees the write without reading the file again. */
  method ReopenSeesWrite(cache: OpenYamlCache, fs: FileSystem, path: string, key: string, value: Value)
    returns (reopened: Result<Document, YamlError>)
    modifies cache
    requires !cache.Holds(path)
    requires OpenYaml(fs, path).Success? && fs[path].Mapping?
    ensures reopened.Success? && ItemOf(reopened.value.root, key) == Success(value)
    ensures cache.loads == old(cache.loads) + [path]
  {
    var h := NewYamlHandler(cache, fs, path);
    var handler := h.value;
    var written := handler.SetItem(key, value);
    reopened := cache.Open(fs, path);
  }
}
