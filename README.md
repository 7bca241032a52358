# dbt-coves core helpers in Dafny

This project models three small pieces of dbt-coves, a command-line helper for
dbt projects, and proves properties about them:

- **Airbyte client** (`dbt_coves/utils/airbyte.py`). The constructor of
  `AirbyteAPI` fills one attribute per (entity, verb) pair, naming the endpoint
  and holding its URL. `DictAttrMixin` makes item access and attribute access
  the same thing. `call` sorts a response by status code. The module is
  `Airbyte`. The class `AirbyteApi` keeps the instance attributes in a map
  field. Its constructor runs the source's single loop over
  `itertools.product`, written as the method `SetEndpoints`. The HTTP outcome is a `Transport` value. `json.loads`
  is a parser passed in by the caller.
- **YAML helpers** (`dbt_coves/utils/yaml.py`). `open_yaml` decides between a
  missing file, an empty file and contents. It is memoised by
  `lru_cache(maxsize=1)`, modelled as the class `OpenYamlCache` with one slot.
  `YamlHandler` is a mutable view of the loaded document with
  get/set/delete/contains/len. `prop` looks up a dotted key. The module is
  `Yaml`. The file system is a map from the paths that are files to what the
  YAML loader returns for them. The loaded document is a heap object
  (`Document`) that the cache and the handler share, as they do in Python.
- **Command dispatch** (`handle` in `dbt_coves/core/main.py`). Parse, refuse a
  missing command, install the traceback handler, load the configuration when
  the task needs it, switch to debug logging, then run the task. The module is
  `Dispatch`. What the unseen collaborators return is passed in. Each call they
  receive is recorded in a ghost trace of `Event`s. The process-wide logging
  switch is the `LogManager` object.

`Wrappers` holds the `Option`/`Result`/`Outcome` types that stand for Python
exceptions. `Text` holds `str(int)`, string `in`, and `str.split` with its
inverse `join`.

Behaviour of the code worth noting:
- A response body that is not valid JSON makes `json.loads` raise. That error
  is not a `RequestException`, so it leaves `call` unwrapped and does not name
  the endpoint. The same holds for an error body without a `message` member.
- A transport error carries no status code.
- The configuration cache holds one path: opening another path replaces the
  remembered entry.

## Model

| member | source | states |
|---|---|---|
| `Airbyte.AirbyteApi.constructor` | dbt_coves/utils/airbyte.py:36-55 | the loop over the product of entities and verbs leaves exactly the endpoint table as attributes, 40 of them |
| `Airbyte.EndpointTableSize` | dbt_coves/utils/airbyte.py:8-17 | 8 entities times 5 verbs give 40 attributes: no two pairs share a name |
| `Airbyte.EndpointTableEntries` | dbt_coves/utils/airbyte.py:43-55 | every (entity, verb) pair has its entry, holding that pair's URL, and there is no other entry |
| `Airbyte.SourceNamesDistinct` | dbt_coves/utils/airbyte.py:43-55 | the product has no repeated pair and no two of its pairs get the same attribute name |
| `Airbyte.EntryNameInjective` | dbt_coves/utils/airbyte.py:54 | two entity/verb pairs of the source's lists with the same attribute name are the same pair |
| `Airbyte.ProductMembers` | dbt_coves/utils/airbyte.py:43-52 | `product(es, vs)` has `len(es) * len(vs)` pairs, exactly those with the entity in `es` and the verb in `vs` |
| `Airbyte.ProductNoDuplicates` | dbt_coves/utils/airbyte.py:43-52 | the product of two lists without repeats has no repeated pair |
| `Airbyte.FillKeys` | dbt_coves/utils/airbyte.py:53-55 | every attribute the loop sets is named after some pair it visited |
| `Airbyte.FillEntries` | dbt_coves/utils/airbyte.py:53-55 | when the names are distinct, the loop leaves one attribute per pair, holding that pair's URL |
| `Airbyte.FillSize` | dbt_coves/utils/airbyte.py:53-55 | when the names are distinct, each turn of the loop adds a new attribute, so there are as many attributes as pairs |
| `Airbyte.FillValue` | dbt_coves/utils/airbyte.py:53-55 | when the names are distinct, no later turn overwrites the URL an earlier pair set |
| `Airbyte.TableEntry` | dbt_coves/utils/airbyte.py:43-55 | each (entity, verb) pair of the source's two lists has its attribute, holding that pair's URL |
| `Airbyte.TableKey` | dbt_coves/utils/airbyte.py:43-55 | every attribute the loop sets is named after an (entity, verb) pair of the source's two lists |
| `Airbyte.AirbyteApi.SetEndpoints` | dbt_coves/utils/airbyte.py:53-55 | starting from no attributes, the loop leaves exactly the attributes the table function builds from the pairs |
| `Airbyte.EntryNameShape` | dbt_coves/utils/airbyte.py:54 | every attribute name is `airbyte_endpoint_`, the verb, `_`, then the entity; for `get` the entity loses its last character (`airbyte_endpoint_get_source`), for the other verbs it is whole |
| `Airbyte.BaseEndpoint` | dbt_coves/utils/airbyte.py:37-41 | the base starts with the host and a colon and ends with `/api/v1/` |
| `Airbyte.EndpointTable` | dbt_coves/utils/airbyte.py:43-55 | the table the loop builds has `len(AIRBYTE_ENTITIES) * 5` entries |
| `Airbyte.FillStep` | dbt_coves/utils/airbyte.py:53-55 | one turn of the loop adds the current pair's name with its URL to the attributes set so far |
| `Airbyte.EndpointUrlShape` | dbt_coves/utils/airbyte.py:39-41 | every URL is `host:port/` then `api/v1//` then the plural entity and the verb, so it holds the doubled slash |
| `Airbyte.EndpointUrlExample` | dbt_coves/utils/airbyte.py:55 | the `get` URL of `sources` on `http://localhost` port 8000 is `http://localhost:8000/api/v1//sources/get` |
| `Airbyte.AirbyteApi.GetItem` | dbt_coves/utils/airbyte.py:25-26 | `self[name]` gives the attribute when present and raises AttributeError naming it otherwise |
| `Airbyte.AirbyteApi.SetItem` | dbt_coves/utils/airbyte.py:28-29 | after `self[name] = v`, item and attribute access give `v` and every other attribute is unchanged |
| `Airbyte.AirbyteApi.DelItem` | dbt_coves/utils/airbyte.py:31-32 | `del self[name]` removes the attribute and nothing else; an absent name raises AttributeError |
| `Airbyte.Call` | dbt_coves/utils/airbyte.py:91-108 | a delivered response succeeds exactly for status 200 to 299 with an empty or decodable body; an empty body gives None and any other the decoded JSON; a 2xx body that does not decode raises the decoding error; a bad status raises the decoding error for an undecodable body, the missing-member error for a body without `message`, and otherwise AirbyteException with the message "Airbyte API error in endpoint E: Unexpected status code from airbyte in endpoint E: S: M"; a transport error becomes AirbyteException naming the endpoint |
| `Airbyte.StatusMessageNamesStatus` | dbt_coves/utils/airbyte.py:101-108 | the bad-status message starts by naming the endpoint and contains the status code in decimal |
| `Text.IntDecimal` | dbt_coves/utils/airbyte.py:103 | `str(n)` of an int: a leading minus exactly for negatives, followed by the decimal digits of the absolute value |
| `Text.NatDecimal` | dbt_coves/utils/airbyte.py:41 | `str(n)` of a non-negative int is a digit string whose decimal value is `n`, with no leading zero except for 0 itself |
| `Yaml.Truthy` | dbt_coves/utils/yaml.py:24 | the contents that count as empty are exactly None, False, 0, "", an empty list and an empty mapping |
| `Yaml.OpenYaml` | dbt_coves/utils/yaml.py:13-27 | contents are returned exactly when the path is a file whose loaded contents are truthy; a missing file raises FileNotFoundError and an empty one YAMLFileEmptyError |
| `Yaml.OpenYamlCache.Open` | dbt_coves/utils/yaml.py:12 | a repeat call with the cached path returns the cached object without loading; another path runs `open_yaml`, loading only an existing file, and a success replaces the slot while a failure leaves it untouched |
| `Yaml.NewYamlHandler` | dbt_coves/utils/yaml.py:41-47 | a handler is built exactly when `open_yaml` succeeds or the path is cached; its `path` is the path given, and its config is the object the cache holds; a failure leaves the cache untouched |
| `Yaml.YamlHandler.constructor` | dbt_coves/utils/yaml.py:41-43 | the handler keeps the path and the opened document; neither field is reassigned afterwards |
| `Yaml.ReopenSeesWrite` | dbt_coves/utils/yaml.py:78-79 | starting from a cache that does not hold the path, a write through the handler is visible when the same path is opened again, and the two opens load the file only once, because the cache holds the same object |
| `Yaml.ItemOf` | dbt_coves/utils/yaml.py:75-76 | `h[k]` gives the stored value when the key is present, raises KeyError when absent, and TypeError when the document is not a mapping |
| `Yaml.ContainsKey` | dbt_coves/utils/yaml.py:84-85 | `k in h` on a mapping is key membership, true exactly when `h[k]` succeeds |
| `Yaml.LengthOf` | dbt_coves/utils/yaml.py:87-88 | `len(h)` of a mapping is its number of keys |
| `Yaml.WithItem` | dbt_coves/utils/yaml.py:78-79 | after `h[k] = v`: `h[k] == v`, `k in h`, the length grows by one exactly when `k` was absent, every other key is unchanged |
| `Yaml.WithoutItem` | dbt_coves/utils/yaml.py:81-82 | after `del h[k]`: `k not in h`, the length shrinks by one, every other key is unchanged; an absent key raises KeyError, and a value that is not a mapping raises TypeError |
| `Yaml.SetThenDeleteRestores` | dbt_coves/utils/yaml.py:78-82 | setting a new key and deleting it gives back the original mapping |
| `Yaml.YamlHandler.Path` | dbt_coves/utils/yaml.py:45-47 | the `path` property gives the path the handler was built with |
| `Yaml.YamlHandler.GetItem` | dbt_coves/utils/yaml.py:75-76 | `h[k]` on a mapping document gives the stored value, or raises KeyError naming `k` when it is absent; other documents raise TypeError |
| `Yaml.YamlHandler.Contains` | dbt_coves/utils/yaml.py:84-85 | `k in h` on a mapping document is key membership, true exactly when `h[k]` succeeds |
| `Yaml.YamlHandler.Len` | dbt_coves/utils/yaml.py:87-88 | `len(h)` on a mapping document is its number of keys |
| `Yaml.YamlHandler.SetItem` | dbt_coves/utils/yaml.py:78-79 | the handler's document becomes the mapping with the new entry; other keys keep their values |
| `Yaml.YamlHandler.DelItem` | dbt_coves/utils/yaml.py:81-82 | the handler's document loses the key and its length drops by one; other keys keep their values; an absent key raises KeyError, a document that is not a mapping raises TypeError, and a failure changes nothing |
| `Yaml.YamlHandler.Prop` | dbt_coves/utils/yaml.py:65-71 | the loop splits the path on '.' and indexes segment by segment, giving the traversal result including its errors |
| `Yaml.Traverse` | dbt_coves/utils/yaml.py:65-71 | an empty key list leaves the current value; a KeyError names one of the path's segments |
| `Yaml.TraverseFollowsPath` | dbt_coves/utils/yaml.py:65-71 | when no segment before the last finds a null, the lookup indexes each found value in turn |
| `Yaml.TraverseFromValue` | dbt_coves/utils/yaml.py:68-70 | from a non-null value, the loop indexes each found value in turn while no null is met |
| `Yaml.TraverseOneSegment` | dbt_coves/utils/yaml.py:65-71 | a one-segment path yields `config[key]` |
| `Yaml.TraverseNullRestarts` | dbt_coves/utils/yaml.py:68-70 | a segment that finds a YAML null sends the next segment back to the top-level config |
| `Yaml.TraverseNullExample` | dbt_coves/utils/yaml.py:68-70 | for `{"a": null, "b": 1}` the path `a.b` yields 1, whereas indexing the null would fail |
| `Text.Split` | dbt_coves/utils/yaml.py:65 | `value.split(".")` gives at least one segment and no segment holds a '.' |
| `Text.JoinSplit` | dbt_coves/utils/yaml.py:65 | joining the segments with '.' gives back the path |
| `Text.SplitJoin` | dbt_coves/utils/yaml.py:65 | splitting a '.'-join of dot-free segments gives back the segments |
| `Dispatch.HandleSpec` | dbt_coves/core/main.py:92-112 | the calls always start with the parse; MissingCommand is raised exactly when there is no task class; a configuration error is raised exactly when the task needs configuration and loading it fails, and it carries `load_config`'s own error; once configuration passed, an exception from `run()` leaves `handle` unchanged as a TaskError with the same reason |
| `Dispatch.Handle` | dbt_coves/core/main.py:92-112 | the result and the calls made are those of the dispatch sequence; debug logging ends up on exactly when it was on or the sequence switched it on |
| `Dispatch.MissingTaskRaisesFirst` | dbt_coves/core/main.py:96-97 | without a task class `handle` raises right after parsing: no traceback handler, no configuration, no task |
| `Dispatch.ConfigLoadedIffNeeded` | dbt_coves/core/main.py:104-107 | the configuration is constructed and loaded exactly when `needs_config` holds; otherwise the task gets no configuration |
| `Dispatch.DebugIffLevelDebug` | dbt_coves/core/main.py:109-110 | debug logging is switched on exactly when the log level is the string `debug` and the steps before succeeded |
| `Dispatch.UpperCaseDebugIgnored` | dbt_coves/core/main.py:109 | the comparison is case-sensitive: `DEBUG` does not switch on debug logging |
| `Dispatch.CallsInOrder` | dbt_coves/core/main.py:93-112 | the trace starts with the parse and its calls keep the fixed order parse, traceback, configuration, debug, instantiate, run; the traceback handler is always the second call once a task class exists, and the trace always ends with building and running the task once the configuration step passed; a failed `load_config` ends the trace at the load, so neither debug switching nor the task follows |
| `Dispatch.ReturnsRunResult` | dbt_coves/core/main.py:112 | `handle` returns normally exactly when the task exists, the configuration loaded if needed and `run()` returned, and then it returns `run()`'s code |

## Left out

- The HTTP request (`requests.post`) is the `Transport` parameter of `Airbyte.Call`. JSON decoding is the `loads` parameter. Reading the `message` member of an error body is the `messageOf` parameter.
- The `body` argument of `call` is not modelled: it only feeds the HTTP request.
- The workspace, connection, source and destination fetches at the end of `AirbyteAPI.__init__` and `load_definitions` (dbt_coves/utils/airbyte.py:57-89) are not modelled: they are network calls. So is the re-wrapping of their errors.
- Airbyte.AirbyteApi.constructor: covers only the endpoint-table loop, not the network fetches that follow it.
- Airbyte.AirbyteApi.GetItem: only instance attributes are modelled. `getattr` also finds names through the class, such as the methods `call` and `load_definitions` and `__module__`; the model reports these as AttributeError.
- `DictAttrMixin` is not a class of its own. Its three methods are members of `AirbyteApi`, and its attributes are string-valued only.
- YAML parsing and dumping, `save_yaml`, `YamlHandler.save` and `__repr__` are not modelled. The loader is the `FileSystem` parameter, and `save` calls `save_yaml` without its data.
- `Path.is_file` is membership in the `FileSystem` map. `path.resolve()` is not modelled: error values carry the path as given. A path string stands for a normalised `Path`; different spellings of one path (`a//b`, `a/./b`, `a/b`) are not identified, so the cache misses where `lru_cache` would hit.
- YAML floats, dates and non-string mapping keys are not modelled. Nested values are plain values, so only the top-level document is shared by reference.
- The `prop` decorator wrapper is not modelled, because `@wraps` is applied without an argument. Only its key traversal is.
- `DbtCovesFlags`, `DbtCovesConfig`, `DbtCovesTraceback` and `BaseTask.get_instance` are not part of this model. Their effects are the parameters of `Dispatch.Handle` and the events of its trace.
- Dispatch.Handle: argument-parsing errors are not modelled, and neither are exceptions from building the configuration, from the traceback handler or from `get_instance`. `get_instance(...).run()` is one outcome.
- `MissingCommand` and `log_manager` are not bound in dbt_coves/core/main.py. The model raises `MissingCommand` and records `SetDebug` rather than reproducing the `NameError`.
- The click option and command declarations in dbt_coves/core/main.py are not modelled: they are library configuration.
- dbt_coves/tasks/setup/all.py, dbt_coves/tasks/setup/main.py, dbt_coves/utils/jinja.py, dbt_coves/utils/log.py and dbt_coves/tasks/setup/utils.py are not part of this model. They hold orchestration of unseen tasks, argparse registration, template rendering, logging setup and console output.
