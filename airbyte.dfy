/** The Airbyte API client of dbt-coves (dbt_coves/utils/airbyte.py): the table of
    endpoint URLs its constructor stores as attributes, the item/attribute access
    it inherits from DictAttrMixin, and the status classification of `call`.
    The HTTP request itself is a parameter (`Transport`) and JSON decoding is an
    opaque parser passed in by the caller. */
module Airbyte {
  import opened Wrappers
  import opened Text

  /** AIRBYTE_ENTITIES, in the source's order. */
  const Entities: seq<string> := [
    "destination_definitions",
    "source_definitions",
    "destination_definition_specifications",
    "source_definition_specifications",
    "connections",
    "sources",
    "destinations",
    "workspaces"
  ]

  /** The verbs crossed with every entity, in the source's order. */
  const Verbs: seq<string> := ["list", "get", "delete", "update", "create"]

  const ApiRoot: string := "api/v1/"

  const NamePrefix: string := "airbyte_endpoint_"

  /** `api_port` is a `str` or an `int`; an f-string renders an int in decimal. */
  datatype Port = PortText(text: string) | PortNumber(number: int)

  function RenderPort(port: Port): string
  {
    match port
    case PortText(t) => t
    case PortNumber(n) => IntDecimal(n)
  }

  /** `f"{host}:{port}/{api_root}"`; it already ends in '/'. */
  function BaseEndpoint(host: string, port: Port): (r: string)
    ensures |host| + 1 + |ApiRoot| < |r|
    ensures r[..|host| + 1] == host + ":"
    ensures r[|r| - |ApiRoot| - 1..] == "/" + ApiRoot
  {
    host + ":" + RenderPort(port) + "/" + ApiRoot
  }

  /** Python's `s[:-1]`: everything but the last character ("" stays ""). */
  function DropLast(s: string): string
  {
    if |s| == 0 then "" else s[..|s| - 1]
  }

  /** The attribute name of one endpoint: the entity is singularised (its last
      character dropped) for `get` only. */
  function EntryName(resource: string, verb: string): string
  {
    NamePrefix + verb + "_" + (if verb != "get" then resource else DropLast(resource))
  }

  /** The URL of one endpoint: always the full entity name. */
  function EndpointUrl(base: string, resource: string, verb: string): string
  {
    base + "/" + resource + "/" + verb
  }

  /** The pairs of `itertools.product(es, vs)` with `es` varying slowest. */
  function Product(es: seq<string>, vs: seq<string>): seq<(string, string)>
  {
    if es == [] then [] else Row(es[0], vs) + Product(es[1..], vs)
  }

  function Row(e: string, vs: seq<string>): (r: seq<(string, string)>)
    ensures |r| == |vs|
    ensures forall k :: 0 <= k < |vs| ==> r[k] == (e, vs[k])
  {
    seq(|vs|, k requires 0 <= k < |vs| => (e, vs[k]))
  }

  /** The attribute map after `self[name] = url` for each pair in turn. */
  function Fill(base: string, pairs: seq<(string, string)>): map<string, string>
  {
    if pairs == [] then map[]
    else
      var init := pairs[..|pairs| - 1];
      var last := pairs[|pairs| - 1];
      Fill(base, init)[EntryName(last.0, last.1) := EndpointUrl(base, last.0, last.1)]
  }

  /** The endpoint attributes of a freshly constructed AirbyteAPI. */
  function EndpointTable(host: string, port: Port): (r: map<string, string>)
    ensures |r| == |Entities| * |Verbs|
  {
    var pairs := Product(Entities, Verbs);
    SourceNamesDistinct();
    ProductMembers(Entities, Verbs);
    FillSize(BaseEndpoint(host, port), pairs);
    Fill(BaseEndpoint(host, port), pairs)
  }

  ghost predicate NoDuplicates<T>(s: seq<T>)
  {
    forall i, j :: 0 <= i < j < |s| ==> s[i] != s[j]
  }

  ghost predicate NamesDistinct(pairs: seq<(string, string)>)
  {
    forall i, j :: 0 <= i < j < |pairs| ==>
      EntryName(pairs[i].0, pairs[i].1) != EntryName(pairs[j].0, pairs[j].1)
  }

  // ---------------------------------------------------------------------------
  // The product of the entities and verbs

  lemma {:induction false} ProductMembers(es: seq<string>, vs: seq<string>)
    ensures |Product(es, vs)| == |es| * |vs|
    ensures forall p: (string, string) :: p in Product(es, vs) <==> p.0 in es && p.1 in vs
  {
    if es != [] {
      ProductMembers(es[1..], vs);
      assert es == [es[0]] + es[1..];
      var row := Row(es[0], vs);
      forall p: (string, string) | p.0 in es && p.1 in vs
        ensures p in Product(es, vs)
      {
        if p.0 == es[0] {
          var k :| 0 <= k < |vs| && vs[k] == p.1;
          assert row[k] == p;
        }
      }
    }
  }

  lemma {:induction false} ProductNoDuplicates(es: seq<string>, vs: seq<string>)
    requires NoDuplicates(es) && NoDuplicates(vs)
    ensures NoDuplicates(Product(es, vs))
  {
    if es != [] {
      var row := Row(es[0], vs);
      var rest := Product(es[1..], vs);
      ProductNoDuplicates(es[1..], vs);
      ProductMembers(es[1..], vs);
      assert es[0] !in es[1..];
      forall i, j | 0 <= i < j < |row + rest|
        ensures (row + rest)[i] != (row + rest)[j]
      {
        if j < |row| {
        } else if i < |row| {
          assert (row + rest)[j] == rest[j - |row|];
          assert rest[j - |row|] in rest;
        } else {
          assert (row + rest)[i] == rest[i - |row|];
          assert (row + rest)[j] == rest[j - |row|];
        }
      }
    }
  }

  // ---------------------------------------------------------------------------
  // Entry names of the real entities and verbs

  lemma EntryNameVerb(resource: string, verb: string)
    requires |verb| > 0
    ensures EntryName(resource, verb)[|NamePrefix|] == verb[0]
  {
    var name := EntryName(resource, verb);
    assert name == NamePrefix + (verb + "_" + (if verb != "get" then resource else DropLast(resource)));
  }

  /** Distinct (entity, verb) pairs of the source's lists get distinct names:
      the verbs start with distinct letters, and the entity parts of one verb
      have distinct lengths. */
  lemma EntryNameInjective(e1: string, v1: string, e2: string, v2: string)
    requires e1 in Entities && e2 in Entities && v1 in Verbs && v2 in Verbs
    requires EntryName(e1, v1) == EntryName(e2, v2)
    ensures e1 == e2 && v1 == v2
  {
    EntryNameVerb(e1, v1);
    EntryNameVerb(e2, v2);
    assert v1[0] == v2[0];
    assert v1 == v2;
    assert |EntryName(e1, v1)| == |EntryName(e2, v2)|;
  }

  lemma {:induction false} SourceNamesDistinct()
    ensures NoDuplicates(Product(Entities, Verbs))
    ensures NamesDistinct(Product(Entities, Verbs))
  {
    assert NoDuplicates(Entities);
    assert NoDuplicates(Verbs);
    ProductNoDuplicates(Entities, Verbs);
    ProductMembers(Entities, Verbs);
    var pairs := Product(Entities, Verbs);
    forall i, j | 0 <= i < j < |pairs|
      ensures EntryName(pairs[i].0, pairs[i].1) != EntryName(pairs[j].0, pairs[j].1)
    {
      assert pairs[i] in pairs && pairs[j] in pairs;
      if EntryName(pairs[i].0, pairs[i].1) == EntryName(pairs[j].0, pairs[j].1) {
        EntryNameInjective(pairs[i].0, pairs[i].1, pairs[j].0, pairs[j].1);
      }
    }
  }

  // ---------------------------------------------------------------------------
  // What the loop builds

  /** One more turn of the loop sets one more attribute. */
  lemma FillStep(base: string, pairs: seq<(string, string)>, k: nat)
    requires k < |pairs|
    ensures Fill(base, pairs[..k + 1]) ==
      Fill(base, pairs[..k])[EntryName(pairs[k].0, pairs[k].1) := EndpointUrl(base, pairs[k].0, pairs[k].1)]
  {
    assert pairs[..k + 1][..k] == pairs[..k];
  }

  /** Every key of the filled map is the name of some pair (no distinctness needed). */
  lemma {:induction false} FillKeys(base: string, pairs: seq<(string, string)>)
    ensures forall name :: name in Fill(base, pairs) ==>
      exists i :: 0 <= i < |pairs| && name == EntryName(pairs[i].0, pairs[i].1)
  {
    if pairs != [] {
      var n := |pairs| - 1;
      FillKeys(base, pairs[..n]);
      assert Fill(base, pairs) == Fill(base, pairs[..n])[EntryName(pairs[n].0, pairs[n].1) := EndpointUrl(base, pairs[n].0, pairs[n].1)];
      forall name | name in Fill(base, pairs)
        ensures exists i :: 0 <= i < |pairs| && name == EntryName(pairs[i].0, pairs[i].1)
      {
        if name != EntryName(pairs[n].0, pairs[n].1) {
          var i :| 0 <= i < n && name == EntryName(pairs[..n][i].0, pairs[..n][i].1);
          assert pairs[..n][i] == pairs[i];
        }
      }
    }
  }

  /** A prefix of pairs with distinct names has distinct names. */
  lemma NamesDistinctPrefix(pairs: seq<(string, string)>, n: nat)
    requires NamesDistinct(pairs) && n <= |pairs|
    ensures NamesDistinct(pairs[..n])
  {
    forall i, j | 0 <= i < j < n
      ensures EntryName(pairs[..n][i].0, pairs[..n][i].1) != EntryName(pairs[..n][j].0, pairs[..n][j].1)
    {
      assert pairs[..n][i] == pairs[i] && pairs[..n][j] == pairs[j];
    }
  }

  /** The last pair's name is not yet set by the turns before it. */
  lemma LastNameFresh(base: string, pairs: seq<(string, string)>)
    requires NamesDistinct(pairs) && pairs != []
    ensures EntryName(pairs[|pairs| - 1].0, pairs[|pairs| - 1].1) !in Fill(base, pairs[..|pairs| - 1])
  {
    var n := |pairs| - 1;
    var init := pairs[..n];
    FillKeys(base, init);
    var last := EntryName(pairs[n].0, pairs[n].1);
    forall i | 0 <= i < n
      ensures last != EntryName(init[i].0, init[i].1)
    {
      assert init[i] == pairs[i];
    }
  }

  /** With distinct names, every turn of the loop adds a new attribute. */
  lemma {:induction false} FillSize(base: string, pairs: seq<(string, string)>)
    requires NamesDistinct(pairs)
    ensures |Fill(base, pairs)| == |pairs|
  {
    if pairs != [] {
      var n := |pairs| - 1;
      NamesDistinctPrefix(pairs, n);
      FillSize(base, pairs[..n]);
      LastNameFresh(base, pairs);
    }
  }

  /** With distinct names, no later turn overwrites a pair's URL. */
  lemma {:induction false} FillValue(base: string, pairs: seq<(string, string)>, i: nat)
    requires NamesDistinct(pairs) && i < |pairs|
    ensures EntryName(pairs[i].0, pairs[i].1) in Fill(base, pairs)
    ensures Fill(base, pairs)[EntryName(pairs[i].0, pairs[i].1)] == EndpointUrl(base, pairs[i].0, pairs[i].1)
  {
    var n := |pairs| - 1;
    if i < n {
      var init := pairs[..n];
      NamesDistinctPrefix(pairs, n);
      FillValue(base, init, i);
      assert init[i] == pairs[i];
      assert EntryName(pairs[i].0, pairs[i].1) != EntryName(pairs[n].0, pairs[n].1);
    }
  }

  /** With distinct names, the filled map has one entry per pair, holding that
      pair's URL. */
  lemma FillEntries(base: string, pairs: seq<(string, string)>)
    requires NamesDistinct(pairs)
    ensures |Fill(base, pairs)| == |pairs|
    ensures forall i :: 0 <= i < |pairs| ==>
      EntryName(pairs[i].0, pairs[i].1) in Fill(base, pairs) &&
      Fill(base, pairs)[EntryName(pairs[i].0, pairs[i].1)] == EndpointUrl(base, pairs[i].0, pairs[i].1)
  {
    FillSize(base, pairs);
    forall i | 0 <= i < |pairs|
      ensures EntryName(pairs[i].0, pairs[i].1) in Fill(base, pairs) &&
        Fill(base, pairs)[EntryName(pairs[i].0, pairs[i].1)] == EndpointUrl(base, pairs[i].0, pairs[i].1)
    {
      FillValue(base, pairs, i);
    }
  }

  /** A new client holds exactly one attribute per (entity, verb) pair: 40 in all. */
  lemma EndpointTableSize(host: string, port: Port)
    ensures |EndpointTable(host, port)| == |Entities| * |Verbs| == 40
  {
    SourceNamesDistinct();
    ProductMembers(Entities, Verbs);
    FillEntries(BaseEndpoint(host, port), Product(Entities, Verbs));
  }

  /** The entry of one (entity, verb) pair of the source's lists. */
  lemma TableEntry(base: string, e: string, v: string)
    requires e in Entities && v in Verbs
    ensures EntryName(e, v) in Fill(base, Product(Entities, Verbs))
    ensures Fill(base, Product(Entities, Verbs))[EntryName(e, v)] == EndpointUrl(base, e, v)
  {
    var pairs := Product(Entities, Verbs);
    SourceNamesDistinct();
    ProductMembers(Entities, Verbs);
    assert (e, v) in pairs;
    var i :| 0 <= i < |pairs| && pairs[i] == (e, v);
    FillValue(base, pairs, i);
  }

  /** Every key set by the loop names some (entity, verb) pair of the source's lists. */
  lemma TableKey(base: string, name: string)
    requires name in Fill(base, Product(Entities, Verbs))
    ensures exists e, v :: e in Entities && v in Verbs && name == EntryName(e, v)
  {
    var pairs := Product(Entities, Verbs);
    ProductMembers(Entities, Verbs);
    FillKeys(base, pairs);
    var i :| 0 <= i < |pairs| && name == EntryName(pairs[i].0, pairs[i].1);
    assert pairs[i] in pairs;
  }

  /** Every (entity, verb) pair has its entry, named by EntryName and pointing at
      EndpointUrl, and there is no other entry. */
  lemma EndpointTableEntries(host: string, port: Port)
    ensures forall e, v :: e in Entities && v in Verbs ==>
      EntryName(e, v) in EndpointTable(host, port) &&
      EndpointTable(host, port)[EntryName(e, v)] == EndpointUrl(BaseEndpoint(host, port), e, v)
    ensures forall name :: name in EndpointTable(host, port) ==>
      exists e, v :: e in Entities && v in Verbs && name == EntryName(e, v)
  {
    var base := BaseEndpoint(host, port);
    assert EndpointTable(host, port) == Fill(base, Product(Entities, Verbs));
    forall e, v | e in Entities && v in Verbs
      ensures EntryName(e, v) in EndpointTable(host, port) &&
        EndpointTable(host, port)[EntryName(e, v)] == EndpointUrl(base, e, v)
    {
      TableEntry(base, e, v);
    }
    forall name | name in EndpointTable(host, port)
      ensures exists e, v :: e in Entities && v in Verbs && name == EntryName(e, v)
    {
      TableKey(base, name);
    }
  }

  /** Names: `get` singularises the entity, the other verbs keep it whole. */
  lemma EntryNameShape(resource: string, verb: string)
    ensures verb == "get" && resource != [] ==>
      EntryName(resource, verb) == "airbyte_endpoint_get_" + resource[..|resource| - 1]
    ensures verb == "get" && resource == [] ==> EntryName(resource, verb) == "airbyte_endpoint_get_"
    ensures verb != "get" ==>
      EntryName(resource, verb) == "airbyte_endpoint_" + verb + "_" + resource
    ensures EntryName("sources", "get") == "airbyte_endpoint_get_source"
    ensures EntryName("sources", "list") == "airbyte_endpoint_list_sources"
  {
  }

  /** URLs: `host:port/api/v1/` then '/', so every URL holds the doubled slash
      "api/v1//", and the plural entity name even for `get`. */
  lemma EndpointUrlShape(host: string, port: Port, resource: string, verb: string)
    ensures
      var url := EndpointUrl(BaseEndpoint(host, port), resource, verb);
      var base := host + ":" + RenderPort(port) + "/";
      url == base + "api/v1//" + resource + "/" + verb &&
      IsSubstring("api/v1//", url)
  {
    var url := EndpointUrl(BaseEndpoint(host, port), resource, verb);
    var base := host + ":" + RenderPort(port) + "/";
    assert url == base + "api/v1//" + resource + "/" + verb;
    assert url[|base|..|base| + 8] == "api/v1//";
    SubstringAt("api/v1//", url, |base|);
  }

  /** One URL written out, for a numeric port. */
  lemma EndpointUrlExample()
    ensures EndpointUrl(BaseEndpoint("http://localhost", PortNumber(8000)), "sources", "get")
      == "http://localhost:8000/api/v1//sources/get"
  {
    DecimalExample();
  }

  lemma DecimalExample()
    ensures RenderPort(PortNumber(8000)) == "8000"
  {
    assert NatDecimal(8) == "8";
    assert NatDecimal(80) == NatDecimal(8) + "0";
    assert NatDecimal(800) == NatDecimal(80) + "0";
    assert NatDecimal(8000) == NatDecimal(800) + "0";
  }

  // ---------------------------------------------------------------------------
  // The client object

  /** `getattr`/`delattr` on a missing name raise AttributeError. */
  datatype AttrError = AttributeError(name: string)

  /** An AirbyteAPI object; its instance attributes are `attributes`, which item
      access (DictAttrMixin) and attribute access read and write alike. */
  class AirbyteApi {
    var attributes: map<string, string>

    /** `AirbyteAPI.__init__`: the attributes are the endpoint table. */
    constructor (host: string, port: Port)
      ensures attributes == EndpointTable(host, port)
      ensures |attributes| == 40
    {
      attributes := map[];
      new;
      var base := BaseEndpoint(host, port);
      SetEndpoints(base, Product(Entities, Verbs));
      assert attributes == EndpointTable(host, port);
    }

    /** The endpoint-table loop of `AirbyteAPI.__init__`, one `self[name] = url`
        per product pair, starting from no attributes. */
    method SetEndpoints(base: string, pairs: seq<(string, string)>)
      requires attributes == map[]
      modifies this
      ensures attributes == Fill(base, pairs)
    {
      var k := 0;
      while k < |pairs|
        invariant 0 <= k <= |pairs|
        invariant attributes == Fill(base, pairs[..k])
      {
        var (resource, verb) := pairs[k];
        FillStep(base, pairs, k);
        SetItem(EntryName(resource, verb), EndpointUrl(base, resource, verb));
        k := k + 1;
      }
      assert pairs[..k] == pairs;
    }

    /** `self[name]`, which is `getattr(self, name)`. */
    function GetItem(name: string): (r: Result<string, AttrError>)
      reads this
      ensures r.Success? <==> name in attributes
      ensures r.Success? ==> r.value == attributes[name]
      ensures r.Failure? ==> r.error == AttributeError(name)
    {
      if name in attributes then Success(attributes[name]) else Failure(AttributeError(name))
    }

    /** `self[name] = value`, which is `setattr(self, name, value)`: afterwards
        both item and attribute access give `value`, and nothing else changed. */
    method SetItem(name: string, value: string)
      modifies this
      ensures attributes == old(attributes)[name := value]
      ensures GetItem(name) == Success(value)
      ensures forall other :: other != name ==> GetItem(other) == old(GetItem(other))
    {
      attributes := attributes[name := value];
    }

    /** `del self[name]`, which is `delattr(self, name)`. */
    method DelItem(name: string) returns (r: Outcome<AttrError>)
      modifies this
      ensures r == (if name in old(attributes) then Pass else Fail(AttributeError(name)))
      ensures attributes == old(attributes) - {name}
      ensures GetItem(name) == Failure(AttributeError(name))
      ensures forall other :: other != name ==> GetItem(other) == old(GetItem(other))
    {
      if name in attributes {
        attributes := attributes - {name};
        r := Pass;
      } else {
        r := Fail(AttributeError(name));
      }
    }
  }

  // ---------------------------------------------------------------------------
  // call

  datatype Response = Response(statusCode: int, text: string)

  /** What `requests.post` did: a response, or a RequestException with its text. */
  datatype Transport = Delivered(response: Response) | RequestFailed(reason: string)

  datatype CallError =
    /** The wrapped error; its message names the endpoint. */
    | AirbyteException(message: string)
    /** `json.loads` rejected the text; this is not a RequestException, so
        `call` lets it escape unwrapped. */
    | JsonDecodeError(text: string)
    /** The decoded error body has no "message" member. */
    | MissingMessage(text: string)

  function ErrorPrefix(endpoint: string): string
  {
    "Airbyte API error in endpoint " + endpoint + ": "
  }

  function StatusMessage(endpoint: string, status: int, message: string): string
  {
    "Unexpected status code from airbyte in endpoint " + endpoint + ": " + IntDecimal(status) + ": " + message
  }

  /** The message for a bad status starts by naming the endpoint and contains
      the status code. */
  lemma StatusMessageNamesStatus(endpoint: string, status: int, message: string)
    ensures var full := ErrorPrefix(endpoint) + StatusMessage(endpoint, status, message);
      |ErrorPrefix(endpoint)| <= |full| &&
      full[..|ErrorPrefix(endpoint)|] == ErrorPrefix(endpoint) &&
      IsSubstring(IntDecimal(status), full)
  {
    var pre := ErrorPrefix(endpoint);
    var lead := "Unexpected status code from airbyte in endpoint " + endpoint + ": ";
    var digits := IntDecimal(status);
    var tail := ": " + message;
    assert StatusMessage(endpoint, status, message) == lead + digits + tail;
    assert pre + (lead + digits + tail) == (pre + lead) + digits + tail;
    SubstringOfConcat(pre + lead, digits, tail);
    SubstringOfConcat(pre, lead + digits + tail, "");
    assert pre + (lead + digits + tail) + "" == pre + (lead + digits + tail);
  }

  predicate IsSuccessStatus(status: int)
  {
    200 <= status < 300
  }

  /** `AirbyteAPI.call`: `loads` is `json.loads` (None where it raises) and
      `messageOf` reads the "message" member of a decoded error body. */
  function Call<J>(endpoint: string, transport: Transport, loads: string -> Option<J>,
                   messageOf: J -> Option<string>): (r: Result<Option<J>, CallError>)
    ensures transport.RequestFailed? ==>
      r == Failure(AirbyteException(ErrorPrefix(endpoint) + transport.reason))
    ensures transport.Delivered? ==>
      (r.Success? <==> IsSuccessStatus(transport.response.statusCode) &&
                       (transport.response.text == "" || loads(transport.response.text).Some?))
    ensures r.Success? ==> (r.value.None? <==> transport.response.text == "")
    ensures transport.Delivered? && IsSuccessStatus(transport.response.statusCode) &&
            transport.response.text != "" && loads(transport.response.text).None? ==>
      r == Failure(JsonDecodeError(transport.response.text))
    ensures transport.Delivered? && !IsSuccessStatus(transport.response.statusCode) ==>
      match loads(transport.response.text)
      case None => r == Failure(JsonDecodeError(transport.response.text))
      case Some(json) =>
        match messageOf(json)
        case None => r == Failure(MissingMessage(transport.response.text))
        case Some(m) =>
          r == Failure(AirbyteException(ErrorPrefix(endpoint) +
                                        StatusMessage(endpoint, transport.response.statusCode, m)))
    ensures r.Success? && r.value.Some? ==> loads(transport.response.text) == r.value
    ensures r.Failure? && r.error.AirbyteException? ==>
      |ErrorPrefix(endpoint)| <= |r.error.message| &&
      r.error.message[..|ErrorPrefix(endpoint)|] == ErrorPrefix(endpoint)
    ensures transport.Delivered? && !IsSuccessStatus(transport.response.statusCode) &&
            r.Failure? && r.error.AirbyteException? ==>
      IsSubstring(IntDecimal(transport.response.statusCode), r.error.message)
  {
    match transport
    case RequestFailed(reason) => Failure(AirbyteException(ErrorPrefix(endpoint) + reason))
    case Delivered(response) =>
      if IsSuccessStatus(response.statusCode) then
        if response.text == "" then Success(None)
        else
          match loads(response.text)
          case Some(json) => Success(Some(json))
          case None => Failure(JsonDecodeError(response.text))
      else
        match loads(response.text)
        case None => Failure(JsonDecodeError(response.text))
        case Some(json) =>
          match messageOf(json)
          case None => Failure(MissingMessage(response.text))
          case Some(message) =>
            StatusMessageNamesStatus(endpoint, response.statusCode, message);
            Failure(AirbyteException(ErrorPrefix(endpoint) + StatusMessage(endpoint, response.statusCode, message)))
  }
}
