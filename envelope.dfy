/**
 * The request/response envelope shared by both clients, the current one
 * (piazza_api/rpc.py) and the legacy one (piazza_api/__init__.py): the
 * effective network id, the `{method, params}` body, the unwrapping of a
 * `{result, error}` response, the shape of the HTTP requests the clients
 * issue, and the "exactly one of auth/url" check of the demo login.
 */
module Envelope {
  import opened Values

  /** An HTTP POST as the client hands it to its HTTP library. `query` holds
      parameters the library appends to the URL itself; `url` may already
      carry a query string the client formatted by hand. */
  datatype HttpPost = HttpPost(url: string, query: map<string, string>, body: Value,
                               headers: map<string, string>)

  /** An HTTP GET with the parameters the HTTP library would append. */
  datatype HttpGet = HttpGet(url: string, query: map<string, Value>)

  const DemoLoginUrl: string := "https://piazza.com/demo_login"

  /** `nid if nid else self._nid`: the per-call network id when truthy,
      otherwise the one the client was built with. */
  function EffectiveNid(nid: Value, default: Value): (r: Value)
    ensures Truthy(nid) ==> r == nid
    ensures !Truthy(nid) ==> r == default
  {
    if Truthy(nid) then nid else default
  }

  /** `data`, or `{}` when the caller passed None. */
  function DataOrEmpty(data: Option<map<string, Value>>): map<string, Value> {
    if data.Some? then data.value else map[]
  }

  /** `dict({nid_key: nid}, **data)`: every entry of `data` unchanged, plus
      `nid_key` mapped to `nid` unless `data` already has that key. */
  function Params(data: Option<map<string, Value>>, nidKey: string, nid: Value): (p: map<string, Value>)
    ensures p.Keys == DataOrEmpty(data).Keys + {nidKey}
    ensures forall k :: k in DataOrEmpty(data) ==> p[k] == DataOrEmpty(data)[k]
    ensures nidKey !in DataOrEmpty(data) ==> p[nidKey] == nid
  {
    map[nidKey := nid] + DataOrEmpty(data)
  }

  /** The JSON body `{"method": name, "params": params}`. */
  function Body(name: string, params: map<string, Value>): (b: Value)
    ensures b.Dict? && b.fields.Keys == {"method", "params"}
    ensures b.fields["method"] == Str(name) && b.fields["params"] == Dict(params)
  {
    Dict(map["method" := Str(name), "params" := Dict(params)])
  }

  /** Unwrapping a response body: a truthy `error` (checked with `get`, so a
      missing key counts as None) raises RequestError carrying the caller's
      context message and the whole response; otherwise the value of
      `result`, or None when it is missing, is returned. A body that is not
      a JSON object has no `get` and raises AttributeError. */
  function HandleError(response: Value, errMsg: string): (r: Result<Value>)
    ensures r.Ok? <==> response.Dict? && !Truthy(Get(response.fields, "error", Null))
    ensures r.Ok? ==> r.value == Get(response.fields, "result", Null)
    ensures response.Dict? && Truthy(Get(response.fields, "error", Null)) ==>
              r == Err(RequestError(errMsg, response))
    ensures !response.Dict? ==> r == Err(AttributeError("get"))
  {
    if !response.Dict? then Err(AttributeError("get"))
    else if Truthy(Get(response.fields, "error", Null)) then Err(RequestError(errMsg, response))
    else Ok(Get(response.fields, "result", Null))
  }

  /** A string argument the caller passed and that is truthy. */
  predicate Given(o: Option<string>) {
    o.Some? && o.value != ""
  }

  /** `assert all([auth or url, not (auth and url)])`: exactly one of the two
      must be truthy. */
  function DemoLoginCheck(auth: Option<string>, url: Option<string>): (r: Outcome)
    ensures r == Pass <==> (Given(auth) && !Given(url)) || (!Given(auth) && Given(url))
    ensures r.Fail? ==> r.error == AssertionError
  {
    if (Given(auth) || Given(url)) && !(Given(auth) && Given(url)) then Pass else Fail(AssertionError)
  }

  /** The GET a demo login issues once the check passed: the fixed demo URL
      with `nid` and `auth` when no URL was given, the given URL otherwise (a
      given but empty URL is requested as it is). */
  function DemoLoginGet(nid: Value, auth: Option<string>, url: Option<string>): (g: HttpGet)
    ensures url.None? ==> g.url == DemoLoginUrl && g.query.Keys == {"nid", "auth"}
    ensures url.None? ==> g.query["nid"] == nid
    ensures url.None? ==> g.query["auth"] == (if auth.Some? then Str(auth.value) else Null)
    ensures url.Some? ==> g == HttpGet(url.value, map[])
  {
    if url.None? then
      HttpGet(DemoLoginUrl, map["nid" := nid, "auth" := if auth.Some? then Str(auth.value) else Null])
    else
      HttpGet(url.value, map[])
  }

  // ---- Properties of the envelope ----

  /** The per-call id that the caller's data already carries is not
      overwritten: data keys win over the id. */
  lemma ParamsDataWins(data: map<string, Value>, nidKey: string, nid: Value)
    requires nidKey in data
    ensures Params(Some(data), nidKey, nid) == data
  {
  }

  /** The two responses a caller typically gets back. */
  lemma HandleErrorExamples(msg: string)
    ensures HandleError(Dict(map["result" := Dict(map["ok" := Bool(true)]), "error" := Null]), msg)
              == Ok(Dict(map["ok" := Bool(true)]))
    ensures var resp := Dict(map["result" := Null, "error" := Str("no such post")]);
              HandleError(resp, msg) == Err(RequestError(msg, resp))
  {
  }
}
