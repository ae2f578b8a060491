/**
 * The legacy client of piazza_api/__init__.py. It predates the session
 * object: the login state is a cookie jar that is None until a login
 * succeeds, each request posts to the logic API with the method name as a
 * query parameter, and the user-management calls unwrap the response the
 * same way the current client's `_handle_error` does.
 */
module Legacy {
  import opened Values
  import opened Envelope
  import Rpc

  const BaseApiUrl: string := "https://piazza.com/logic/api"
  const NotAuthenticatedMessage: string := "You must authenticate before making any other requests."

  /** The check `user_auth` applies to the decoded login response:
      `r.json()["result"] not in ["OK"]`. Indexing a body that is not an
      object raises TypeError, a missing key KeyError, and any result other
      than the string "OK" AuthenticationError. */
  function LoginResultCheck(response: Value): (r: Outcome)
    ensures r == Pass <==> response.Dict? && "result" in response.fields
                           && response.fields["result"] == Str("OK")
    ensures !response.Dict? ==> r == Fail(TypeError)
    ensures response.Dict? && "result" !in response.fields ==> r == Fail(KeyError("result"))
    ensures response.Dict? && "result" in response.fields && response.fields["result"] != Str("OK") ==>
              r.Fail? && r.error.AuthenticationError?
  {
    if !response.Dict? then Fail(TypeError)
    else if "result" !in response.fields then Fail(KeyError("result"))
    else if response.fields["result"] != Str("OK") then Fail(AuthenticationError("Could not authenticate."))
    else Pass
  }

  /** The POST a legacy request issues: the method name both as a query
      parameter and in the body. */
  function LegacyPost(name: string, params: map<string, Value>): (p: HttpPost)
    ensures p.url == BaseApiUrl && p.query == map["method" := name] && p.headers == map[]
    ensures p.body.Dict? && p.body.fields.Keys == {"method", "params"}
    ensures p.body.fields["method"] == Str(p.query["method"])
    ensures p.body.fields["params"] == Dict(params)
  {
    HttpPost(BaseApiUrl, map["method" := name], Body(name, params), map[])
  }

  class LegacyPiazza {
    /** `_nid`: the network id every request falls back to. */
    var nid: Value
    /** `cookies`: None until a login has succeeded. */
    var cookies: Option<map<string, string>>

    constructor(networkId: Value)
      ensures nid == networkId && cookies == None
    {
      nid := networkId;
      cookies := None;
    }

    /** `_check_authenticated`: only a missing jar counts as not logged in;
        an empty one passes. */
    function CheckAuthenticated(): (r: Outcome)
      reads this
      ensures r == Pass <==> cookies.Some?
      ensures r.Fail? ==> r.error == NotAuthenticatedError(NotAuthenticatedMessage)
    {
      if cookies.None? then Fail(NotAuthenticatedError(NotAuthenticatedMessage)) else Pass
    }

    /** `user_auth`: post the credentials, then keep the response's cookies
        only if the login response says "OK". */
    method UserAuth(email: string, password: string, response: Value,
                    responseCookies: map<string, string>)
      returns (sent: HttpPost, r: Outcome)
      modifies this
      ensures sent == HttpPost(BaseApiUrl, map["method" := "user.login"],
                               Dict(map["method" := Str("user.login"),
                                        "params" := Dict(map["email" := Str(email), "pass" := Str(password)])]),
                               map[])
      ensures r == LoginResultCheck(response)
      ensures r == Pass ==> cookies == Some(responseCookies)
      ensures r.Fail? ==> cookies == old(cookies)
      ensures nid == old(nid)
    {
      var loginData := Dict(map["method" := Str("user.login"),
                                "params" := Dict(map["email" := Str(email), "pass" := Str(password)])]);
      sent := HttpPost(BaseApiUrl, map["method" := "user.login"], loginData, map[]);
      r := LoginResultCheck(response);
      if r == Pass {
        cookies := Some(responseCookies);
      }
    }

    /** `demo_auth`: exactly one of `auth` and `url`; the jar becomes the
        cookies of the GET's response. */
    method DemoAuth(auth: Option<string>, url: Option<string>, responseCookies: map<string, string>)
      returns (sent: Option<HttpGet>, r: Outcome)
      modifies this
      ensures r == DemoLoginCheck(auth, url)
      ensures r.Fail? ==> sent == None && cookies == old(cookies)
      ensures r == Pass ==> sent == Some(DemoLoginGet(nid, auth, url)) && cookies == Some(responseCookies)
      ensures nid == old(nid)
    {
      r := DemoLoginCheck(auth, url);
      if r.Fail? {
        return None, r;
      }
      sent := Some(DemoLoginGet(nid, auth, url));
      cookies := Some(responseCookies);
    }

    /** `request`: the POST it issues, or NotAuthenticatedError when no
        login has succeeded. */
    method Request(name: string, data: Option<map<string, Value>>, callNid: Value, nidKey: string)
      returns (r: Result<HttpPost>)
      ensures r.Ok? <==> cookies.Some?
      ensures r.Err? ==> r.error == NotAuthenticatedError(NotAuthenticatedMessage)
      ensures r.Ok? ==> r.value == LegacyPost(name, Params(data, nidKey, EffectiveNid(callNid, nid)))
    {
      var auth := CheckAuthenticated();
      if auth.Fail? {
        return Err(auth.error);
      }
      var effectiveNid := if Truthy(callNid) then callNid else nid;
      var payload := if data.Some? then data.value else map[];
      r := Ok(LegacyPost(name, map[nidKey := effectiveNid] + payload));
    }

    /** `get`: the raw response body, not unwrapped. */
    method Get(cid: Value, callNid: Value, response: Value) returns (sent: Option<HttpPost>, r: Result<Value>)
      ensures sent.Some? <==> cookies.Some?
      ensures sent.None? ==> r == Err(NotAuthenticatedError(NotAuthenticatedMessage))
      ensures sent.Some? ==> r == Ok(response)
      ensures sent.Some? ==> sent.value == LegacyPost("content.get", Params(Some(map["cid" := cid]), "nid", EffectiveNid(callNid, nid)))
    {
      var post := Request("content.get", Some(map["cid" := cid]), callNid, "nid");
      if post.Err? {
        return None, Err(post.error);
      }
      sent, r := Some(post.value), Ok(response);
    }

    /** A request followed by the unwrapping of its response body. */
    method Unwrapped(name: string, data: Option<map<string, Value>>, callNid: Value, nidKey: string,
                     errMsg: string, response: Value)
      returns (sent: Option<HttpPost>, r: Result<Value>)
      ensures sent.Some? <==> cookies.Some?
      ensures sent.None? ==> r == Err(NotAuthenticatedError(NotAuthenticatedMessage))
      ensures sent.Some? ==> sent.value == LegacyPost(name, Params(data, nidKey, EffectiveNid(callNid, nid)))
      ensures sent.Some? ==> r == HandleError(response, errMsg)
    {
      var post := Request(name, data, callNid, nidKey);
      if post.Err? {
        return None, Err(post.error);
      }
      sent, r := Some(post.value), HandleError(response, errMsg);
    }

    /** `enroll_students`: the network id travels under `id`, next to the
        emails; a truthy `error` raises RequestError, otherwise `result` is
        returned. */
    method EnrollStudents(studentEmails: Value, callNid: Value, response: Value)
      returns (sent: Option<HttpPost>, r: Result<Value>)
      ensures sent.Some? <==> cookies.Some?
      ensures sent.None? ==> r == Err(NotAuthenticatedError(NotAuthenticatedMessage))
      ensures sent.Some? ==> sent.value == LegacyPost("network.update",
                map["id" := EffectiveNid(callNid, nid), "from" := Str("ClassSettingsPage"),
                    "add_students" := studentEmails])
      ensures sent.Some? ==> r == HandleError(response, "Could not add users.")
    {
      var data := map["from" := Str("ClassSettingsPage"), "add_students" := studentEmails];
      sent, r := Unwrapped("network.update", Some(data), callNid, "id", "Could not add users.", response);
      assert Params(Some(data), "id", EffectiveNid(callNid, nid)) ==
             map["id" := EffectiveNid(callNid, nid), "from" := Str("ClassSettingsPage"),
                 "add_students" := studentEmails];
    }

    method GetAllUsers(callNid: Value, response: Value) returns (sent: Option<HttpPost>, r: Result<Value>)
      ensures sent.Some? <==> cookies.Some?
      ensures sent.None? ==> r == Err(NotAuthenticatedError(NotAuthenticatedMessage))
      ensures sent.Some? ==> sent.value == LegacyPost("network.get_all_users", map["nid" := EffectiveNid(callNid, nid)])
      ensures sent.Some? ==> r == HandleError(response, "Could not get users.")
    {
      sent, r := Unwrapped("network.get_all_users", None, callNid, "nid", "Could not get users.", response);
      assert Params(None, "nid", EffectiveNid(callNid, nid)) == map["nid" := EffectiveNid(callNid, nid)];
    }

    method GetUsers(userIds: Value, callNid: Value, response: Value) returns (sent: Option<HttpPost>, r: Result<Value>)
      ensures sent.Some? <==> cookies.Some?
      ensures sent.None? ==> r == Err(NotAuthenticatedError(NotAuthenticatedMessage))
      ensures sent.Some? ==> sent.value == LegacyPost("network.get_users",
                map["nid" := EffectiveNid(callNid, nid), "ids" := userIds])
      ensures sent.Some? ==> r == HandleError(response, "Could not get users.")
    {
      var data := map["ids" := userIds];
      sent, r := Unwrapped("network.get_users", Some(data), callNid, "nid", "Could not get users.", response);
      assert Params(Some(data), "nid", EffectiveNid(callNid, nid)) ==
             map["nid" := EffectiveNid(callNid, nid), "ids" := userIds];
    }

    /** `remove_users`: like `enroll_students`, the network id travels
        under `id`. */
    method RemoveUsers(userIds: Value, callNid: Value, response: Value) returns (sent: Option<HttpPost>, r: Result<Value>)
      ensures sent.Some? <==> cookies.Some?
      ensures sent.None? ==> r == Err(NotAuthenticatedError(NotAuthenticatedMessage))
      ensures sent.Some? ==> sent.value == LegacyPost("network.update",
                map["id" := EffectiveNid(callNid, nid), "remove_users" := userIds])
      ensures sent.Some? ==> r == HandleError(response, "Could not remove users.")
    {
      var data := map["remove_users" := userIds];
      sent, r := Unwrapped("network.update", Some(data), callNid, "id", "Could not remove users.", response);
      assert Params(Some(data), "id", EffectiveNid(callNid, nid)) ==
             map["id" := EffectiveNid(callNid, nid), "remove_users" := userIds];
    }
  }

  /** An empty jar counts as logged in for the legacy client but not for
      the current one: the two gates differ exactly there. */
  method GatesDiffer(legacy: LegacyPiazza, current: Rpc.PiazzaRpc)
    returns (legacyGate: Outcome, currentGate: Outcome)
    requires legacy.cookies == Some(map[]) && current.session.cookies == map[]
    ensures legacyGate == Pass && currentGate.Fail?
  {
    legacyGate := legacy.CheckAuthenticated();
    currentGate := current.CheckAuthenticated();
  }
}
