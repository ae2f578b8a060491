/**
 * The top-level client of piazza_api/piazza.py: it holds an optional RPC
 * client that each login replaces with a fresh one, hands out network
 * objects once authenticated, and projects the user's raw class records
 * into fixed-shape records.
 */
module Client {
  import opened Values
  import opened Envelope
  import Rpc
  import Facade

  /** `message` of the AttributeError Python raises for the missing
      attribute `name`; only the attribute name is modelled. */
  function MissingAttribute(name: string): Error {
    AttributeError(name)
  }

  /** One record of `get_user_classes`: the `name`, `num` and `term` of the
      raw class unchanged, its `id` as `nid`, and its `is_ta` or False. A
      raw class that is not a record raises TypeError, a missing key
      KeyError for the first key looked up. */
  function ProjectClass(rawc: Value): (r: Result<Value>)
    ensures r.Ok? <==> rawc.Dict? && {"name", "num", "term", "id"} <= rawc.fields.Keys
    ensures !rawc.Dict? ==> r == Err(TypeError)
    ensures rawc.Dict? && "name" !in rawc.fields ==> r == Err(KeyError("name"))
    ensures r.Err? ==> r.error == TypeError || r.error.KeyError?
    ensures r.Ok? ==> r.value.Dict? && r.value.fields.Keys == {"name", "num", "term", "nid", "is_ta"}
    ensures r.Ok? ==> r.value.fields["name"] == rawc.fields["name"]
                      && r.value.fields["num"] == rawc.fields["num"]
                      && r.value.fields["term"] == rawc.fields["term"]
                      && r.value.fields["nid"] == rawc.fields["id"]
    ensures r.Ok? ==> r.value.fields["is_ta"] ==
                      (if "is_ta" in rawc.fields then rawc.fields["is_ta"] else Bool(false))
  {
    if !rawc.Dict? then Err(TypeError)
    else
      var m := rawc.fields;
      if "name" !in m then Err(KeyError("name"))
      else if "num" !in m then Err(KeyError("num"))
      else if "term" !in m then Err(KeyError("term"))
      else if "id" !in m then Err(KeyError("id"))
      else
        Ok(Dict(map["name" := m["name"], "num" := m["num"], "term" := m["term"],
                    "nid" := m["id"], "is_ta" := if "is_ta" in m then m["is_ta"] else Bool(false)]))
  }

  class Piazza {
    /** `_rpc_api`: None until a login, or the client passed in. */
    var rpcApi: Rpc.PiazzaRpc?

    constructor(piazzaRpc: Rpc.PiazzaRpc?)
      ensures rpcApi == piazzaRpc
    {
      rpcApi := piazzaRpc;
    }

    /** `user_login`: a fresh RPC client replaces the current one and runs
        the login, so only the cookies of this login are in its jar. */
    method UserLogin(email: string, password: string,
                     csrfText: string, csrfCookies: map<string, string>,
                     loginStatus: int, loginText: string, loginCookies: map<string, string>)
      returns (r: Outcome)
      modifies this
      ensures rpcApi != null && fresh(rpcApi) && fresh(rpcApi.session) && rpcApi.nid == Null
      ensures Rpc.CsrfToken(csrfText).Err? ==>
                r == Fail(Rpc.CsrfToken(csrfText).error) && rpcApi.session.cookies == csrfCookies
      ensures Rpc.CsrfToken(csrfText).Ok? ==>
                (r == Pass <==> loginStatus == 200)
                && rpcApi.session.cookies == csrfCookies + loginCookies
      ensures Rpc.CsrfToken(csrfText).Ok? && loginStatus != 200 ==>
                r == Fail(AuthenticationError("Could not authenticate.\n" + loginText))
    {
      rpcApi := new Rpc.PiazzaRpc(Null);
      var sent;
      sent, r := rpcApi.UserLogin(email, password, csrfText, csrfCookies, loginStatus, loginText, loginCookies);
      assert rpcApi.session.cookies == map[] + csrfCookies + (if sent.Some? then loginCookies else map[]);
    }

    /** `demo_login`: a fresh RPC client replaces the current one and runs
        the demo login. */
    method DemoLogin(auth: Option<string>, url: Option<string>, responseCookies: map<string, string>)
      returns (r: Outcome)
      modifies this
      ensures rpcApi != null && fresh(rpcApi) && fresh(rpcApi.session) && rpcApi.nid == Null
      ensures r == DemoLoginCheck(auth, url)
      ensures rpcApi.session.cookies == (if r == Pass then responseCookies else map[])
    {
      rpcApi := new Rpc.PiazzaRpc(Null);
      var sent;
      sent, r := rpcApi.DemoLogin(auth, url, responseCookies);
      assert r == Pass ==> rpcApi.session.cookies == map[] + responseCookies;
    }

    /** `_ensure_authenticated`: the RPC client's check, or an
        AttributeError when there is no client yet. */
    function EnsureAuthenticated(): (r: Outcome)
      reads this, rpcApi, if rpcApi == null then {} else {rpcApi.session}
      ensures rpcApi == null ==> r == Fail(MissingAttribute("_check_authenticated"))
      ensures rpcApi != null ==> (r == Pass <==> rpcApi.session.cookies != map[])
      ensures rpcApi != null && r.Fail? ==> r.error.NotAuthenticatedError?
    {
      if rpcApi == null then Fail(MissingAttribute("_check_authenticated"))
      else rpcApi.CheckAuthenticated()
    }

    /** `network` as written: after the check it reads `cookies`, an
        attribute the RPC client does not have, so it never returns. */
    method NetworkAsWritten(networkId: Value) returns (r: Result<Facade.Network>)
      ensures r.Err?
      ensures EnsureAuthenticated().Fail? ==> r == Err(EnsureAuthenticated().error)
      ensures EnsureAuthenticated() == Pass ==> r == Err(MissingAttribute("cookies"))
    {
      var auth := EnsureAuthenticated();
      if auth.Fail? {
        return Err(auth.error);
      }
      r := Err(MissingAttribute("cookies"));
    }

    /** `network` as intended: after the check, a network object on the
        RPC client's own session, so it shares the login. */
    method Network(networkId: Value) returns (r: Result<Facade.Network>)
      ensures EnsureAuthenticated().Fail? ==> r == Err(EnsureAuthenticated().error)
      ensures r.Ok? <==> EnsureAuthenticated() == Pass
      ensures r.Ok? ==> fresh(r.value) && rpcApi != null
                        && r.value.nid == networkId && r.value.rpc.nid == networkId
                        && r.value.rpc.session == rpcApi.session
    {
      var auth := EnsureAuthenticated();
      if auth.Fail? {
        return Err(auth.error);
      }
      var net := new Facade.Network(networkId, rpcApi.session);
      r := Ok(net);
    }

    /** `get_user_classes` on the values of the profile's `all_classes`, in
        their iteration order: one projected record per raw class, in the
        same order, or the error of the first raw class that fails. */
    method GetUserClasses(rawClasses: seq<Value>) returns (r: Result<seq<Value>>)
      ensures r.Ok? <==> forall i :: 0 <= i < |rawClasses| ==> ProjectClass(rawClasses[i]).Ok?
      ensures r.Ok? ==> |r.value| == |rawClasses|
      ensures r.Ok? ==> forall i :: 0 <= i < |rawClasses| ==> r.value[i] == ProjectClass(rawClasses[i]).value
      ensures r.Err? ==> exists i :: 0 <= i < |rawClasses| && ProjectClass(rawClasses[i]).Err?
                                    && r.error == ProjectClass(rawClasses[i]).error
                                    && forall j :: 0 <= j < i ==> ProjectClass(rawClasses[j]).Ok?
    {
      var classes: seq<Value> := [];
      for i := 0 to |rawClasses|
        invariant |classes| == i
        invariant forall j :: 0 <= j < i ==> ProjectClass(rawClasses[j]).Ok?
        invariant forall j :: 0 <= j < i ==> classes[j] == ProjectClass(rawClasses[j]).value
      {
        var c := ProjectClass(rawClasses[i]);
        if c.Err? {
          return Err(c.error);
        }
        classes := classes + [c.value];
      }
      r := Ok(classes);
    }
  }

  /** Every authenticated client can hand out a network object with the
      corrected `network`, while the one as written fails for all of them. */
  method NetworkFinding(client: Piazza, networkId: Value)
    returns (asWritten: Result<Facade.Network>, corrected: Result<Facade.Network>)
    requires client.EnsureAuthenticated() == Pass
    ensures asWritten == Err(MissingAttribute("cookies"))
    ensures corrected.Ok?
  {
    asWritten := client.NetworkAsWritten(networkId);
    corrected := client.Network(networkId);
  }
}
