/**
 * The RPC client of piazza_api/rpc.py: a session whose cookie jar is the
 * client's login state, the `request` envelope (authentication gate,
 * effective network id, endpoint with nonce, CSRF header, `{method,
 * params}` body), error unwrapping, the two logins, and the parameter
 * shaping of the endpoint methods the network facade calls.
 *
 * Every network exchange is an input: the text and cookies a response
 * carries, its status code, and the decoded JSON body a POST gets back.
 */
module Rpc {
  import opened Values
  import opened Text
  import opened Envelope
  import Nonce

  const LogicApiUrl: string := "https://piazza.com/logic/api"
  const MainApiUrl: string := "https://piazza.com/main/api"
  const LoginUrl: string := "https://piazza.com/class"

  /** `base_api_urls`: the base URL of each API type. */
  const BaseApiUrls: map<string, string> := map["logic" := LogicApiUrl, "main" := MainApiUrl]

  const NotAuthenticatedMessage: string := "You must authenticate before making any other requests."
  const CsrfMarker: string := "CSRF_TOKEN"
  const NoCsrfTokenMessage: string := "Could not get CSRF token"

  /** The HTTP session, shared by reference between a client and every
      network object built on it. Its cookie jar is the login state. */
  class Session {
    var cookies: map<string, string>

    /** A new session starts with an empty jar, so it is not logged in. */
    constructor()
      ensures cookies == map[]
    {
      cookies := map[];
    }
  }

  /** The arguments of one `request` call: the API method name, the
      caller's data (None when omitted), the per-call network id, the key
      under which the id is sent, and the API type. */
  datatype Call = Call(name: string, data: Option<map<string, Value>>, nid: Value,
                       nidKey: string, apiType: string)

  // ---- The CSRF token of the login page ----

  /** The token `user_login` parses out of the CSRF response text: bail
      out when the upper-cased text lacks `CSRF_TOKEN`; otherwise delete
      every `"` and `;` and take the piece after the first `=` (IndexError
      when there is none). */
  function CsrfToken(text: string): (r: Result<string>)
    ensures Find(Upper(text), CsrfMarker) == -1 <==> r == Err(AuthenticationError(NoCsrfTokenMessage))
    ensures r == Err(IndexError) <==>
              Find(Upper(text), CsrfMarker) != -1 && '=' !in Remove(text, {'"', ';'})
    ensures r.Ok? ==> '=' !in r.value && '"' !in r.value && ';' !in r.value
  {
    if Find(Upper(text), CsrfMarker) == -1 then Err(AuthenticationError(NoCsrfTokenMessage))
    else
      var stripped := Remove(text, {'"', ';'});
      assert '"' !in stripped && ';' !in stripped;
      var parts := Split(stripped, '=');
      if |parts| < 2 then Err(IndexError)
      else
        assert forall c :: c in parts[1] ==> c in stripped;
        Ok(parts[1])
  }

  /** The token is the text after the first `=` of the stripped page, up
      to the next `=` or the end. */
  lemma CsrfTokenAfterFirstEquals(text: string, k: int)
    ensures var s := Remove(text, {'"', ';'});
            CsrfToken(text).Ok? && 0 <= k < |s| && s[k] == '=' && (forall j :: 0 <= j < k ==> s[j] != '=') ==>
              var t := CsrfToken(text).value;
              t <= s[k + 1..] && (k + 1 + |t| == |s| || s[k + 1 + |t|] == '=')
  {
    var s := Remove(text, {'"', ';'});
    if CsrfToken(text).Ok? && 0 <= k < |s| && s[k] == '=' && (forall j :: 0 <= j < k ==> s[j] != '=') {
      SplitSecondPiece(s, '=', k);
    }
  }

  lemma MarkerStaysFound(name: string, rest: string)
    requires Find(Upper(name), CsrfMarker) != -1
    ensures Find(Upper(name + rest), CsrfMarker) != -1
  {
    UpperAppend(name, rest);
    FindExtend(Upper(name), Upper(rest), CsrfMarker);
  }

  lemma RemoveAroundEquals(name: string, token: string, drop: set<char>)
    requires '=' !in drop
    ensures Remove(name + "=" + token, drop) == Remove(name, drop) + ['='] + Remove(token, drop)
  {
    assert name + "=" + token == name + ("=" + token);
    RemoveAppend(name, "=" + token, drop);
    RemoveAppend("=", token, drop);
    assert Remove("=", drop) == "=";
  }

  /** On a response of the form `<name>=<token>` whose name mentions the
      marker in any case, the token is what follows the `=`, with its
      quotes and semicolons deleted. */
  lemma CsrfTokenOfAssignment(name: string, token: string)
    requires Find(Upper(name), CsrfMarker) != -1
    requires '=' !in name && '=' !in token
    ensures CsrfToken(name + "=" + token) == Ok(Remove(token, {'"', ';'}))
  {
    var text := name + "=" + token;
    var drop := {'"', ';'};
    MarkerStaysFound(name, "=" + token);
    assert text == name + ("=" + token);
    RemoveAroundEquals(name, token, drop);
    var n := Remove(name, drop);
    var t := Remove(token, drop);
    assert '=' !in n && '=' !in t;
    SplitAppend(n, t, '=');
    assert Split(Remove(text, drop), '=') == [n, t];
  }

  /** The form `user_login` posts with the credentials and the token:
      the e-mail right after the fixed head, the token right after the
      fixed `csrf_token` key at the end. */
  function LoginForm(email: string, password: string, token: string): (form: string)
    ensures |form| == |email| + |password| + |token| + 55
    ensures "from=%2Fsignup&email=" + email <= form
    ensures form[|form| - |token| - |"&csrf_token="|..] == "&csrf_token=" + token
  {
    var head := "from=%2Fsignup&email=" + email;
    var tail := "&csrf_token=" + token;
    var form := head + ("&password=" + password) + "&remember=on" + tail;
    assert form[..|head|] == head;
    assert form[|form| - |tail|..] == tail;
    form
  }

  /** The form's fields are exactly its five `key=value` pairs, in order,
      whenever no credential contains the field separator `&`. */
  lemma LoginFormFields(email: string, password: string, token: string)
    requires '&' !in email && '&' !in password && '&' !in token
    ensures Split(LoginForm(email, password, token), '&') ==
            ["from=%2Fsignup", "email=" + email, "password=" + password, "remember=on", "csrf_token=" + token]
  {
    var f0, f1, f2, f3, f4 := "from=%2Fsignup", "email=" + email, "password=" + password, "remember=on", "csrf_token=" + token;
    assert '&' !in f0 && '&' !in f1 && '&' !in f2 && '&' !in f3 && '&' !in f4;
    LoginFormPieces(email, password, token);
    JoinPieces(f0, f1, f2, f3, f4, "from=%2Fsignup&email=" + email, "&password=" + password,
               "&remember=on", "&csrf_token=" + token, '&');
    SplitJoin([f0, f1, f2, f3, f4], '&');
  }

  /** Each literal piece of the form is a field behind its `&`. */
  lemma LoginFormPieces(email: string, password: string, token: string)
    ensures "from=%2Fsignup&email=" + email == "from=%2Fsignup" + ['&'] + ("email=" + email)
    ensures "&password=" + password == ['&'] + ("password=" + password)
    ensures "&remember=on" == ['&'] + "remember=on"
    ensures "&csrf_token=" + token == ['&'] + ("csrf_token=" + token)
  {
    assert "from=%2Fsignup&email=" == "from=%2Fsignup" + ['&'] + "email=";
    assert "&password=" == ['&'] + "password=";
    assert "&csrf_token=" == ['&'] + "csrf_token=";
  }

  // ---- The client ----

  class PiazzaRpc {
    /** `_nid`: the network id every request falls back to. */
    var nid: Value
    var session: Session

    constructor(networkId: Value)
      ensures nid == networkId
      ensures fresh(session) && session.cookies == map[]
    {
      nid := networkId;
      session := new Session();
    }

    /** `get_cookies`: the session's cookies as a name-to-value map. */
    function GetCookies(): (c: map<string, string>)
      reads this, session
      ensures c == session.cookies
      ensures c == map[] <==> CheckAuthenticated().Fail?
    {
      session.cookies
    }

    /** `set_cookies`: every given cookie is stored, replacing a cookie of
        the same name; other cookies stay. */
    method SetCookies(cookies: map<string, string>)
      modifies session
      ensures GetCookies() == old(GetCookies()) + cookies
    {
      var pending := cookies.Keys;
      while pending != {}
        invariant pending <= cookies.Keys
        invariant session.cookies ==
                  old(session.cookies) + map k | k in cookies && k !in pending :: cookies[k]
        decreases pending
      {
        var name :| name in pending;
        session.cookies := session.cookies[name := cookies[name]];
        pending := pending - {name};
      }
      assert session.cookies == old(session.cookies) + cookies;
    }

    /** Importing the cookies just exported changes nothing. */
    method ReimportCookies()
      modifies session
      ensures GetCookies() == old(GetCookies())
      ensures CheckAuthenticated() == old(CheckAuthenticated())
    {
      SetCookies(GetCookies());
      assert GetCookies() == old(GetCookies()) + old(GetCookies());
    }

    /** `_check_authenticated`: an empty cookie jar means not logged in. */
    function CheckAuthenticated(): (r: Outcome)
      reads this, session
      ensures r == Pass <==> session.cookies != map[]
      ensures r.Fail? ==> r.error == NotAuthenticatedError(NotAuthenticatedMessage)
    {
      if session.cookies == map[] then Fail(NotAuthenticatedError(NotAuthenticatedMessage)) else Pass
    }

    /** `request`: the POST it issues for `c`, or the error it raises first.
        `clockMs` and `draw` are the clock reading and the random draw the
        nonce of a logic call is built from. */
    method Request(c: Call, clockMs: int, draw: real) returns (r: Result<HttpPost>)
      requires 0.0 <= draw < 1.0
      ensures session.cookies == map[] ==> r == Err(NotAuthenticatedError(NotAuthenticatedMessage))
      ensures session.cookies != map[] && c.apiType !in BaseApiUrls ==> r == Err(KeyError(c.apiType))
      ensures r.Ok? <==> session.cookies != map[] && c.apiType in BaseApiUrls
      ensures r.Ok? && c.apiType == "logic" ==>
                r.value.url == LogicApiUrl + "?method=" + c.name + "&aid="
                               + Nonce.Encode(clockMs, 36) + Nonce.Encode(Nonce.RandomPart(draw), 36)
      ensures r.Ok? && c.apiType == "main" ==> r.value.url == MainApiUrl
      ensures r.Ok? ==> r.value.query == map[]
      ensures r.Ok? ==> r.value.body == Body(c.name, Params(c.data, c.nidKey, EffectiveNid(c.nid, nid)))
      ensures r.Ok? ==> r.value.headers.Keys <= {"CSRF-Token"}
      ensures r.Ok? ==> ("CSRF-Token" in r.value.headers <==> "session_id" in session.cookies)
      ensures r.Ok? && "session_id" in session.cookies ==>
                r.value.headers["CSRF-Token"] == session.cookies["session_id"]
    {
      var auth := CheckAuthenticated();
      if auth.Fail? {
        return Err(auth.error);
      }
      var effectiveNid := if Truthy(c.nid) then c.nid else nid;
      var data := if c.data.Some? then c.data.value else map[];
      var headers: map<string, string> := map[];
      if "session_id" in session.cookies {
        headers := headers["CSRF-Token" := session.cookies["session_id"]];
      }
      if c.apiType !in BaseApiUrls {
        return Err(KeyError(c.apiType));
      }
      var endpoint := BaseApiUrls[c.apiType];
      if c.apiType == "logic" {
        var aid := Nonce.MakeNonce(clockMs, draw);
        endpoint := endpoint + "?method=" + c.name + "&aid=" + aid;
      }
      var params := map[c.nidKey := effectiveNid] + data;
      r := Ok(HttpPost(endpoint, map[], Body(c.name, params), headers));
    }

    /** An endpoint method: `request`, the POST it issues (whose response
        cookies `responseCookies` the session stores, as `requests` does),
        and `_handle_error` on the body `response` it got back. */
    method Invoke(c: Call, errMsg: string, clockMs: int, draw: real,
                  response: Value, responseCookies: map<string, string>)
      returns (sent: Option<HttpPost>, r: Result<Value>)
      requires 0.0 <= draw < 1.0
      modifies session
      ensures sent.None? <==> old(session.cookies) == map[] || c.apiType !in BaseApiUrls
      ensures old(session.cookies) == map[] ==> r == Err(NotAuthenticatedError(NotAuthenticatedMessage))
      ensures sent.None? && old(session.cookies) != map[] ==> r == Err(KeyError(c.apiType))
      ensures sent.None? ==> session.cookies == old(session.cookies)
      ensures sent.Some? ==> session.cookies == old(session.cookies) + responseCookies
      ensures sent.Some? ==> r == HandleError(response, errMsg)
      ensures sent.Some? && c.apiType == "logic" ==>
                sent.value.url == LogicApiUrl + "?method=" + c.name + "&aid="
                                  + Nonce.Encode(clockMs, 36) + Nonce.Encode(Nonce.RandomPart(draw), 36)
      ensures sent.Some? && c.apiType == "main" ==> sent.value.url == MainApiUrl
      ensures sent.Some? ==> sent.value.query == map[]
      ensures sent.Some? ==> sent.value.body == Body(c.name, Params(c.data, c.nidKey, EffectiveNid(c.nid, nid)))
      ensures sent.Some? ==> sent.value.headers.Keys <= {"CSRF-Token"}
      ensures sent.Some? ==> ("CSRF-Token" in sent.value.headers <==> "session_id" in old(session.cookies))
      ensures sent.Some? && "session_id" in old(session.cookies) ==>
                sent.value.headers["CSRF-Token"] == old(session.cookies)["session_id"]
    {
      var post := Request(c, clockMs, draw);
      if post.Err? {
        return None, Err(post.error);
      }
      sent := Some(post.value);
      session.cookies := session.cookies + responseCookies;
      r := HandleError(response, errMsg);
    }

    /** `user_login`: fetch the CSRF page (its cookies land in the jar),
        parse the token, post the login form (its cookies land in the jar
        too) and fail unless the status is 200. */
    method UserLogin(email: string, password: string,
                     csrfText: string, csrfCookies: map<string, string>,
                     loginStatus: int, loginText: string, loginCookies: map<string, string>)
      returns (sent: Option<HttpPost>, r: Outcome)
      modifies session
      ensures CsrfToken(csrfText).Err? ==>
                sent == None && r == Fail(CsrfToken(csrfText).error)
                && session.cookies == old(session.cookies) + csrfCookies
      ensures CsrfToken(csrfText).Ok? ==>
                sent == Some(HttpPost(LoginUrl, map[], Str(LoginForm(email, password, CsrfToken(csrfText).value)), map[]))
                && session.cookies == old(session.cookies) + csrfCookies + loginCookies
      ensures CsrfToken(csrfText).Ok? ==> (r == Pass <==> loginStatus == 200)
      ensures CsrfToken(csrfText).Ok? && loginStatus != 200 ==>
                r == Fail(AuthenticationError("Could not authenticate.\n" + loginText))
    {
      session.cookies := session.cookies + csrfCookies;
      var token := CsrfToken(csrfText);
      if token.Err? {
        return None, Fail(token.error);
      }
      var form := LoginForm(email, password, token.value);
      sent := Some(HttpPost(LoginUrl, map[], Str(form), map[]));
      session.cookies := session.cookies + loginCookies;
      if loginStatus != 200 {
        return sent, Fail(AuthenticationError("Could not authenticate.\n" + loginText));
      }
      r := Pass;
    }

    /** `demo_login`: exactly one of `auth` and `url` must be given; the GET
        that follows stores the cookies of its response. */
    method DemoLogin(auth: Option<string>, url: Option<string>, responseCookies: map<string, string>)
      returns (sent: Option<HttpGet>, r: Outcome)
      modifies session
      ensures r == DemoLoginCheck(auth, url)
      ensures r.Fail? ==> sent == None && session.cookies == old(session.cookies)
      ensures r == Pass ==> sent == Some(DemoLoginGet(nid, auth, url))
      ensures r == Pass ==> session.cookies == old(session.cookies) + responseCookies
    {
      r := DemoLoginCheck(auth, url);
      if r.Fail? {
        return None, r;
      }
      sent := Some(DemoLoginGet(nid, auth, url));
      session.cookies := session.cookies + responseCookies;
    }
  }

  /** Exporting the cookies of one client and importing them into a fresh
      one gives a client with the same cookies, hence logged in exactly
      when the first one is. */
  method TransferSession(source: PiazzaRpc) returns (copy: PiazzaRpc)
    ensures fresh(copy) && fresh(copy.session)
    ensures copy.GetCookies() == source.GetCookies()
    ensures copy.CheckAuthenticated() == source.CheckAuthenticated()
  {
    var exported := source.GetCookies();
    copy := new PiazzaRpc(source.nid);
    copy.SetCookies(exported);
    assert copy.GetCookies() == map[] + exported;
  }

  // ---- Endpoint methods: the call each one makes ----

  /** The shape every `content_*` builder shares: the params as given, no
      explicit network id, sent under the key `nid` to the logic API. */
  function ContentCall(name: string, params: map<string, Value>): (c: Call)
    ensures c.name == name && c.data == Some(params)
    ensures c.nid == Null && c.nidKey == "nid" && c.apiType == "logic"
  {
    Call(name, Some(params), Null, "nid", "logic")
  }

  /** `content_get`: the id plus `student_view: "false"`. */
  function ContentGet(cid: Value, nid: Value): (c: Call)
    ensures c.name == "content.get" && c.nid == nid && c.nidKey == "nid" && c.apiType == "logic"
    ensures c.data.Some? && c.data.value.Keys == {"cid", "student_view"}
    ensures c.data.value["cid"] == cid && c.data.value["student_view"] == Str("false")
  {
    Call("content.get", Some(map["cid" := cid, "student_view" := Str("false")]), nid, "nid", "logic")
  }

  function ContentCreate(params: map<string, Value>): (c: Call)
    ensures c.name == "content.create" && c.data == Some(params) && c.nid == Null
  {
    ContentCall("content.create", params)
  }

  function ContentUpdate(params: map<string, Value>): (c: Call)
    ensures c.name == "content.update" && c.data == Some(params) && c.nid == Null
  {
    ContentCall("content.update", params)
  }

  function ContentInstructorAnswer(params: map<string, Value>): (c: Call)
    ensures c.name == "content.answer" && c.data == Some(params) && c.nid == Null
  {
    ContentCall("content.answer", params)
  }

  function ContentMarkResolved(params: map<string, Value>): (c: Call)
    ensures c.name == "content.mark_resolved" && c.data == Some(params) && c.nid == Null
  {
    ContentCall("content.mark_resolved", params)
  }

  function ContentDelete(params: map<string, Value>): (c: Call)
    ensures c.name == "content.delete" && c.data == Some(params) && c.nid == Null
  {
    ContentCall("content.delete", params)
  }

  function ContentAddFeedback(params: map<string, Value>): (c: Call)
    ensures c.name == "content.add_feedback" && c.data == Some(params) && c.nid == Null
  {
    ContentCall("content.add_feedback", params)
  }

  function ContentRemoveFeedback(params: map<string, Value>): (c: Call)
    ensures c.name == "content.remove_feedback" && c.data == Some(params) && c.nid == Null
  {
    ContentCall("content.remove_feedback", params)
  }

  /** `content_pin`: the method is chosen by the truthiness of `unpin`. */
  function ContentPin(params: map<string, Value>, unpin: Value): (c: Call)
    ensures Truthy(unpin) ==> c.name == "content.unpin"
    ensures !Truthy(unpin) ==> c.name == "content.pin"
    ensures c.data == Some(params) && c.nidKey == "nid" && c.apiType == "logic"
  {
    ContentCall(if Truthy(unpin) then "content.unpin" else "content.pin", params)
  }

  /** `get_my_feed`: the three paging keys, nothing else. */
  function GetMyFeed(limit: Value, offset: Value, sort: Value, nid: Value): (c: Call)
    ensures c.name == "network.get_my_feed" && c.nid == nid && c.nidKey == "nid" && c.apiType == "logic"
    ensures c.data.Some? && c.data.value.Keys == {"limit", "offset", "sort"}
    ensures c.data.value["limit"] == limit && c.data.value["offset"] == offset && c.data.value["sort"] == sort
  {
    Call("network.get_my_feed", Some(map["limit" := limit, "offset" := offset, "sort" := sort]),
         nid, "nid", "logic")
  }

  // ---- filter_feed ----

  /** `sum(vs)`: numbers, booleans among them, add up; anything else
      raises TypeError. */
  function Sum(vs: seq<Value>): (r: Result<int>)
    ensures r.Ok? <==> forall i :: 0 <= i < |vs| ==> IsNumber(vs[i])
    ensures r.Err? ==> r.error == TypeError
  {
    if vs == [] then Ok(0)
    else
      var rest := Sum(vs[1..]);
      assert forall i :: 1 <= i < |vs| ==> vs[i] == vs[1..][i - 1];
      if !IsNumber(vs[0]) then Err(TypeError)
      else if rest.Err? then rest
      else Ok(AsInt(vs[0]) + rest.value)
  }

  /** `filter_feed`: the three flags must sum to exactly 1 and the folder
      flag needs a truthy folder name; the first truthy flag then decides
      which filter keys are sent next to `sort`. */
  function FilterFeed(updated: Value, following: Value, folder: Value, filterFolder: Value,
                      sort: Value, nid: Value): (r: Result<Call>)
    ensures Sum([updated, following, folder]).Err? ==> r == Err(TypeError)
    ensures r.Ok? <==> Sum([updated, following, folder]) == Ok(1) && (Truthy(folder) ==> Truthy(filterFolder))
    ensures r.Err? && Sum([updated, following, folder]).Ok? ==> r == Err(AssertionError)
    ensures r.Ok? ==> r.value.name == "network.filter_feed" && r.value.nid == nid
                      && r.value.nidKey == "nid" && r.value.apiType == "logic"
    ensures r.Ok? && Truthy(updated) ==>
              r.value.data == Some(map["sort" := sort, "updated" := Int(1)])
    ensures r.Ok? && !Truthy(updated) && Truthy(following) ==>
              r.value.data == Some(map["sort" := sort, "following" := Int(1)])
    ensures r.Ok? && !Truthy(updated) && !Truthy(following) ==>
              r.value.data == Some(map["sort" := sort, "folder" := Int(1), "filter_folder" := filterFolder])
  {
    var total := Sum([updated, following, folder]);
    if total.Err? then Err(total.error)
    else if total.value != 1 then Err(AssertionError)
    else if Truthy(folder) && !Truthy(filterFolder) then Err(AssertionError)
    else
      var filterType :=
        if Truthy(updated) then map["updated" := Int(1)]
        else if Truthy(following) then map["following" := Int(1)]
        else map["folder" := Int(1), "filter_folder" := filterFolder];
      var data := map["sort" := sort] + filterType;
      assert Truthy(updated) ==> data == map["sort" := sort, "updated" := Int(1)];
      assert !Truthy(updated) && Truthy(following) ==> data == map["sort" := sort, "following" := Int(1)];
      assert !Truthy(updated) && !Truthy(following) ==>
               data == map["sort" := sort, "folder" := Int(1), "filter_folder" := filterFolder];
      Ok(Call("network.filter_feed", Some(data), nid, "nid", "logic"))
  }

  /** The number of set flags among three booleans. */
  function Count(a: bool, b: bool, c: bool): nat {
    (if a then 1 else 0) + (if b then 1 else 0) + (if c then 1 else 0)
  }

  lemma SumOfFlags(a: bool, b: bool, c: bool)
    ensures Sum([Bool(a), Bool(b), Bool(c)]) == Ok(Count(a, b, c))
  {
    var flags := [Bool(a), Bool(b), Bool(c)];
    assert flags[1..] == [Bool(b), Bool(c)];
    assert flags[1..][1..] == [Bool(c)];
    assert flags[1..][1..][1..] == [];
    assert Sum(flags[1..][1..][1..]) == Ok(0);
    assert Sum(flags[1..][1..]) == Ok(if c then 1 else 0);
    assert Sum(flags[1..]) == Ok((if b then 1 else 0) + (if c then 1 else 0));
  }

  /** With boolean flags, `filter_feed` goes ahead exactly when one flag is
      set, and the folder flag comes with a truthy folder name. */
  lemma FilterFeedExactlyOne(updated: bool, following: bool, folder: bool, filterFolder: Value,
                             sort: Value, nid: Value)
    ensures FilterFeed(Bool(updated), Bool(following), Bool(folder), filterFolder, sort, nid).Ok? <==>
              ((updated && !following && !folder) || (!updated && following && !folder)
               || (!updated && !following && folder && Truthy(filterFolder)))
  {
    SumOfFlags(updated, following, folder);
  }

  /** When it goes ahead, `filter_feed` sends exactly the flag that is set,
      and the folder name only with the folder flag. */
  lemma FilterFeedSendsTheFlag(updated: bool, following: bool, folder: bool, filterFolder: Value,
                               sort: Value, nid: Value)
    requires FilterFeed(Bool(updated), Bool(following), Bool(folder), filterFolder, sort, nid).Ok?
    ensures var data := FilterFeed(Bool(updated), Bool(following), Bool(folder), filterFolder, sort, nid).value.data;
            data.Some? && data.value["sort"] == sort
            && ("updated" in data.value <==> updated)
            && ("following" in data.value <==> following)
            && ("folder" in data.value <==> folder)
            && ("filter_folder" in data.value <==> folder)
  {
    SumOfFlags(updated, following, folder);
  }
}
