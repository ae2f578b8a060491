# piazza-api client core, modelled in Dafny

This project models the client library `piazza_api`, an unofficial Python
client for Piazza's internal JSON-RPC API. The model covers five parts:

- **Nonce**: the request nonce `nonce()` and its base converter `_int2base`.
  It is a base-36 rendering of the clock in milliseconds, followed by a
  random part scaled to `0..1679616`.
- **RPC client**: `PiazzaRPC` as a class over a cookie jar, with these
  operations:
  - its CSRF-token scraping and the e-mail / demo logins;
  - the `request` envelope, with its method and `aid` query, the
    `CSRF-Token` header and the body `{method, params}`, where the
    data's keys win over the network id;
  - `_handle_error`;
  - the content endpoints;
  - the `filter_feed` exactly-one-flag check.
- **Network facade**: `Network` with its feed filters, the post-id
  extraction each post operation performs, the parameter records it sends,
  and `iter_all_posts`.
- **Top-level client**: `Piazza`. It replaces its RPC client on every
  login, checks authentication, hands out `Network` objects and projects
  the user's classes.
- **Legacy client**: the class `Piazza` in `piazza_api/__init__.py`. Its cookie jar is `None`
  until a login succeeds.

Python values are modelled by `Values.Value`:

| Python | Dafny |
|---|---|
| `None` | `Null` |
| `bool` | `Bool` |
| `int` | `Int` |
| `str` | `Str` |
| `list` | `List` |
| `dict` with string keys | `Dict` over a `map` |

Each exception the core can raise is a constructor of `Values.Error`.
Operations that can raise return a `Result` or an `Outcome`. The network is
not called. Every HTTP exchange is modelled in two parts:

- the request the client would send, which the model returns (`HttpPost`,
  `HttpGet`);
- the response the server gives, which is a parameter: the decoded JSON
  body, the status code, the response text and the cookies it sets.

The clock and `random()` are parameters as well (`clockMs`, `draw`).

## Model

| member | source | states |
|---|---|---|
| Values.Get | piazza_api/rpc.py:581 | `dict.get(k, default)`: the value stored under the key, the default (None for one argument) when the key is missing |
| Values.Truthy | piazza_api/rpc.py:525 | Python `bool()`: false exactly for None, False, 0, "", [] and {} |
| Values.PyAdd | piazza_api/nonce.py:36-37 | Python `+` on two values: defined exactly when both are strings or both lists (concatenation) or both numbers, a bool counting 0 or 1 (an int sum); any other pair, a string plus an int among them, raises TypeError |
| Nonce.ExradixDigits | piazza_api/nonce.py:18 | the digit set has 62 characters: `0-9`, then `a-z`, then `A-Z` |
| Nonce.DigitSetLayout | piazza_api/nonce.py:18 | the digits, lower-case letters and upper-case letters sit at positions 0-9, 10-35 and 36-61 of the digit set |
| Nonce.DigitRoundTrip | piazza_api/nonce.py:18 | a digit's value and its character determine each other for every position below 62 |
| Nonce.BaseTooLargeError | piazza_api/nonce.py:34-38 | the error raised for a base above 62 is a ValueError, which the `raise` evidently means |
| Nonce.BaseTooLargeAsWrittenRaisesTypeError | piazza_api/nonce.py:35-37 | as written, building the ValueError's message adds an int to a str, so the call raises TypeError instead |
| Nonce.Int2Base | piazza_api/nonce.py:20-60 | a base above 62 is rejected first. Otherwise the loop yields `Encode(x, base)`: "0" for 0, a leading '-' for a negative x, and the digits of `|x|` most significant first |
| Nonce.EncodeZero | piazza_api/nonce.py:42-43 | zero is rendered as the single digit "0" in every base |
| Nonce.EncodeNegative | piazza_api/nonce.py:40-58 | a negative number is '-' followed by the rendering of its magnitude |
| Nonce.EncodeNatDigits | piazza_api/nonce.py:50-53 | every digit the loop emits is below the base |
| Nonce.EncodePositiveShape | piazza_api/nonce.py:40-60 | a positive number renders as a non-empty string with no leading '0' and only digits below the base |
| Nonce.DecodeEncode | piazza_api/nonce.py:20-60 | round trip: reading the rendering back in the same base gives the original integer, for every integer and every base 2..62 |
| Nonce.EncodeInjective | piazza_api/nonce.py:20-60 | distinct integers get distinct renderings in the same base |
| Nonce.EncodeDecodeNat | piazza_api/nonce.py:50-58 | the converse round trip: every canonical digit string, which is non-empty with no leading '0' and digits below the base, is the rendering of the number it denotes |
| Nonce.EncodeNatLength | piazza_api/nonce.py:50-53 | the rendering of n has at most k digits exactly when n < base^k |
| Nonce.Round | piazza_api/nonce.py:12 | Python's `round` on a non-negative real: the nearest integer, with halves going to the even neighbour |
| Nonce.RandomPart | piazza_api/nonce.py:12 | the random part `round(random()*1679616)` lies in `0..1679616`, both ends included |
| Nonce.RandomPartLength | piazza_api/nonce.py:12 | the random part renders in at most five base-36 digits, and in exactly five only for 1679616 = 36^4 |
| Nonce.MakeNonce | piazza_api/nonce.py:7-13 | the nonce is the base-36 clock in milliseconds followed by the base-36 random part |
| Envelope.EffectiveNid | piazza_api/rpc.py:525 | the call's network id if it is truthy, otherwise the client's |
| Envelope.Params | piazza_api/rpc.py:541-548 | the request parameters hold the data's keys plus the network-id key. Data values are kept. The network id is used only where the data lacks that key |
| Envelope.Body | piazza_api/rpc.py:543-546 | the JSON body is an object with exactly the keys `method` (the name) and `params` |
| Envelope.ParamsDataWins | piazza_api/rpc.py:546 | a data entry under the network-id key overrides the network id |
| Envelope.HandleError | piazza_api/rpc.py:564-581 | `_handle_error`: a dict with a truthy `error` raises RequestError carrying the response; any other dict yields its `result` (or `None`); a non-dict has no `.get` (AttributeError) |
| Envelope.HandleErrorExamples | piazza_api/rpc.py:575-581 | a response whose `error` is `None` yields its `result`; one carrying an error message raises RequestError with the whole response |
| Envelope.DemoLoginCheck | piazza_api/rpc.py:109-112 | the demo login passes its assertion exactly when one of `auth` and `url` is given (non-empty) |
| Envelope.DemoLoginGet | piazza_api/rpc.py:113-118 | with only `auth`, the GET goes to the demo-login URL with `nid` and `auth`; with a `url`, to that URL as is |
| Text.Find | piazza_api/rpc.py:68 | `str.find`: the first index where the substring occurs, or -1 exactly when it occurs nowhere |
| Text.FindExtend | piazza_api/rpc.py:68 | appending text after an occurrence does not move the first occurrence |
| Text.Upper | piazza_api/rpc.py:68 | `str.upper` keeps the length and upper-cases each ASCII letter |
| Text.Remove | piazza_api/rpc.py:73 | `str.translate` with deletions removes every dropped character, keeps only characters of the input and never lengthens it |
| Text.RemoveAbsent | piazza_api/rpc.py:73 | deleting characters that do not occur leaves the string unchanged |
| Text.Split | piazza_api/rpc.py:73 | `str.split` on one character: at least one piece, no piece contains the separator, joining the pieces with it gives the input back, an input without the separator is one piece |
| Text.SplitJoin | piazza_api/rpc.py:73 | splitting a join of separator-free pieces gives the pieces back |
| Text.SliceBound | piazza_api/network.py:109 | a slice bound counts from the end when negative and is clamped into the sequence |
| Text.PrefixSlice | piazza_api/network.py:108-109 | `s[:k]` keeps the first k elements for k >= 0, drops the last -k for negative k, and is empty once -k exceeds the length |
| Text.PySlice | piazza_api/network.py:109 | `s[start:stop]`: the elements between the two clamped bounds, empty when they cross |
| Text.SplitSecondPiece | piazza_api/rpc.py:73 | `split(sep)[1]` is what follows the first separator, up to the next one or the end |
| Rpc.CsrfToken | piazza_api/rpc.py:64-73 | the CSRF token is missing (AuthenticationError "Could not get CSRF token") exactly when `CSRF_TOKEN` is not in the upper-cased page. A line left without '=' once quotes and ';' are removed raises IndexError. A token never contains '=', '"' or ';' |
| Rpc.CsrfTokenOfAssignment | piazza_api/rpc.py:66-73 | for a page `NAME=token` whose name mentions the marker, the token is the right-hand side with quotes and semicolons removed |
| Rpc.CsrfTokenAfterFirstEquals | piazza_api/rpc.py:73 | a token, once found, is the text after the first `=` of the stripped page, running to the next `=` or the end |
| Rpc.LoginForm | piazza_api/rpc.py:79-82 | the login form starts with `from=%2Fsignup&email=` and the e-mail, ends with `&csrf_token=` and the token, and is 55 characters longer than e-mail, password and token together |
| Rpc.LoginFormFields | piazza_api/rpc.py:79-82 | when no credential contains `&`, splitting the form on `&` gives exactly its five fields in order: `from=%2Fsignup`, the e-mail, the password, `remember=on` and the CSRF token |
| Rpc.PiazzaRpc.constructor | piazza_api/rpc.py:28-34 | a new client has the given network id and a fresh, empty session |
| Rpc.Session.constructor | piazza_api/rpc.py:34 | a new session has an empty cookie jar |
| Rpc.PiazzaRpc.GetCookies | piazza_api/rpc.py:36-44 | the exported cookies are the jar, empty exactly when the client is not authenticated |
| Rpc.PiazzaRpc.SetCookies | piazza_api/rpc.py:46-53 | importing cookies sets each given cookie and keeps the others: the jar becomes the old jar overridden by the given map |
| Rpc.PiazzaRpc.ReimportCookies | piazza_api/rpc.py:36-53 | re-importing the exported cookies changes neither the jar nor the authentication state |
| Rpc.TransferSession | piazza_api/rpc.py:36-53 | a second client that imports the first one's exported cookies has the same jar and the same authentication state |
| Rpc.PiazzaRpc.CheckAuthenticated | piazza_api/rpc.py:555-562 | passes exactly when the jar is non-empty, otherwise NotAuthenticatedError with the fixed message |
| Rpc.PiazzaRpc.Request | piazza_api/rpc.py:502-549 | fails with NotAuthenticatedError on an empty jar and KeyError for an unknown API type, and otherwise sends: on `logic`, the URL with `?method=…&aid=<nonce>`; on `main`, the plain URL; the `CSRF-Token` header exactly when a `session_id` cookie exists, from that cookie; and the body built from the name and the parameters |
| Rpc.PiazzaRpc.Invoke | piazza_api/rpc.py:120-136 | an endpoint call is the request followed by `_handle_error` on the response. A refused request sends nothing and keeps the jar. A sent one has the URL, query, `CSRF-Token` header and body of `request`, and the session stores the response's cookies |
| Rpc.PiazzaRpc.UserLogin | piazza_api/rpc.py:55-88 | the CSRF page's cookies are kept. A missing token fails without a login POST. Otherwise the form is posted and its cookies are kept, and the login succeeds exactly on status 200; any other status raises AuthenticationError with the response text |
| Rpc.PiazzaRpc.DemoLogin | piazza_api/rpc.py:100-118 | the demo login fails its assertion unless exactly one of `auth`/`url` is given. Otherwise it sends the demo GET and adds the response's cookies |
| Rpc.ContentCall | piazza_api/rpc.py:138-153 | every `content_*` call sends the given params unchanged, with no explicit network id, under `nid`, to the logic API |
| Rpc.ContentGet | piazza_api/rpc.py:120-136 | `content.get` sends exactly `cid` and `student_view: "false"` |
| Rpc.ContentCreate | piazza_api/rpc.py:138-153 | `content.create` with the params unchanged |
| Rpc.ContentUpdate | piazza_api/rpc.py:155-170 | `content.update` with the params unchanged |
| Rpc.ContentInstructorAnswer | piazza_api/rpc.py:172-186 | `content.answer` with the params unchanged |
| Rpc.ContentMarkResolved | piazza_api/rpc.py:228-239 | `content.mark_resolved` with the params unchanged |
| Rpc.ContentDelete | piazza_api/rpc.py:256-267 | `content.delete` with the params unchanged |
| Rpc.ContentAddFeedback | piazza_api/rpc.py:269-280 | `content.add_feedback` with the params unchanged |
| Rpc.ContentRemoveFeedback | piazza_api/rpc.py:282-293 | `content.remove_feedback` with the params unchanged |
| Rpc.ContentPin | piazza_api/rpc.py:241-254 | pinning calls `content.pin`, unpinning (a truthy flag) `content.unpin`, with the parameters unchanged |
| Rpc.GetMyFeed | piazza_api/rpc.py:382-406 | the feed call sends exactly `limit`, `offset` and `sort` on `network.get_my_feed` |
| Rpc.Sum | piazza_api/rpc.py:434 | `sum` succeeds exactly when every element is a bool or an int (True counting 1), otherwise TypeError |
| Rpc.FilterFeed | piazza_api/rpc.py:408-453 | the filter passes its assertions exactly when the flags sum to 1 and a folder filter has a truthy folder name. It then sends `updated`, `following` or `folder`+`filter_folder` next to `sort` |
| Rpc.SumOfFlags | piazza_api/rpc.py:434 | for bool flags, the sum is the number of flags set |
| Rpc.FilterFeedExactlyOne | piazza_api/rpc.py:434-436 | with bool flags, the call is accepted exactly when one flag is set, and, for the folder flag, the folder name is truthy |
| Rpc.FilterFeedSendsTheFlag | piazza_api/rpc.py:438-451 | an accepted call sends the key of the one flag that is set, and `filter_folder` exactly for a folder filter |
| Facade.ToKwargs | piazza_api/network.py:13-39 | each filter produces exactly its own keyword: `updated`, `following`, or `folder` with `filter_folder` set to the folder name |
| Facade.FilterFeedWith | piazza_api/network.py:520 | `filter_feed(**kw)` with its defaults: no keyword at all fails the exactly-one-flag assertion, and an accepted call sorts by `updated` on the client's own network |
| Facade.GetFilteredFeed | piazza_api/network.py:510-520 | a non-filter argument fails the assertion. The unread and following filters always produce their feed request. A folder filter produces one exactly when its name is truthy |
| Facade.PostId | piazza_api/network.py:172-175 | the post-id lookup `post["id"]` with a KeyError fallback: the id of a dict that has one, the dict itself otherwise, TypeError for a bare id |
| Facade.UpdatePostId | piazza_api/network.py:270-275 | `update_post`'s lookup also catches TypeError: a non-dict post is used as the id itself |
| Facade.LocalPostId | piazza_api/network.py:357-362 | the id a delete/feedback call can find without fetching the post: present exactly for a dict |
| Facade.Anonymity | piazza_api/network.py:139 | the anonymity field is "yes" exactly for a truthy flag and "no" otherwise |
| Facade.GetPost | piazza_api/network.py:75-83 | `get_post` fetches by `cid` with `student_view: "false"` on the client's network |
| Facade.GetFeed | piazza_api/network.py:491-508 | `get_feed` sends exactly the given `limit` and `offset` with sort `updated` |
| Facade.AllPostsFeed | piazza_api/network.py:106 | the feed call `iter_all_posts` starts with: `network.get_my_feed` with limit 999999, offset 0 and sort `updated` |
| Facade.CreatePost | piazza_api/network.py:114-153 | the created post's parameters carry exactly the type, folders, subject, content, anonymity (`yes`/`no`) and config keys, plus `prof_override` exactly when `bypass_email` is truthy |
| Facade.CreateFollowup | piazza_api/network.py:155-190 | a follow-up is accepted exactly for a dict post. It is sent on `content.create` with exactly the keys cid (the post's id), type, subject, content, config and anonymous, and `config` is exactly the `rte` editor with `ionly` from the instructor flag |
| Facade.CreateInstructorAnswer | piazza_api/network.py:192-224 | an instructor answer is accepted exactly for a dict post. It is sent on `content.answer` with exactly `cid` (the post's id), type `i_answer`, the content, the revision and the yes/no anonymity |
| Facade.CreateReply | piazza_api/network.py:226-257 | a reply is accepted exactly for a dict post, and is sent on `content.create` with the post's id as `cid` |
| Facade.UpdatePost | piazza_api/network.py:259-282 | an update sends exactly `cid` and `subject` on `content.update`, the content going into the subject |
| Facade.ResolvePost | piazza_api/network.py:306-324 | resolving is accepted exactly for a dict post and sends exactly its id and `resolved: "true"` on `content.mark_resolved` |
| Facade.PinPost | piazza_api/network.py:326-344 | pinning is accepted exactly for a dict post and sends exactly its id on `content.pin` or `content.unpin` |
| Facade.DeletePost | piazza_api/network.py:346-368 | a dict post is deleted by its id at once; any other value must first be fetched as a post |
| Facade.AddFeedback | piazza_api/network.py:370-392 | a dict post gets feedback at once, with exactly its id and type `tag_good` on `content.add_feedback`; any other value must first be fetched as a post |
| Facade.RemoveFeedback | piazza_api/network.py:394-416 | a dict post loses feedback at once, with exactly its id and type `tag_good` on `content.remove_feedback`; any other value must first be fetched as a post |
| Facade.FeedPosts | piazza_api/network.py:107 | `feed["feed"]`: the list under the key; TypeError for a non-dict; KeyError when the key is missing |
| Facade.PostIds | piazza_api/network.py:107 | `[post['id'] for post in …]` succeeds exactly when every post is a dict with an id, giving the ids in order. Otherwise it fails with TypeError or KeyError |
| Facade.FeedIds | piazza_api/network.py:107 | the ids of the feed list in order, exactly when every post is a record with an id; TypeError for a non-dict feed and KeyError when `feed` is missing |
| Facade.Kept | piazza_api/network.py:108-109 | the kept ids are a prefix of the feed's ids |
| Facade.KeptPrefix | piazza_api/network.py:108-109 | no limit keeps every id. A limit k >= 0 keeps the first min(k, n). A negative limit drops ids from the end |
| Facade.IterAllPosts | piazza_api/network.py:85-112 | the feed is first requested with limit 999999, offset 0 and sort `updated`. Then one `content.get` per kept post id, in feed order; a malformed feed fails with the error of extracting its ids |
| Facade.Network.constructor | piazza_api/network.py:53-59 | a network object has its own fresh RPC client on the given session, with the given network id |
| Facade.BareIdRejected | piazza_api/network.py:172-175 | follow-ups, instructor answers, replies, resolving and pinning all raise TypeError for a bare id |
| Facade.UpdatePostAcceptsBareId | piazza_api/network.py:270-281 | updating by a post dict and updating by its id send the same call |
| Facade.ReplyIsFollowupWithoutConfig | piazza_api/network.py:226-257 | a reply's parameters are a follow-up's without `config` and with type `feedback` |
| Facade.ReplyParams | piazza_api/network.py:246-257 | a reply sends exactly cid, subject (the text), an empty content, the anonymity and type `feedback` |
| Facade.FollowupWithoutConfig | piazza_api/network.py:177-189 | a follow-up's params without `config` are exactly cid, subject, an empty content, the anonymity and type `followup` |
| Facade.FollowupShape | piazza_api/network.py:177-189 | a follow-up has type `followup`, its text in `subject`, an empty `content`, `anonymous` yes/no from the flag, and a `config` of exactly `editor: "rte"` and `ionly` from the instructor flag |
| Client.ProjectClass | piazza_api/piazza.py:66-70 | a class record keeps `name`, `num` and `term`, takes `id` as `nid` and `is_ta` or False. It fails exactly when the raw record is not a dict (TypeError) or lacks one of the four keys (KeyError) |
| Client.Piazza.constructor | piazza_api/piazza.py:10-11 | the client holds the RPC client it was given |
| Client.Piazza.UserLogin | piazza_api/piazza.py:13-22 | every login runs on a fresh RPC client, so its jar holds only this login's cookies. A missing CSRF token fails with its error; otherwise the login passes exactly on status 200 and any other status raises AuthenticationError with the response text |
| Client.Piazza.DemoLogin | piazza_api/piazza.py:24-34 | every demo login runs on a fresh RPC client, whose jar is the demo response's cookies on success and empty otherwise |
| Client.Piazza.EnsureAuthenticated | piazza_api/piazza.py:74-75 | with no RPC client, AttributeError; otherwise passes exactly when its jar is non-empty |
| Client.Piazza.NetworkAsWritten | piazza_api/piazza.py:36-46 | as written, `network` never returns a network: it raises the authentication error or, once authenticated, AttributeError for `cookies` |
| Client.Piazza.Network | piazza_api/piazza.py:36-46 | corrected `network`: a fresh network object on the RPC client's session exactly when authenticated |
| Client.NetworkFinding | piazza_api/piazza.py:45-46 | for every authenticated client, the `network` as written fails and the corrected one succeeds |
| Client.Piazza.GetUserClasses | piazza_api/piazza.py:56-72 | one projected record per raw class, in order. Otherwise it fails with the error of the first raw class that fails |
| Legacy.LoginResultCheck | piazza_api/__init__.py:55-58 | the legacy login succeeds exactly when the response's `result` is "OK"; a non-dict raises TypeError, a missing key KeyError, any other result AuthenticationError |
| Legacy.LegacyPost | piazza_api/__init__.py:224-234 | a legacy POST goes to the logic API with no headers, the method name as its only query parameter and the same name as the body's `method`, next to the params |
| Legacy.LegacyPiazza.constructor | piazza_api/__init__.py:23-26 | a new legacy client has no cookie jar |
| Legacy.LegacyPiazza.CheckAuthenticated | piazza_api/__init__.py:236-242 | passes exactly when a jar is present, even an empty one |
| Legacy.LegacyPiazza.UserAuth | piazza_api/__init__.py:28-59 | posts the credentials on `user.login`. The response's cookies become the jar only when the login succeeds |
| Legacy.LegacyPiazza.DemoAuth | piazza_api/__init__.py:61-79 | exactly one of `auth`/`url` is required; the jar becomes the demo response's cookies |
| Legacy.LegacyPiazza.Request | piazza_api/__init__.py:202-234 | refused without a jar, otherwise a POST to the logic API with the method in the query and the body's parameters built as in the current client |
| Legacy.LegacyPiazza.Get | piazza_api/__init__.py:81-96 | `content.get` with `cid`, returning the raw response body |
| Legacy.LegacyPiazza.Unwrapped | piazza_api/__init__.py:116-129 | a legacy request followed by the unwrapping of `error`/`result` |
| Legacy.LegacyPiazza.EnrollStudents | piazza_api/__init__.py:98-129 | the whole legacy POST (URL, `method` query, body) of `network.update` with the network id under `id`, `from` and `add_students`; the response is unwrapped with "Could not add users." |
| Legacy.LegacyPiazza.GetAllUsers | piazza_api/__init__.py:131-149 | the whole legacy POST (URL, `method` query, body) of `network.get_all_users` with `nid`; the response is unwrapped with "Could not get users." |
| Legacy.LegacyPiazza.GetUsers | piazza_api/__init__.py:151-174 | the whole legacy POST (URL, `method` query, body) of `network.get_users` with `nid` and `ids`; the response is unwrapped with "Could not get users." |
| Legacy.LegacyPiazza.RemoveUsers | piazza_api/__init__.py:176-200 | the whole legacy POST (URL, `method` query, body) of `network.update` with the network id under `id` and `remove_users`; the response is unwrapped with "Could not remove users." |
| Legacy.GatesDiffer | piazza_api/__init__.py:241 | an empty cookie jar passes the legacy client's check but fails the current client's |

## Left out

- HTTP transport, JSON encoding and decoding: requests are returned as values and responses are parameters.
- Cookie domains (`domain="piazza.com"`) are not modelled. Neither are the rules that decide which cookies requests sends. A jar is a map from name to value.
- requests' dropping of `None`-valued query parameters and URL encoding are not modelled. The nonce URL is plain concatenation.
- The clock, `random()` and `time.sleep` are not modelled: the first two are parameters (`clockMs`, `draw`), and sleeping has no observable effect in the model.
- Nonce.Int2Base: requires a base of at least 2. For a non-zero x, Python loops forever on base 1 or -1 and divides by zero on base 0. A base of -2 or less ends, with digits picked by negative indices: `_int2base(5, -2)` gives "Z0Z".
- Nonce.Int2Base: Python's float division `int(x / base)` is modelled as exact integer division. For magnitudes above 2^53, float rounding could change digits. The clock values the nonce uses are far below that.
- Nonce.BaseTooLargeError: states only that the error is a ValueError, not its exact message text.
- Interactive prompts for a missing e-mail or password (`input`, `getpass`) are not modelled: both are parameters.
- Rpc.PiazzaRpc.UserLogin: the scraping of an error message from the HTML of a 200 response whose page still reports a failure is left out. A 200 status counts as success.
- Error messages formatted with `repr`/`str.format` of parameters or responses: the message is a parameter (`errMsg`), and a RequestError carries the response value instead.
- The `return_response` flag of `request` is not modelled: every call decodes the body.
- Facade.DeletePost, Facade.AddFeedback, Facade.RemoveFeedback: when the post is not a dict, the source fetches it with `get_post` and indexes the result. The model returns `NeedsPost` with the id to fetch, not the nested call.
- Facade.IterAllPosts: the generator's laziness is not modelled. The result is the sequence of `content.get` calls it would issue, not the responses.
- Client.Piazza.GetUserClasses takes the values of `all_classes` as a sequence. Dicts are maps here, so their iteration order is not modelled. Neither is the `get_user_profile().get('all_classes')` step, which raises AttributeError when the key is missing.
- Client.Piazza.UserLogin and Client.Piazza.DemoLogin do not return the requests they send. Rpc.PiazzaRpc.UserLogin and Rpc.PiazzaRpc.DemoLogin state those.
- Legacy.LegacyPiazza.Request: the legacy client sends its cookie jar with each POST. The model's `HttpPost` has no cookie field, so that forwarding is implicit.
- Text.Upper: only ASCII letters are upper-cased. Python's Unicode case mapping is not modelled.
- Endpoints outside the modelled core are not modelled:
  - `content_student_answer`, which builds `{content, type: "s_answer", anonymous, revision, cid}` on `content.answer`;
  - `content_mark_duplicate`, which sends the caller's params on `content.duplicate`, and `mark_as_duplicate`, which first fetches both posts and sends their ids with the message;
  - `search` / `search_feed` (`network.search` with `query`) and `get_stats` / `get_statistics` (`network.get_stats`);
  - `get_user_profile` and `get_user_status`, which take no network-id argument, so the client's own id is still sent under `nid`;
  - the `Network` user-management wrappers and `iter_users` / `iter_all_users`.
- Rpc.PiazzaRpc.Request: it returns the POST and keeps the jar as it is. Storing the response's cookies is stated by Rpc.PiazzaRpc.Invoke, which takes them as a parameter.
- Nonce.Int2Base: for a base above 62 it follows the intended ValueError (Nonce.BaseTooLargeError), not the TypeError the code as written raises (see Findings).
- Nonce.RandomPart: `random() * 1679616` is an exact real product, not a float. Float rounding could move a value that lies next to a .5 tie.
- `exceptions.py` only declares the exception classes, which are constructors of `Values.Error` here.

Where the code and the library's description disagree, the model follows the code:

- Only `update_post` accepts a bare post id. The other post operations that take a post either raise TypeError for one or fetch the post first.
- The legacy client treats any cookie jar, even an empty one, as logged in.
- `round` can reach 1679616, so the random part of the nonce ranges over `0..1679616` with both ends included, not a half-open range.
- A class's `is_ta` is read from the raw record (False when missing), not derived from the network's instructor ids.
- The nonce joins its two base-36 parts without a separator, so it cannot be split back into the clock and the random part. Only each part round-trips on its own.

## Findings

| source | as written | input that shows it | evidently intended | confidence | as-written member | corrected member |
|---|---|---|---|---|---|---|
| piazza_api/nonce.py:34-38 | the message of the ValueError is built as `str + int`, which raises TypeError | `_int2base(0, 63)` | raise ValueError("Base is too large: …") | not executed | Nonce.BaseTooLargeAsWrittenRaisesTypeError | Nonce.BaseTooLargeError |
| piazza_api/piazza.py:45-46 | `network` reads `self._rpc_api.cookies`, an attribute `PiazzaRPC` never sets, so it raises AttributeError after every successful authentication | any authenticated client, `network("abc")` | build the `Network` on the RPC client's session | not executed | Client.NetworkFinding | Client.Piazza.Network |
