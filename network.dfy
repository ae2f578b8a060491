/**
 * The network facade of piazza_api/network.py: feed filters, the three
 * different ways its methods turn a `post` argument into a post id, the
 * params each post method sends, and the id list `iter_all_posts` walks.
 * Each method's observable effect is the RPC call it makes, so each is
 * modelled by the `Rpc.Call` it builds.
 */
module Facade {
  import opened Values
  import opened Text
  import opened Envelope
  import Rpc

  // ---- Feed filters ----

  datatype FeedFilter = UnreadFilter | FollowingFilter | FolderFilter(folderName: Value)

  /** What `get_filtered_feed` may be handed: one of the filter classes, or
      anything else. */
  datatype FilterArgument = IsFilter(filter: FeedFilter) | NotAFilter(other: Value)

  /** `to_kwargs`: each filter sets exactly its own flag to True, and only
      the folder filter adds the folder name. */
  function ToKwargs(f: FeedFilter): (kw: map<string, Value>)
    ensures "updated" in kw <==> f.UnreadFilter?
    ensures "following" in kw <==> f.FollowingFilter?
    ensures "folder" in kw <==> f.FolderFilter?
    ensures "filter_folder" in kw <==> f.FolderFilter?
    ensures kw.Keys <= {"updated", "following", "folder", "filter_folder"}
    ensures forall k :: k in kw && k != "filter_folder" ==> kw[k] == Bool(true)
    ensures f.FolderFilter? ==> kw["filter_folder"] == f.folderName
  {
    match f
    case UnreadFilter => map["updated" := Bool(true)]
    case FollowingFilter => map["following" := Bool(true)]
    case FolderFilter(name) => map["folder" := Bool(true), "filter_folder" := name]
  }

  /** `filter_feed(**kw)`, with the defaults of `filter_feed` for every
      keyword `kw` leaves out. */
  function FilterFeedWith(kw: map<string, Value>): (r: Result<Rpc.Call>)
    ensures kw == map[] ==> r == Err(AssertionError)
    ensures r.Ok? ==> r.value.nid == Null && r.value.data.Some? && "sort" in r.value.data.value
                      && r.value.data.value["sort"] == Str("updated")
  {
    Rpc.FilterFeed(Get(kw, "updated", Bool(false)), Get(kw, "following", Bool(false)),
                   Get(kw, "folder", Bool(false)), Get(kw, "filter_folder", Str("")),
                   Str("updated"), Null)
  }

  /** `get_filtered_feed`: anything but a filter fails the isinstance
      check; the unread and following filters always pass `filter_feed`'s
      checks, and the folder filter passes them exactly when its folder
      name is truthy. */
  function GetFilteredFeed(arg: FilterArgument): (r: Result<Rpc.Call>)
    ensures arg.NotAFilter? ==> r == Err(AssertionError)
    ensures arg.IsFilter? && !arg.filter.FolderFilter? ==> r.Ok?
    ensures arg.IsFilter? && arg.filter.FolderFilter? ==> (r.Ok? <==> Truthy(arg.filter.folderName))
    ensures r.Err? ==> r.error == AssertionError
    ensures r.Ok? ==> r.value.name == "network.filter_feed" && r.value.data.Some?
    ensures r.Ok? && arg.filter.UnreadFilter? ==>
              r.value.data == Some(map["sort" := Str("updated"), "updated" := Int(1)])
    ensures r.Ok? && arg.filter.FollowingFilter? ==>
              r.value.data == Some(map["sort" := Str("updated"), "following" := Int(1)])
    ensures r.Ok? && arg.filter.FolderFilter? ==>
              r.value.data == Some(map["sort" := Str("updated"), "folder" := Int(1),
                                       "filter_folder" := arg.filter.folderName])
  {
    if arg.NotAFilter? then Err(AssertionError)
    else
      var f := arg.filter;
      Rpc.SumOfFlags(f.UnreadFilter?, f.FollowingFilter?, f.FolderFilter?);
      FilterFeedWith(ToKwargs(f))
  }

  // ---- From a post argument to a post id ----

  /** `post["id"]` with only KeyError caught, as in `create_followup`,
      `create_instructor_answer`, `create_reply`, `resolve_post` and
      `pin_post`: a record's id, the record itself when it has none, and a
      TypeError that escapes for anything that is not a record (a bare str
      or int id among them). */
  function PostId(post: Value): (r: Result<Value>)
    ensures post.Dict? && "id" in post.fields ==> r == Ok(post.fields["id"])
    ensures post.Dict? && "id" !in post.fields ==> r == Ok(post)
    ensures !post.Dict? ==> r == Err(TypeError)
  {
    if !post.Dict? then Err(TypeError)
    else if "id" in post.fields then Ok(post.fields["id"])
    else Ok(post)
  }

  /** `post["id"]` with both KeyError and TypeError caught, as in
      `update_post`: anything that is not a record with an id is used as
      the id itself. */
  function UpdatePostId(post: Value): (cid: Value)
    ensures post.Dict? && "id" in post.fields ==> cid == post.fields["id"]
    ensures !(post.Dict? && "id" in post.fields) ==> cid == post
  {
    if post.Dict? && "id" in post.fields then post.fields["id"] else post
  }

  /** The outcome of the local branch of `delete_post`, `add_feedback` and
      `remove_feedback`: the call, or for a post that is not a record the id
      whose record the source first fetches with `get_post`. */
  datatype Prepared = Ready(call: Rpc.Call) | NeedsPost(cid: Value)

  /** The id those three methods take locally: a record's id, or the record
      itself when it has none. */
  function LocalPostId(post: Value): (r: Option<Value>)
    ensures post.Dict? <==> r.Some?
    ensures r.Some? ==> PostId(post) == Ok(r.value)
  {
    if post.Dict? then Some(PostId(post).value) else None
  }

  // ---- Params of the post methods ----

  /** `"yes" if anonymous else "no"`. */
  function Anonymity(anonymous: Value): (a: Value)
    ensures a == Str("yes") || a == Str("no")
    ensures a == Str("yes") <==> Truthy(anonymous)
  {
    Str(if Truthy(anonymous) then "yes" else "no")
  }

  /** `create_post`: the six fixed keys (the two flags nested in `config`),
      plus `prof_override: True` exactly when `bypass_email` is truthy. */
  method CreatePost(postType: Value, folders: Value, subject: Value, content: Value,
                    isAnnouncement: Value, bypassEmail: Value, anonymous: Value)
    returns (c: Rpc.Call)
    ensures c.name == "content.create" && c.data.Some? && c.nid == Null
    ensures DataOrEmpty(c.data).Keys == {"anonymous", "subject", "content", "folders", "type", "config"}
                                + (if Truthy(bypassEmail) then {"prof_override"} else {})
    ensures DataOrEmpty(c.data)["anonymous"] == Str(if Truthy(anonymous) then "yes" else "no")
    ensures DataOrEmpty(c.data)["subject"] == subject && DataOrEmpty(c.data)["content"] == content
    ensures DataOrEmpty(c.data)["folders"] == folders && DataOrEmpty(c.data)["type"] == postType
    ensures DataOrEmpty(c.data)["config"] == Dict(map["bypass_email" := bypassEmail, "is_announcement" := isAnnouncement])
    ensures Truthy(bypassEmail) ==> DataOrEmpty(c.data)["prof_override"] == Bool(true)
  {
    var params := map[
      "anonymous" := Anonymity(anonymous),
      "subject" := subject,
      "content" := content,
      "folders" := folders,
      "type" := postType,
      "config" := Dict(map["bypass_email" := bypassEmail, "is_announcement" := isAnnouncement])
    ];
    if Truthy(bypassEmail) {
      params := params["prof_override" := Bool(true)];
    }
    c := Rpc.ContentCreate(params);
  }

  function CreateFollowup(post: Value, content: Value, anonymous: Value, instructor: Value): (r: Result<Rpc.Call>)
    ensures r.Ok? <==> post.Dict?
    ensures r.Ok? ==> "cid" in DataOrEmpty(r.value.data) && DataOrEmpty(r.value.data)["cid"] == PostId(post).value
    ensures r.Ok? ==> r.value.name == "content.create"
    ensures r.Ok? ==> DataOrEmpty(r.value.data).Keys == {"cid", "type", "subject", "content", "config", "anonymous"}
    ensures r.Ok? ==> DataOrEmpty(r.value.data)["config"] == Dict(map["editor" := Str("rte"), "ionly" := Bool(Truthy(instructor))])
  {
    var cid := PostId(post);
    if cid.Err? then Err(cid.error)
    else
      Ok(Rpc.ContentCreate(map[
        "cid" := cid.value,
        "type" := Str("followup"),
        "subject" := content,
        "content" := Str(""),
        "config" := Dict(map["editor" := Str("rte"), "ionly" := Bool(Truthy(instructor))]),
        "anonymous" := Anonymity(anonymous)
      ]))
  }

  function CreateInstructorAnswer(post: Value, content: Value, revision: Value, anonymous: Value)
    : (r: Result<Rpc.Call>)
    ensures r.Ok? <==> post.Dict?
    ensures r.Ok? ==> "cid" in DataOrEmpty(r.value.data) && DataOrEmpty(r.value.data)["cid"] == PostId(post).value
    ensures r.Ok? ==> r.value.name == "content.answer"
    ensures r.Ok? ==> DataOrEmpty(r.value.data) == map["cid" := PostId(post).value, "type" := Str("i_answer"),
                                                "content" := content, "revision" := revision,
                                                "anonymous" := Anonymity(anonymous)]
  {
    var cid := PostId(post);
    if cid.Err? then Err(cid.error)
    else
      Ok(Rpc.ContentInstructorAnswer(map[
        "cid" := cid.value,
        "type" := Str("i_answer"),
        "content" := content,
        "revision" := revision,
        "anonymous" := Anonymity(anonymous)
      ]))
  }

  function CreateReply(post: Value, content: Value, anonymous: Value): (r: Result<Rpc.Call>)
    ensures r.Ok? <==> post.Dict?
    ensures r.Ok? ==> "cid" in DataOrEmpty(r.value.data) && DataOrEmpty(r.value.data)["cid"] == PostId(post).value
    ensures r.Ok? ==> r.value.name == "content.create"
  {
    var cid := PostId(post);
    if cid.Err? then Err(cid.error)
    else
      Ok(Rpc.ContentCreate(map[
        "cid" := cid.value,
        "type" := Str("feedback"),
        "subject" := content,
        "content" := Str(""),
        "anonymous" := Anonymity(anonymous)
      ]))
  }

  function UpdatePost(post: Value, content: Value): (c: Rpc.Call)
    ensures c.name == "content.update" && DataOrEmpty(c.data).Keys == {"cid", "subject"}
    ensures DataOrEmpty(c.data)["cid"] == UpdatePostId(post) && DataOrEmpty(c.data)["subject"] == content
  {
    Rpc.ContentUpdate(map["cid" := UpdatePostId(post), "subject" := content])
  }

  function ResolvePost(post: Value): (r: Result<Rpc.Call>)
    ensures r.Ok? <==> post.Dict?
    ensures r.Ok? ==> "cid" in DataOrEmpty(r.value.data) && DataOrEmpty(r.value.data)["cid"] == PostId(post).value
    ensures r.Ok? ==> r.value.name == "content.mark_resolved"
    ensures r.Ok? ==> DataOrEmpty(r.value.data) == map["cid" := PostId(post).value, "resolved" := Str("true")]
  {
    var cid := PostId(post);
    if cid.Err? then Err(cid.error)
    else Ok(Rpc.ContentMarkResolved(map["cid" := cid.value, "resolved" := Str("true")]))
  }

  function PinPost(post: Value, unpin: Value): (r: Result<Rpc.Call>)
    ensures r.Ok? <==> post.Dict?
    ensures r.Ok? ==> "cid" in DataOrEmpty(r.value.data) && DataOrEmpty(r.value.data)["cid"] == PostId(post).value
    ensures r.Ok? ==> r.value.name == (if Truthy(unpin) then "content.unpin" else "content.pin")
    ensures r.Ok? ==> DataOrEmpty(r.value.data) == map["cid" := PostId(post).value]
  {
    var cid := PostId(post);
    if cid.Err? then Err(cid.error)
    else Ok(Rpc.ContentPin(map["cid" := cid.value], unpin))
  }

  function DeletePost(post: Value): (r: Prepared)
    ensures r.Ready? <==> post.Dict?
    ensures r.NeedsPost? ==> r.cid == post
    ensures r.Ready? ==> r.call.name == "content.delete" && DataOrEmpty(r.call.data) == map["cid" := LocalPostId(post).value]
  {
    var cid := LocalPostId(post);
    if cid.None? then NeedsPost(post) else Ready(Rpc.ContentDelete(map["cid" := cid.value]))
  }

  function AddFeedback(post: Value): (r: Prepared)
    ensures r.Ready? <==> post.Dict?
    ensures r.NeedsPost? ==> r.cid == post
    ensures r.Ready? ==> r.call.name == "content.add_feedback"
    ensures r.Ready? ==> DataOrEmpty(r.call.data) == map["cid" := LocalPostId(post).value, "type" := Str("tag_good")]
  {
    var cid := LocalPostId(post);
    if cid.None? then NeedsPost(post)
    else Ready(Rpc.ContentAddFeedback(map["cid" := cid.value, "type" := Str("tag_good")]))
  }

  function RemoveFeedback(post: Value): (r: Prepared)
    ensures r.Ready? <==> post.Dict?
    ensures r.NeedsPost? ==> r.cid == post
    ensures r.Ready? ==> r.call.name == "content.remove_feedback"
    ensures r.Ready? ==> DataOrEmpty(r.call.data) == map["cid" := LocalPostId(post).value, "type" := Str("tag_good")]
  {
    var cid := LocalPostId(post);
    if cid.None? then NeedsPost(post)
    else Ready(Rpc.ContentRemoveFeedback(map["cid" := cid.value, "type" := Str("tag_good")]))
  }

  // ---- Feeds ----

  /** `get_post`: the post fetch, on the client's own network. */
  function GetPost(cid: Value): (c: Rpc.Call)
    ensures c.name == "content.get" && c.nid == Null
    ensures DataOrEmpty(c.data) == map["cid" := cid, "student_view" := Str("false")]
  {
    Rpc.ContentGet(cid, Null)
  }

  /** `get_feed`: the feed page, sorted by `updated`. */
  function GetFeed(limit: Value, offset: Value): (c: Rpc.Call)
    ensures c.name == "network.get_my_feed" && c.nid == Null
    ensures DataOrEmpty(c.data) == map["limit" := limit, "offset" := offset, "sort" := Str("updated")]
  {
    Rpc.GetMyFeed(limit, offset, Str("updated"), Null)
  }

  /** The feed call `iter_all_posts` starts with. */
  function AllPostsFeed(): (c: Rpc.Call)
    ensures c.name == "network.get_my_feed" && c.nid == Null
    ensures DataOrEmpty(c.data) == map["limit" := Int(999999), "offset" := Int(0), "sort" := Str("updated")]
  {
    GetFeed(Int(999999), Int(0))
  }

  /** The posts `for post in feed["feed"]` walks: a list gives its items,
      an empty str or dict gives nothing, a missing key raises KeyError,
      and anything else raises TypeError (a non-empty str or dict walks
      strings, which `post['id']` then rejects). */
  function FeedPosts(feed: Value): (r: Result<seq<Value>>)
    ensures feed.Dict? && "feed" in feed.fields && feed.fields["feed"].List? ==>
              r == Ok(feed.fields["feed"].items)
    ensures feed.Dict? && "feed" !in feed.fields ==> r == Err(KeyError("feed"))
    ensures !feed.Dict? ==> r == Err(TypeError)
  {
    if !feed.Dict? then Err(TypeError)
    else if "feed" !in feed.fields then Err(KeyError("feed"))
    else match feed.fields["feed"]
      case List(posts) => Ok(posts)
      case Str(s) => if s == "" then Ok([]) else Err(TypeError)
      case Dict(m) => if m == map[] then Ok([]) else Err(TypeError)
      case _ => Err(TypeError)
  }

  /** `[post['id'] for post in posts]`: the ids in order, or the error of
      the first post that is not a record with an id. */
  function PostIds(posts: seq<Value>): (r: Result<seq<Value>>)
    ensures r.Ok? <==> forall i :: 0 <= i < |posts| ==> posts[i].Dict? && "id" in posts[i].fields
    ensures r.Ok? ==> |r.value| == |posts|
    ensures r.Ok? ==> forall i :: 0 <= i < |posts| ==> r.value[i] == posts[i].fields["id"]
    ensures r.Err? ==> r.error == TypeError || r.error == KeyError("id")
  {
    if posts == [] then Ok([])
    else
      assert forall i :: 1 <= i < |posts| ==> posts[i] == posts[1..][i - 1];
      if !posts[0].Dict? then Err(TypeError)
      else if "id" !in posts[0].fields then Err(KeyError("id"))
      else
        var rest := PostIds(posts[1..]);
        if rest.Err? then rest else Ok([posts[0].fields["id"]] + rest.value)
  }

  /** `[post['id'] for post in feed["feed"]]`: the ids of a feed list in
      order, or the first error the lookup or a post raises. */
  function FeedIds(feed: Value): (r: Result<seq<Value>>)
    ensures !feed.Dict? ==> r == Err(TypeError)
    ensures feed.Dict? && "feed" !in feed.fields ==> r == Err(KeyError("feed"))
    ensures feed.Dict? && "feed" in feed.fields && feed.fields["feed"].List? ==>
              var posts := feed.fields["feed"].items;
              (r.Ok? <==> forall i :: 0 <= i < |posts| ==> posts[i].Dict? && "id" in posts[i].fields)
              && (r.Ok? ==> |r.value| == |posts| && forall i :: 0 <= i < |posts| ==> r.value[i] == posts[i].fields["id"])
  {
    var posts := FeedPosts(feed);
    if posts.Err? then Err(posts.error) else PostIds(posts.value)
  }

  /** The ids left after `if limit is not None: cids = cids[:limit]`. */
  function Kept(ids: seq<Value>, limit: Option<int>): (k: seq<Value>)
    ensures |k| <= |ids| && k == ids[..|k|]
  {
    if limit.None? then ids else PySlice(ids, 0, limit.value)
  }

  /** What the limit keeps: every id without one, otherwise the first
      `min(limit, n)` ids in feed order (none for 0); a negative limit
      drops that many ids from the end. */
  lemma KeptPrefix(ids: seq<Value>, limit: Option<int>)
    ensures limit.None? ==> Kept(ids, limit) == ids
    ensures limit.Some? && limit.value >= 0 ==>
              var n := if limit.value <= |ids| then limit.value else |ids|;
              |Kept(ids, limit)| == n && Kept(ids, limit) == ids[..n]
    ensures limit == Some(0) ==> Kept(ids, limit) == []
    ensures limit.Some? && limit.value < 0 ==>
              if |ids| + limit.value < 0 then Kept(ids, limit) == []
              else Kept(ids, limit) == ids[..|ids| + limit.value]
  {
    if limit.Some? {
      PrefixSlice(ids, limit.value);
    }
  }

  /** `iter_all_posts`: given the body the feed call returned, the post
      fetches it yields, one per kept id in feed order, or the error its
      id list raises before the first one. */
  method IterAllPosts(feed: Value, limit: Option<int>) returns (feedCall: Rpc.Call, r: Result<seq<Rpc.Call>>)
    ensures feedCall == AllPostsFeed() && feedCall.name == "network.get_my_feed"
    ensures DataOrEmpty(feedCall.data) == map["limit" := Int(999999), "offset" := Int(0), "sort" := Str("updated")]
    ensures FeedIds(feed).Err? ==> r == Err(FeedIds(feed).error)
    ensures FeedIds(feed).Ok? ==> r.Ok?
    ensures r.Ok? ==> |r.value| == |Kept(FeedIds(feed).value, limit)|
    ensures r.Ok? ==> forall i :: 0 <= i < |r.value| ==> r.value[i] == GetPost(Kept(FeedIds(feed).value, limit)[i])
  {
    feedCall := AllPostsFeed();
    var ids := FeedIds(feed);
    if ids.Err? {
      return feedCall, Err(ids.error);
    }
    var cids := ids.value;
    if limit.Some? {
      cids := PySlice(cids, 0, limit.value);
    }
    var fetches: seq<Rpc.Call> := [];
    for i := 0 to |cids|
      invariant |fetches| == i
      invariant forall j :: 0 <= j < i ==> fetches[j] == GetPost(cids[j])
    {
      fetches := fetches + [GetPost(cids[i])];
    }
    r := Ok(fetches);
  }

  // ---- The network object ----

  /** A network of the authenticated user: its id and an RPC client whose
      session is the one it was given, shared by reference. */
  class Network {
    var nid: Value
    var rpc: Rpc.PiazzaRpc

    constructor(networkId: Value, session: Rpc.Session)
      ensures nid == networkId && fresh(rpc)
      ensures rpc.nid == networkId && rpc.session == session
    {
      nid := networkId;
      var client := new Rpc.PiazzaRpc(networkId);
      client.session := session;
      rpc := client;
    }
  }

  // ---- Properties of the facade ----

  /** The five methods that catch only KeyError take a record's id, or the
      record itself, but reject a bare id with TypeError. */
  lemma BareIdRejected(id: Value, content: Value, flag: Value)
    requires !id.Dict?
    ensures CreateFollowup(id, content, flag, flag) == Err(TypeError)
    ensures CreateInstructorAnswer(id, content, flag, flag) == Err(TypeError)
    ensures CreateReply(id, content, flag) == Err(TypeError)
    ensures ResolvePost(id) == Err(TypeError)
    ensures PinPost(id, flag) == Err(TypeError)
  {
  }

  /** `update_post` sends the same params for a record with an id and for
      that id given bare (unless the id is itself a record with an id). */
  lemma UpdatePostAcceptsBareId(post: map<string, Value>, content: Value)
    requires "id" in post
    requires !(post["id"].Dict? && "id" in post["id"].fields)
    ensures UpdatePost(Dict(post), content) == UpdatePost(post["id"], content)
  {
  }

  /** `create_reply` sends what `create_followup` sends, with type
      `feedback` and without the `config` entry. */
  lemma ReplyIsFollowupWithoutConfig(post: Value, content: Value, anonymous: Value, instructor: Value)
    requires post.Dict?
    ensures DataOrEmpty(CreateReply(post, content, anonymous).value.data) ==
              (DataOrEmpty(CreateFollowup(post, content, anonymous, instructor).value.data) - {"config"})
                ["type" := Str("feedback")]
  {
    ReplyParams(post, content, anonymous);
    FollowupWithoutConfig(post, content, anonymous, instructor);
  }

  lemma ReplyParams(post: Value, content: Value, anonymous: Value)
    requires post.Dict?
    ensures DataOrEmpty(CreateReply(post, content, anonymous).value.data) ==
            map["cid" := PostId(post).value, "subject" := content, "content" := Str(""),
                "anonymous" := Anonymity(anonymous), "type" := Str("feedback")]
  {
  }

  lemma FollowupWithoutConfig(post: Value, content: Value, anonymous: Value, instructor: Value)
    requires post.Dict?
    ensures DataOrEmpty(CreateFollowup(post, content, anonymous, instructor).value.data) - {"config"} ==
            map["cid" := PostId(post).value, "subject" := content, "content" := Str(""),
                "anonymous" := Anonymity(anonymous), "type" := Str("followup")]
  {
    var followup := DataOrEmpty(CreateFollowup(post, content, anonymous, instructor).value.data);
    assert (followup - {"config"}).Keys == {"cid", "subject", "content", "anonymous", "type"};
  }

  /** A follow-up puts its text in `subject`, leaves `content` empty, and
      its `config` holds exactly the `rte` editor and `ionly` from the
      instructor flag. */
  lemma FollowupShape(post: Value, content: Value, anonymous: Value, instructor: Value)
    requires post.Dict?
    ensures var p := DataOrEmpty(CreateFollowup(post, content, anonymous, instructor).value.data);
            p["type"] == Str("followup") && p["subject"] == content && p["content"] == Str("")
            && p["config"].Dict? && p["config"].fields.Keys == {"editor", "ionly"}
            && p["config"].fields["editor"] == Str("rte") && p["config"].fields["ionly"] == Bool(Truthy(instructor))
            && p["anonymous"] == Str(if Truthy(anonymous) then "yes" else "no")
  {
  }
}
