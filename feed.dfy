/** services/feed/main.go: the older feed service, with its own converter from
    posts rows to a five-field `Post` and its own author lookup. */
module Feed {
  import opened Wrappers
  import opened Proto

  /** The feed service's `pb.Post`. */
  datatype FeedPost = FeedPost(globalId: int, author: string, title: string, body: string,
                               creationDatetime: Option<Timestamp>)

  /** Why a feed request fails. The text of the posts-request error embeds a
      printed protobuf struct, which is not modelled; only its cause is kept. */
  datatype FeedError = UsernameEmpty | AuthorLookupFailed(message: string) | PostsFailed(rpcError: string)

  /** A database request the handlers issue themselves (not counting the author
      lookups of the conversion, which `FeedPosts` describes). */
  datatype DbCall = UsersCall(m: UsersMatch) | PostsCall(q: PostsQuery)

  /** The outcomes of `getAuthorFromDb` as written: `resp.Results[0]` is read
      without a length test, so an empty answer is an index-out-of-range panic. */
  datatype AuthorLookup = Found(user: UsersEntry) | Failed(message: string) | IndexOutOfRange

  function LookupMessage(handle: string, host: string, e: string): string {
    "Could not find user " + handle + "@" + host + ". error: " + e
  }

  /** The match `getAuthorFromDb` sends (this proto has no `host_is_null`). */
  function AuthorMatch(handle: string, host: string, globalId: int): UsersMatch {
    UsersMatch(handle, host, false, globalId)
  }

  /** `getAuthorFromDb` exactly as written. */
  function GetAuthorFromDbAsWritten(handle: string, host: string, globalId: int, db: UsersGetter): (r: AuthorLookup)
    ensures var m := AuthorMatch(handle, host, globalId);
      (db(m).Err? <==> r.Failed?) &&
      (r == IndexOutOfRange <==> db(m).Ok? && db(m).value.results == []) &&
      (r.Failed? ==> r.message == LookupMessage(handle, host, db(m).error)) &&
      (r.Found? ==> r.user == db(m).value.results[0])
  {
    match db(AuthorMatch(handle, host, globalId))
    case Err(e) => Failed(LookupMessage(handle, host, e))
    case Ok(resp) => if |resp.results| == 0 then IndexOutOfRange else Found(resp.results[0])
  }

  /** An unknown user (the database answers with no rows, whatever its result
      type) makes the lookup as written index an empty slice. */
  lemma UnknownAuthorPanics(handle: string, host: string, globalId: int, db: UsersGetter, t: ResultType, msg: string)
    requires db(AuthorMatch(handle, host, globalId)) == Ok(UsersResponse(t, msg, []))
    ensures GetAuthorFromDbAsWritten(handle, host, globalId, db) == IndexOutOfRange
  {
  }

  /** `getAuthorFromDb` with the missing length test: no rows is an error. */
  function GetAuthorFromDb(handle: string, host: string, globalId: int, db: UsersGetter): (r: Result<UsersEntry, string>)
    ensures var m := AuthorMatch(handle, host, globalId);
      (r.Ok? <==> db(m).Ok? && |db(m).value.results| >= 1) &&
      (r.Ok? ==> r.value == db(m).value.results[0])
  {
    match db(AuthorMatch(handle, host, globalId))
    case Err(e) => Err(LookupMessage(handle, host, e))
    case Ok(resp) =>
      if |resp.results| == 0 then Err(LookupMessage(handle, host, "no such user")) else Ok(resp.results[0])
  }

  /** Wherever the lookup as written does not panic, the corrected one agrees with it. */
  lemma GetAuthorFromDbAgrees(handle: string, host: string, globalId: int, db: UsersGetter)
    requires GetAuthorFromDbAsWritten(handle, host, globalId, db) != IndexOutOfRange
    ensures var w := GetAuthorFromDbAsWritten(handle, host, globalId, db);
      && (w.Found? ==> GetAuthorFromDb(handle, host, globalId, db) == Ok(w.user))
      && (w.Failed? ==> GetAuthorFromDb(handle, host, globalId, db) == Err(w.message))
  {
  }

  function ToFeedPost(r: PostsEntry, author: UsersEntry): FeedPost {
    FeedPost(r.globalId, author.handle, r.title, r.body, r.creationDatetime)
  }

  /** The posts of the rows whose author resolves, in row order; no cap. */
  function FeedPosts(rows: seq<PostsEntry>, db: UsersGetter): (r: seq<FeedPost>)
    ensures |r| <= |rows|
  {
    if rows == [] then []
    else
      var last := rows[|rows| - 1];
      FeedPosts(rows[..|rows| - 1], db) +
        (match GetAuthorFromDb("", "", last.authorId, db)
         case Ok(a) => [ToFeedPost(last, a)]
         case Err(_) => [])
  }

  /** `convertDBToFeed`. */
  method ConvertDBToFeed(rows: seq<PostsEntry>, db: UsersGetter) returns (results: seq<FeedPost>)
    ensures results == FeedPosts(rows, db)
  {
    results := [];
    for i := 0 to |rows|
      invariant results == FeedPosts(rows[..i], db)
    {
      var r := rows[i];
      assert rows[..i + 1][..i] == rows[..i];
      var author := GetAuthorFromDb("", "", r.authorId, db);
      if author.Err? {
        continue;
      }
      var np := FeedPost(r.globalId, author.value.handle, r.title, r.body, r.creationDatetime);
      results := results + [np];
    }
    assert rows[..|rows|] == rows;
  }

  /** Every row whose author resolves gives a post, in order, copying the row's
      id, title, body and time and the author's handle; there is no 50-row cap. */
  lemma {:induction false} FeedPostsAllResolve(rows: seq<PostsEntry>, db: UsersGetter)
    requires forall i :: 0 <= i < |rows| ==> GetAuthorFromDb("", "", rows[i].authorId, db).Ok?
    ensures var r := FeedPosts(rows, db);
      |r| == |rows| &&
      forall i :: 0 <= i < |rows| ==>
        r[i].globalId == rows[i].globalId && r[i].title == rows[i].title && r[i].body == rows[i].body &&
        r[i].creationDatetime == rows[i].creationDatetime &&
        r[i].author == GetAuthorFromDb("", "", rows[i].authorId, db).value.handle
  {
    if rows != [] {
      FeedPostsAllResolve(rows[..|rows| - 1], db);
    }
  }

  /** A row whose author does not resolve leaves no trace. */
  lemma FeedPostsSkips(rows: seq<PostsEntry>, r: PostsEntry, db: UsersGetter)
    requires GetAuthorFromDb("", "", r.authorId, db).Err?
    ensures FeedPosts(rows + [r], db) == FeedPosts(rows, db)
  {
    assert (rows + [r])[..|rows|] == rows;
  }

  /** `Get`: every post, converted. */
  method Get(posts: PostsGetter, db: UsersGetter) returns (r: Result<seq<FeedPost>, FeedError>, calls: seq<DbCall>)
    ensures calls == [PostsCall(AllPosts)]
    ensures posts(AllPosts).Err? ==> r == Err(PostsFailed(posts(AllPosts).error))
    ensures posts(AllPosts).Ok? ==> r == Ok(FeedPosts(posts(AllPosts).value.results, db))
  {
    calls := [PostsCall(AllPosts)];
    var resp := posts(AllPosts);
    if resp.Err? {
      return Err(PostsFailed(resp.error)), calls;
    }
    var feed := ConvertDBToFeed(resp.value.results, db);
    return Ok(feed), calls;
  }

  /** `PerUser`: the posts of the user named `username`, converted. */
  method PerUser(username: string, posts: PostsGetter, db: UsersGetter)
    returns (r: Result<seq<FeedPost>, FeedError>, calls: seq<DbCall>)
    ensures username == "" ==> r == Err(UsernameEmpty) && calls == []
    ensures username != "" && GetAuthorFromDb(username, "", 0, db).Err? ==>
      r == Err(AuthorLookupFailed(GetAuthorFromDb(username, "", 0, db).error)) &&
      calls == [UsersCall(AuthorMatch(username, "", 0))]
    ensures username != "" && GetAuthorFromDb(username, "", 0, db).Ok? ==>
      var q := PostsByAuthor(GetAuthorFromDb(username, "", 0, db).value.globalId);
      calls == [UsersCall(AuthorMatch(username, "", 0)), PostsCall(q)] &&
      (posts(q).Err? ==> r == Err(PostsFailed(posts(q).error))) &&
      (posts(q).Ok? ==> r == Ok(FeedPosts(posts(q).value.results, db)))
  {
    if username == "" {
      return Err(UsernameEmpty), [];
    }
    calls := [UsersCall(AuthorMatch(username, "", 0))];
    var author := GetAuthorFromDb(username, "", 0, db);
    if author.Err? {
      return Err(AuthorLookupFailed(author.error)), calls;
    }
    var authorId := author.value.globalId;
    var q := PostsByAuthor(authorId);
    calls := calls + [PostsCall(q)];
    var resp := posts(q);
    if resp.Err? {
      return Err(PostsFailed(resp.error)), calls;
    }
    var feed := ConvertDBToFeed(resp.value.results, db);
    return Ok(feed), calls;
  }
}
