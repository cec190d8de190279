/** chump/src/models/posts.ts: the web client's access to the posts API. The
    URL builders, the handling of a response (an error rejects, a null body is
    no posts), and `SortPosts`, which parses every post's date and sorts the
    array in place, newest first. */
module PostsClient {
  import opened Wrappers
  import opened Sorting

  /** `IBlogPost`. `parsedDate` is the millisecond time of `parsed_date`. */
  datatype BlogPost = BlogPost(globalId: int, author: string, title: string, body: string,
                               likesCount: int, published: string, parsedDate: int)

  const FeedApiUrl := "/c2s/feed"
  const PerUserApiUrl := "/c2s/@"

  /** `GetPublicPosts(username = "")`: the public feed, or one user's feed. */
  function GetPublicPostsUrl(username: string): (url: string)
    ensures username == "" ==> url == FeedApiUrl
    ensures username != "" ==> url == FeedApiUrl + "/" + username
  {
    if username == "" then FeedApiUrl else FeedApiUrl + "/" + username
  }

  /** `GetUsersPosts(username)`, with `encodeURIComponent` as `encode`. */
  function GetUsersPostsUrl(username: string, encode: string -> string): (url: string)
    ensures url == PerUserApiUrl + encode(username)
  {
    PerUserApiUrl + encode(username)
  }

  /** `GetSinglePost(username, id)`: one of the user's posts. */
  function GetSinglePostUrl(username: string, id: string, encode: string -> string): (url: string)
    ensures url == GetUsersPostsUrl(username, encode) + "/" + id
  {
    PerUserApiUrl + encode(username) + "/" + id
  }

  /** The URLs the client's tests pin, for a name that encoding leaves alone. */
  lemma PinnedUrls(encode: string -> string)
    requires encode("username") == "username"
    ensures GetPublicPostsUrl("") == "/c2s/feed"
    ensures GetPublicPostsUrl("username") == "/c2s/feed/username"
    ensures GetSinglePostUrl("username", "id", encode) == "/c2s/@username/id"
    ensures GetUsersPostsUrl("username", encode) == "/c2s/@username"
  {
  }

  /** The sort key: a later date sorts first. */
  function NewestFirst(p: BlogPost): int {
    -p.parsedDate
  }

  /** The posts with `parsed_date` set from `published` (`new Date(e.published)`,
      abstract here as `parse`). */
  function WithParsedDates(s: seq<BlogPost>, parse: string -> int): (r: seq<BlogPost>)
    ensures |r| == |s|
    ensures forall i :: 0 <= i < |s| ==> r[i] == s[i].(parsedDate := parse(s[i].published))
  {
    if s == [] then [] else WithParsedDates(s[..|s| - 1], parse) + [s[|s| - 1].(parsedDate := parse(s[|s| - 1].published))]
  }

  /** `SortPosts`: parses every date, then sorts in place, newest first (the
      comparator `m - n` on the times; the sort is stable). */
  method SortPosts(b: array<BlogPost>, parse: string -> int)
    modifies b
    ensures b[..] == Sort(WithParsedDates(old(b[..]), parse), NewestFirst)
  {
    ghost var s := b[..];
    for i := 0 to b.Length
      invariant b[..i] == WithParsedDates(s[..i], parse)
      invariant b[i..] == s[i..]
    {
      assert s[..i + 1][..i] == s[..i];
      assert b[i] == s[i];
      b[i] := b[i].(parsedDate := parse(b[i].published));
    }
    assert b[..] == b[..b.Length];
    assert s[..b.Length] == s;
    SortByKey(b, NewestFirst);
  }

  /** After `SortPosts` every date is parsed from its post's `published`, the
      posts are newest first, they are a permutation of the parsed input, and
      posts of equal date keep their order. */
  lemma SortPostsNewestFirst(s: seq<BlogPost>, parse: string -> int, k: int)
    ensures var r := Sort(WithParsedDates(s, parse), NewestFirst);
      && (forall i :: 0 <= i < |r| ==> r[i].parsedDate == parse(r[i].published))
      && (forall i, j :: 0 <= i < j < |r| ==> r[i].parsedDate >= r[j].parsedDate)
      && multiset(r) == multiset(WithParsedDates(s, parse))
      && WithKey(r, NewestFirst, k) == WithKey(WithParsedDates(s, parse), NewestFirst, k)
  {
    var p := WithParsedDates(s, parse);
    var r := Sort(p, NewestFirst);
    SortSorted(p, NewestFirst);
    SortPermutation(p, NewestFirst);
    SortStable(p, NewestFirst, k);
    forall i | 0 <= i < |r|
      ensures r[i].parsedDate == parse(r[i].published)
    {
      assert r[i] in multiset(p);
      var j :| 0 <= j < |p| && p[j] == r[i];
    }
  }

  /** What the HTTP request comes back with: a transport error, or a body
      that may be JSON `null`. */
  datatype ApiResponse = TransportError(message: string) | Body(posts: Option<seq<BlogPost>>)

  /** `PostsAPIPromise` as a value: rejected on an error, otherwise resolved with
      the body's posts (none for a null body), sorted. */
  function PostsApiResult(res: ApiResponse, parse: string -> int): (r: Result<seq<BlogPost>, string>)
    ensures res.TransportError? ==> r == Err(res.message)
    ensures res == Body(None) ==> r == Ok([])
  {
    match res
    case TransportError(e) => Err(e)
    case Body(None) => Ok([])
    case Body(Some(posts)) => Ok(Sort(WithParsedDates(posts, parse), NewestFirst))
  }

  /** `PostsAPIPromise(url)` once the request has come back. */
  method PostsApi(res: ApiResponse, parse: string -> int) returns (r: Result<seq<BlogPost>, string>)
    ensures r == PostsApiResult(res, parse)
  {
    if res.TransportError? {
      return Err(res.message);
    }
    var posts := if res.posts.Some? then res.posts.value else [];
    var b := new BlogPost[|posts|](i requires 0 <= i < |posts| => posts[i]);
    assert b[..] == posts;
    SortPosts(b, parse);
    r := Ok(b[..]);
  }
}
