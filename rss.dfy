/** services/rss/rss.go: the RSS service. It publishes a user's posts as an
    RSS 2.0 document and registers an external RSS/Atom feed as a private Rabble
    user whose items become articles. The feed parser, the article service, the
    database and the clock are parameters. */
module Rss {
  import opened Wrappers
  import opened Strings
  import opened Proto
  import Util
  import Sorting

  const RssDeclare: string := "<?xml version=\"1.0\" encoding=\"UTF-8\" ?><rss version=\"2.0\"><channel>"
  const RssDeclareEnd: string := "</channel></rss>"
  const PrivateUserMessage: string := "Can not create RSS feed for private user."
  const InvalidTimestampMessage: string := "Invalid timestamp"
  const MaxRssItems: nat := 10

  /** A `gofeed.Item`: `published` is `PublishedParsed`, `None` when nil. */
  datatype FeedItem = FeedItem(title: string, content: string, description: string,
                               published: Option<Timestamp>)

  /** The `NewArticle` request sent to the article service. */
  datatype NewArticle = NewArticle(authorId: int, title: string, body: string,
                                   creationDatetime: Timestamp, foreign: bool)

  datatype RssResponse = RssResponse(resultType: ResultType, message: string, feed: string)

  datatype NewRssFeedResponse = NewRssFeedResponse(resultType: ResultType, message: string, globalId: int)

  /** The answer of a users INSERT: result, error text and the new row's id. */
  datatype UsersInsertResponse = UsersInsertResponse(resultType: ResultType, error: string, globalId: int)

  // ------------------------------------------------------------ conversions

  /** `convertToProtoTimestamp`: times outside the protobuf range are refused. */
  function ConvertToProtoTimestamp(t: Timestamp): (r: Result<Timestamp, string>)
    ensures r.Ok? <==> ValidTimestamp(t)
    ensures r.Ok? ==> r.value == t
    ensures r.Err? ==> r.error == InvalidTimestampMessage
  {
    if ValidTimestamp(t) then Ok(t) else Err(InvalidTimestampMessage)
  }

  /** `convertFeedItemDatetime`: the item's parsed time, or now when it has none.
      (The `!= &time.Time{}` half of the source's test compares addresses and is
      always true, so only the nil test decides.) */
  function ConvertFeedItemDatetime(item: FeedItem, now: Timestamp): (r: Result<Timestamp, string>)
    ensures item.published.Some? ==> r == ConvertToProtoTimestamp(item.published.value)
    ensures item.published.None? ==> r == ConvertToProtoTimestamp(now)
  {
    var parsed := if item.published.Some? then item.published.value else now;
    ConvertToProtoTimestamp(parsed)
  }

  /** The URL shape `convertRssURLToHandle` needs: a URL starting with "http" must
      contain "//", otherwise the source indexes past the end of the split. */
  predicate HandleableUrl(url: string) {
    HasPrefix(url, "http") ==> |SplitOn(url, "//")| >= 2
  }

  /** `convertRssURLToHandle`: drops the scheme of an http(s) URL and turns every
      '/' into '-'. */
  function ConvertRssURLToHandle(url: string): (r: string)
    requires HandleableUrl(url)
    ensures '/' !in r
    ensures !HasPrefix(url, "http") ==> |r| == |url| && r == ReplaceChar(url, '/', '-')
  {
    var u := if HasPrefix(url, "http") then SplitOn(url, "//")[1] else url;
    ReplaceChar(u, '/', '-')
  }

  /** `sep` occurs in `s` at position `i`. */
  predicate OccursAt(s: string, sep: string, i: int) {
    0 <= i && i + |sep| <= |s| && s[i..i + |sep|] == sep
  }

  /** No window of `s` spells `sep`. */
  predicate NoOccurrence(s: string, sep: string) {
    forall i :: 0 <= i <= |s| ==> !OccursAt(s, sep, i)
  }

  lemma {:induction false} SplitOnNoOccurrence(s: string, sep: string)
    requires |sep| > 0 && NoOccurrence(s, sep)
    ensures SplitOn(s, sep) == [s]
    decreases |s|
  {
    if |s| >= |sep| {
      assert !OccursAt(s, sep, 0);
      assert NoOccurrence(s[1..], sep) by {
        forall i | 0 <= i <= |s[1..]|
          ensures !OccursAt(s[1..], sep, i)
        {
          assert !OccursAt(s, sep, i + 1);
          if i + |sep| <= |s[1..]| {
            assert s[1..][i..i + |sep|] == s[i + 1..i + 1 + |sep|];
          }
        }
      }
      SplitOnNoOccurrence(s[1..], sep);
      assert [s[0]] + s[1..] == s;
    }
  }

  lemma {:induction false} SplitOnConcat(a: string, sep: string, b: string)
    requires |sep| > 0 && sep[0] !in a
    ensures SplitOn(a + sep + b, sep) == [a] + SplitOn(b, sep)
    decreases |a|
  {
    var s := a + sep + b;
    if a == [] {
      assert s == sep + b;
      assert s[..|sep|] == sep;
      assert s[|sep|..] == b;
    } else {
      assert s[..|sep|][0] == a[0];
      assert s[1..] == a[1..] + sep + b;
      SplitOnConcat(a[1..], sep, b);
      assert [a[0]] + a[1..] == a;
    }
  }

  /** An http(s) URL `scheme//rest` gives the handle `rest` with '/' turned into
      '-' (`https://news.ycombinator.com/rss` gives `news.ycombinator.com-rss`). */
  lemma HandleOfHttpUrl(scheme: string, rest: string)
    requires HasPrefix(scheme, "http") && '/' !in scheme
    requires NoOccurrence(rest, "//")
    ensures HandleableUrl(scheme + "//" + rest)
    ensures ConvertRssURLToHandle(scheme + "//" + rest) == ReplaceChar(rest, '/', '-')
  {
    var url := scheme + "//" + rest;
    assert url[..4] == scheme[..4];
    SplitOnConcat(scheme, "//", rest);
    SplitOnNoOccurrence(rest, "//");
  }

  /** The first piece of a split is everything before the first occurrence. */
  lemma {:induction false} SplitOnFirst(mid: string, sep: string, tail: string)
    requires |sep| > 0
    requires forall i :: 0 <= i < |mid| ==> !OccursAt(mid + sep + tail, sep, i)
    ensures SplitOn(mid + sep + tail, sep)[0] == mid
    decreases |mid|
  {
    var s := mid + sep + tail;
    if mid == [] {
      assert s[..|sep|] == sep;
    } else {
      assert !OccursAt(s, sep, 0);
      assert s[1..] == mid[1..] + sep + tail;
      forall i | 0 <= i < |mid[1..]|
        ensures !OccursAt(mid[1..] + sep + tail, sep, i)
      {
        assert !OccursAt(s, sep, i + 1);
        assert s[i + 1..i + 1 + |sep|] == s[1..][i..i + |sep|];
      }
      SplitOnFirst(mid[1..], sep, tail);
      assert [mid[0]] + mid[1..] == mid;
    }
  }

  /** After an http(s) scheme, the handle is taken from the first piece of the rest. */
  lemma HttpSplitSecond(scheme: string, rest: string)
    requires HasPrefix(scheme, "http") && '/' !in scheme
    ensures HandleableUrl(scheme + "//" + rest)
    ensures ConvertRssURLToHandle(scheme + "//" + rest) == ReplaceChar(SplitOn(rest, "//")[0], '/', '-')
  {
    var url := scheme + "//" + rest;
    assert url[..4] == scheme[..4];
    SplitOnConcat(scheme, "//", rest);
  }

  /** An http(s) URL with several "//" gives the handle of the segment between
      the first and the second, with '/' turned into '-'. */
  lemma HandleOfHttpUrlSegment(scheme: string, rest: string, mid: string, tail: string)
    requires HasPrefix(scheme, "http") && '/' !in scheme
    requires rest == mid + "//" + tail
    requires forall i :: 0 <= i < |mid| ==> !OccursAt(rest, "//", i)
    ensures HandleableUrl(scheme + "//" + rest)
    ensures ConvertRssURLToHandle(scheme + "//" + rest) == ReplaceChar(mid, '/', '-')
  {
    HttpSplitSecond(scheme, rest);
    SplitOnFirst(mid, "//", tail);
  }

  // ----------------------------------------------------- feed registration

  /** `sendCreateArticle`'s request; its outcome is only logged. */
  function SendCreateArticle(authorId: int, title: string, content: string, cTime: Timestamp): NewArticle {
    NewArticle(authorId, title, content, cTime, false)
  }

  /** The body of an item: its content, or its description when the content is empty. */
  function ItemBody(item: FeedItem): (r: string)
    ensures item.content != "" ==> r == item.content
    ensures item.content == "" ==> r == item.description
  {
    if item.content == "" then item.description else item.content
  }

  /** The create requests for `items`, in order, skipping items whose time fails
      to convert. */
  function ArticlesFromFeed(items: seq<FeedItem>, authorId: int, now: Timestamp): (r: seq<NewArticle>)
    ensures |r| <= |items|
    ensures forall k :: 0 <= k < |r| ==> r[k].authorId == authorId && !r[k].foreign && ValidTimestamp(r[k].creationDatetime)
  {
    if items == [] then []
    else
      var last := items[|items| - 1];
      var t := ConvertFeedItemDatetime(last, now);
      ArticlesFromFeed(items[..|items| - 1], authorId, now) +
        (if t.Ok? then [SendCreateArticle(authorId, last.title, ItemBody(last), t.value)] else [])
  }

  /** `createArticlesFromFeed`: one create call per item whose time converts;
      failures of the calls themselves are only logged. */
  method CreateArticlesFromFeed(items: seq<FeedItem>, authorId: int, now: Timestamp)
    returns (calls: seq<NewArticle>)
    ensures calls == ArticlesFromFeed(items, authorId, now)
  {
    calls := [];
    for i := 0 to |items|
      invariant calls == ArticlesFromFeed(items[..i], authorId, now)
    {
      var r := items[i];
      assert items[..i + 1][..i] == items[..i];
      var creationTime := ConvertFeedItemDatetime(r, now);
      if creationTime.Err? {
        continue;
      }
      var content := r.content;
      if content == "" {
        content := r.description;
      }
      calls := calls + [SendCreateArticle(authorId, r.title, content, creationTime.value)];
    }
    assert items[..|items|] == items;
  }

  /** When every item's time converts, every item gives its article, in order. */
  lemma {:induction false} ArticlesFromFeedAll(items: seq<FeedItem>, authorId: int, now: Timestamp)
    requires forall k :: 0 <= k < |items| ==> ConvertFeedItemDatetime(items[k], now).Ok?
    ensures var r := ArticlesFromFeed(items, authorId, now);
      |r| == |items| &&
      forall k :: 0 <= k < |items| ==>
        r[k].title == items[k].title && r[k].body == ItemBody(items[k]) &&
        r[k].creationDatetime == ConvertFeedItemDatetime(items[k], now).value
  {
    if items != [] {
      ArticlesFromFeedAll(items[..|items| - 1], authorId, now);
    }
  }

  /** `GetRssFeed`'s error text around the parser's error. */
  function FeedError(url: string, e: string): string {
    "While getting rss feed `" + url + "` got err: " + e
  }

  /** The users row that `NewRssFollow` inserts. */
  function RssUser(url: string): (u: UsersEntry)
    requires HandleableUrl(url)
    ensures u.hostIsNull && IsPrivate(u) && u.rss == url
    ensures u.handle == ConvertRssURLToHandle(url)
    ensures u.bio == "RSS/Atom feed from " + u.handle + " converted to a Rabble user"
  {
    var handle := ConvertRssURLToHandle(url);
    UsersEntry(handle, "", true, 0, "RSS/Atom feed from " + handle + " converted to a Rabble user",
               "", false, Some(true), "", url)
  }

  /** `NewRssFollow`: `parse` stands for the feed parser, `insert` for the users
      INSERT; returns the response, the rows inserted and the articles created. */
  method NewRssFollow(rssUrl: string, parse: string -> Result<seq<FeedItem>, string>,
                      insert: UsersEntry -> Rpc<UsersInsertResponse>, now: Timestamp)
    returns (resp: NewRssFeedResponse, inserted: seq<UsersEntry>, articles: seq<NewArticle>)
    requires parse(rssUrl).Ok? ==> HandleableUrl(rssUrl)
    ensures parse(rssUrl).Err? ==>
      resp.resultType == ERROR && resp.message == FeedError(rssUrl, parse(rssUrl).error) &&
      inserted == [] && articles == []
    ensures parse(rssUrl).Ok? ==> inserted == [RssUser(rssUrl)]
    ensures parse(rssUrl).Ok? && (insert(RssUser(rssUrl)).Err? || insert(RssUser(rssUrl)).value.resultType != OK) ==>
      resp.resultType == ERROR && articles == []
    ensures resp.resultType == OK <==>
      parse(rssUrl).Ok? && insert(RssUser(rssUrl)).Ok? && insert(RssUser(rssUrl)).value.resultType == OK
    ensures resp.resultType == OK ==>
      var id := insert(RssUser(rssUrl)).value.globalId;
      resp.globalId == id && articles == ArticlesFromFeed(parse(rssUrl).value, id, now)
  {
    var feed := parse(rssUrl);
    if feed.Err? {
      return NewRssFeedResponse(ERROR, FeedError(rssUrl, feed.error), 0), [], [];
    }
    var handle := ConvertRssURLToHandle(rssUrl);
    var bio := "RSS/Atom feed from " + handle + " converted to a Rabble user";
    var entry := UsersEntry(handle, "", true, 0, bio, "", false, Some(true), "", rssUrl);
    inserted := [entry];
    var insertResp := insert(entry);
    if insertResp.Err? {
      return NewRssFeedResponse(ERROR, insertResp.error, 0), inserted, [];
    }
    if insertResp.value.resultType != OK {
      return NewRssFeedResponse(ERROR, insertResp.value.error, 0), inserted, [];
    }
    articles := CreateArticlesFromFeed(feed.value, insertResp.value.globalId, now);
    resp := NewRssFeedResponse(OK, "", insertResp.value.globalId);
  }

  // ------------------------------------------------------------ publishing

  /** `link` in `createRssHeader`. */
  function HeaderLink(hostname: string, handle: string): string {
    hostname + "/c2s/@" + handle
  }

  /** `link` in `createRssItem`. */
  function ItemLink(hostname: string, handle: string, globalId: int): string {
    hostname + "/c2s/@" + handle + "/" + FormatInt(globalId)
  }

  /** An item's link extends its channel's link by one path segment, and that
      segment gives back the post id. */
  lemma ItemLinkExtendsHeader(hostname: string, handle: string, globalId: int)
    requires IsInt64(globalId)
    ensures var h := HeaderLink(hostname, handle);
      var l := ItemLink(hostname, handle, globalId);
      HasPrefix(l, h + "/") && ParseInt(l[|h| + 1..]) == Some(globalId)
  {
    var h := HeaderLink(hostname, handle);
    var l := ItemLink(hostname, handle, globalId);
    assert l == (h + "/") + FormatInt(globalId);
    assert l[|h| + 1..] == FormatInt(globalId);
    ParseFormatInt(globalId);
  }

  /** Links of distinct posts of one user differ. */
  lemma ItemLinkInjective(hostname: string, handle: string, a: int, b: int)
    requires IsInt64(a) && IsInt64(b) && ItemLink(hostname, handle, a) == ItemLink(hostname, handle, b)
    ensures a == b
  {
    ItemLinkExtendsHeader(hostname, handle, a);
    ItemLinkExtendsHeader(hostname, handle, b);
  }

  /** `createRssHeader`; `nowText` is the current time in the RFC 822 style layout. */
  function CreateRssHeader(hostname: string, ue: UsersEntry, nowText: string): string {
    "<title>Rabble blog for " + ue.handle + "</title>\n" +
    "<description>" + ue.bio + "</description>\n" +
    "<link>" + HeaderLink(hostname, ue.handle) + "</link>\n" +
    "<pubDate>" + nowText + "</pubDate>\n"
  }

  /** `createRssItem`; `formatTime` renders a post's creation time. */
  function CreateRssItem(hostname: string, ue: UsersEntry, pe: PostsEntry,
                         formatTime: Option<Timestamp> -> string): string {
    "<item>\n" +
    "<title>" + pe.title + "</title>\n" +
    "<link>" + ItemLink(hostname, ue.handle, pe.globalId) + "</link>\n" +
    "<description>" + pe.mdBody + "</description>\n" +
    "<pubDate>" + formatTime(pe.creationDatetime) + "</pubDate>\n" +
    "</item>\n"
  }

  /** The items of `posts`, concatenated in order. */
  function RssItems(hostname: string, ue: UsersEntry, posts: seq<PostsEntry>,
                    formatTime: Option<Timestamp> -> string): string {
    if posts == [] then ""
    else RssItems(hostname, ue, posts[..|posts| - 1], formatTime) +
         CreateRssItem(hostname, ue, posts[|posts| - 1], formatTime)
  }

  /** The sort key: `CreationDatetime.GetSeconds()`, which is 0 for a nil time. */
  function CreationSeconds(p: PostsEntry): int {
    if p.creationDatetime.Some? then p.creationDatetime.value.seconds else 0
  }

  /** The posts a feed shows: stably sorted by ascending creation seconds, then
      the first min(10, n). */
  function ShownPosts(posts: seq<PostsEntry>): (r: seq<PostsEntry>)
    ensures |r| == Util.Min(|posts|, MaxRssItems)
  {
    Sorting.Sort(posts, CreationSeconds)[..Util.Min(|posts|, MaxRssItems)]
  }

  /** The shown posts are the earliest ones: none is created later than a post
      left out, they are in ascending order, and they all come from `posts`. */
  lemma ShownPostsEarliest(posts: seq<PostsEntry>)
    ensures var shown := ShownPosts(posts);
      var sorted := Sorting.Sort(posts, CreationSeconds);
      Sorting.SortedBy(shown, CreationSeconds) &&
      multiset(shown) <= multiset(posts) &&
      forall i, j :: 0 <= i < |shown| <= j < |sorted| ==>
        CreationSeconds(shown[i]) <= CreationSeconds(sorted[j])
  {
    var sorted := Sorting.Sort(posts, CreationSeconds);
    var n := Util.Min(|posts|, MaxRssItems);
    Sorting.SortSorted(posts, CreationSeconds);
    Sorting.SortPermutation(posts, CreationSeconds);
    assert sorted == sorted[..n] + sorted[n..];
  }

  /** With at most ten posts, every post is shown. */
  lemma ShownPostsAll(posts: seq<PostsEntry>)
    requires |posts| <= MaxRssItems
    ensures multiset(ShownPosts(posts)) == multiset(posts)
  {
    Sorting.SortPermutation(posts, CreationSeconds);
    var sorted := Sorting.Sort(posts, CreationSeconds);
    assert sorted[..|posts|] == sorted;
  }

  /** `GetUser`: a users lookup on the id alone. */
  function GetUser(globalId: int, db: UsersGetter): Result<UsersEntry, Util.LookupError> {
    Util.GetAuthorFromDb("", "", false, globalId, db)
  }

  function PostsFindError(authorId: int, message: string): string {
    "ERROR: User id(" + FormatInt(authorId) + ") posts find failed. message: " + message + "\n"
  }

  /** `GetUserPosts`: the author's posts, or the formatted error. */
  function GetUserPosts(authorId: int, posts: PostsGetter): (r: Result<seq<PostsEntry>, string>)
    ensures r.Ok? <==> posts(PostsByAuthor(authorId)).Ok? && posts(PostsByAuthor(authorId)).value.resultType == OK
    ensures r.Ok? ==> r.value == posts(PostsByAuthor(authorId)).value.results
  {
    match posts(PostsByAuthor(authorId))
    case Err(e) => Err(PostsFindError(authorId, e))
    case Ok(resp) =>
      if resp.resultType != OK then Err(PostsFindError(authorId, resp.error)) else Ok(resp.results)
  }

  /** `PerUserRss`: returns the response and the posts queries issued. */
  method PerUserRss(userId: int, hostname: string, db: UsersGetter, posts: PostsGetter,
                    nowText: string, formatTime: Option<Timestamp> -> string)
    returns (rssr: RssResponse, queries: seq<PostsQuery>)
    ensures GetUser(userId, db).Err? ==>
      rssr.resultType == ERROR && rssr.message == Util.LookupErrorText(GetUser(userId, db).error) &&
      queries == []
    ensures GetUser(userId, db).Ok? && IsPrivate(GetUser(userId, db).value) ==>
      rssr.resultType == ERROR_401 && rssr.message == PrivateUserMessage && queries == []
    ensures GetUser(userId, db).Ok? && !IsPrivate(GetUser(userId, db).value) ==>
      var ue := GetUser(userId, db).value;
      var found := GetUserPosts(ue.globalId, posts);
      && queries == [PostsByAuthor(ue.globalId)]
      && (found.Err? ==> rssr.resultType == ERROR && rssr.message == found.error)
      && (found.Ok? ==>
            rssr.resultType == OK &&
            rssr.feed == RssDeclare + CreateRssHeader(hostname, ue, nowText) +
                         RssItems(hostname, ue, ShownPosts(found.value), formatTime) + RssDeclareEnd)
    ensures rssr.resultType == OK <==>
      GetUser(userId, db).Ok? && !IsPrivate(GetUser(userId, db).value) &&
      GetUserPosts(GetUser(userId, db).value.globalId, posts).Ok?
  {
    queries := [];
    var ue := GetUser(userId, db);
    if ue.Err? {
      return RssResponse(ERROR, Util.LookupErrorText(ue.error), ""), queries;
    }
    if ue.value.private.Some? && ue.value.private.value {
      return RssResponse(ERROR_401, PrivateUserMessage, ""), queries;
    }
    queries := [PostsByAuthor(ue.value.globalId)];
    var found := GetUserPosts(ue.value.globalId, posts);
    if found.Err? {
      return RssResponse(ERROR, found.error, ""), queries;
    }
    var rssFeed := RenderFeed(hostname, ue.value, found.value, nowText, formatTime);
    rssr := RssResponse(OK, "", rssFeed);
  }

  /** The success path of `PerUserRss`: header, the shown posts sorted in place
      and rendered one by one, closing tags. */
  method RenderFeed(hostname: string, ue: UsersEntry, posts: seq<PostsEntry>, nowText: string,
                    formatTime: Option<Timestamp> -> string) returns (rssFeed: string)
    ensures rssFeed == RssDeclare + CreateRssHeader(hostname, ue, nowText) +
                       RssItems(hostname, ue, ShownPosts(posts), formatTime) + RssDeclareEnd
  {
    var topTen := TopTen(posts);
    var items := "";
    for i := 0 to |topTen|
      invariant items == RssItems(hostname, ue, topTen[..i], formatTime)
    {
      assert topTen[..i + 1][..i] == topTen[..i];
      items := items + CreateRssItem(hostname, ue, topTen[i], formatTime);
    }
    assert topTen[..|topTen|] == topTen;
    rssFeed := RssDeclare + CreateRssHeader(hostname, ue, nowText) + items + RssDeclareEnd;
  }

  /** Sorts a copy of `posts` in place by creation seconds and keeps the first
      min(10, n). */
  method TopTen(posts: seq<PostsEntry>) returns (topTen: seq<PostsEntry>)
    ensures topTen == ShownPosts(posts)
  {
    var ps := new PostsEntry[|posts|](i requires 0 <= i < |posts| => posts[i]);
    assert ps[..] == posts;
    Sorting.SortByKey(ps, CreationSeconds);
    var n := 10;
    if ps.Length < 10 {
      n := ps.Length;
    }
    topTen := ps[..n];
  }
}
