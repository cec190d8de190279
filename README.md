# Rabble core, modelled in Dafny

Rabble is a federated blogging platform. The Go and Python services each keep their own
part of the state, and talk to one database service and to one another over gRPC. Other
ActivityPub servers reach it through an HTTP gateway (`skinny`), and a React client
(`chump`) reads posts through that gateway. This project models the decision and
transformation code between those calls, and proves what that code promises.

- **View assembly** (`services/utils/util.go`, `services/feed/main.go`) covers four
  things. Usernames are parsed as `handle@host` and hosts are normalised. Tag strings
  are split. A single user is looked up with no, one or several results. Post, share
  and user rows become view objects: at most 50 are looked at, order is kept, and rows
  whose author cannot be found are skipped.
- **Search** (`services/search/bleve/search.go`) is a `Server` class. It holds the set
  of ids whose decimal text the text engine has indexed, plus the `idToDoc` map that is updated
  with it. An id that is already there is refused. Hits are mapped back through the
  map, and unparseable or unknown ids are skipped.
- **RSS** (`services/rss/rss.go`) turns a feed URL into a user handle. It creates one
  article per feed item, refuses feeds of private users, and renders the RSS 2.0
  document from the posts sorted stably by creation time. Ten posts are kept. They are
  the earliest ten, although the comment at rss.go:203 says the most recent.
- **WebFinger** (`skinny/webfinger.go`) builds the subject (an `acct:` URI as in
  RFC 7565) and the four links of a resource (section 4.4 of RFC 7033). Lookups for
  hosts the server does not serve are refused.
- **The posts table servicer** (`services/database/posts_servicer.py`) runs the
  query-by-example clause builder and dispatches on the request type. Its handlers fill
  a response object in place. Rows of the wrong shape are dropped when decoding.
- **The post recommender** (`services/recommend_posts/cosine_recommender.py`) keeps
  tag counters, user models and like lists. Its top-n selection excludes liked posts,
  the dummy post 0 and the user's own posts. Scores are an abstract integer.
- **Follows** (`services/follows`) decides whether a follow is PENDING or ACTIVE. It
  rolls a follow back when delivery to a foreign server fails, and it accepts follows
  and unfollows that arrive from other servers.
- **Activity servicers** (`services/activities`, `services/article/new_article_servicer.py`)
  send and receive the activities of section 7 of the W3C ActivityPub Recommendation:
  Follow, Announce (share), Update, Delete, Undo of a Like, and creating an article.
  They are guard chains over lookups. Only the author may edit or delete, and no one
  may share their own post.
- **The client posts model** (`chump/src/models/posts.ts`) builds the API URLs. A null
  body becomes no posts, and the posts are sorted in place, newest first.

The database, the users and posts utilities, activity delivery, markdown conversion,
the feed parser, the search engine and the clock are oracles. They are function-typed
parameters, or fields of an `Env` datatype. Each servicer returns its response together
with the log of the collaborator calls it made, in order. Properties such as "nothing
is stored unless the requester is the author" are stated over that log.

Files are modules. `wrappers.dfy` holds Option and Result. `strings.dfy` holds the
string and integer primitives of Go's `strings`/`strconv` and Python `str`. `proto.dfy`
holds the shared protocol-buffer records. `sorting.dfy` is the stable sort that both
the RSS service and the client use. `services.dfy` is the `GeneralResponse` message
object of the Python servicers. Every other file models one source file, or one
directory of closely related source files.

## Model

| member | source | states |
|---|---|---|
| Strings.TrimPrefix | services/utils/util.go:64-65 | removes one leading copy of the prefix when present, otherwise returns the input unchanged |
| Strings.TrimLeftChar | services/utils/util.go:47 | the result is a suffix of the input, everything removed is the trimmed character, and the result does not start with it |
| Strings.Split | services/utils/util.go:48 | there is at least one piece, and no piece contains the separator |
| Strings.JoinSplit | services/utils/util.go:48 | joining the pieces of a split with the same separator gives back the input |
| Strings.SplitLength | services/utils/util.go:48-59 | a split has one more piece than the input has separators |
| Strings.SplitNoSeparator | services/utils/util.go:50-56 | a string without the separator splits into itself alone |
| Strings.SplitOn | services/rss/rss.go:74 | splitting on a multi-character separator yields at least one piece |
| Strings.ReplaceChar | services/rss/rss.go:76 | same length as the input; every occurrence of the character is replaced and every other character kept |
| Strings.ReplaceAllAbsent | services/utils/util.go:127 | a piece without '%' is left unchanged by the replacement |
| Strings.FormatNat | services/activities/undo/send_undo_servicer.py:29-30 | the decimal text of a natural number is a non-empty string of digits |
| Strings.FormatInt | services/search/bleve/search.go:86 | the decimal text of an integer is non-empty |
| Strings.ParseInt | services/search/bleve/search.go:143-147 | a successful parse gives a 64-bit integer |
| Strings.ParseFormatInt | services/search/bleve/search.go:86-91 | parsing the decimal text of any 64-bit integer gives it back |
| Strings.FormatIntInjective | services/rss/rss.go:121 | two 64-bit integers with the same decimal text are equal |
| Sorting.Sort | services/rss/rss.go:204-206 | the specification of the stable sort keeps the length of its input |
| Sorting.SortSorted | services/rss/rss.go:204-206 | the sorted sequence is in ascending key order |
| Sorting.SortPermutation | services/rss/rss.go:204-206 | the sorted sequence is a permutation of the input |
| Sorting.SortStable | services/rss/rss.go:204-206 | elements with equal keys keep their relative order |
| Sorting.SortPrefixFirst | services/rss/rss.go:207-211 | every element of a prefix of the sorted sequence has a key no greater than any element after it |
| Sorting.SortByKey | chump/src/models/posts.ts:24-26 | the in-place sort leaves the array equal to the specification sort of its old contents |
| Sorting.InsertStep | chump/src/models/posts.ts:24-26 | one step of the in-place sort places the element after the earlier ones whose key is not greater, exactly as `Insert` does, and leaves the rest of the array alone |
| Util.ParseUsername | services/utils/util.go:40-72 | a success has a non-empty handle with no '@' and a host with no '@'; any failure carries "Couldn't parse username " and the input with its leading '@'s trimmed |
| Util.ParseFormatUsername | services/utils/util.go:35-72 | a canonical `handle@host` or bare `handle` parses back to the same pair, for every handle and every scheme-free host |
| Util.ParseUsernameLeadingAt | services/utils/util.go:47-48 | leading '@' characters never change the outcome |
| Util.ParseUsernameTooManyAts | services/utils/util.go:47-61 | two or more '@'s after the leading ones are an error |
| Util.ParseUsernameEmpty | services/utils/util.go:50-53 | an input made only of '@'s, or the empty input, is an error |
| Util.ParseUsernameScheme | services/utils/util.go:63-71 | a host written with "http://" or "https://" comes back without it |
| Util.NormaliseHost | services/utils/util.go:97-108 | "" maps to ""; a host that already has a scheme is unchanged; otherwise "http://" is added exactly when the host has no '.', and "https://" when it has one |
| Util.NormaliseHostIdempotent | services/utils/util.go:97-108 | normalising twice equals normalising once |
| Util.CleanTags | services/utils/util.go:124-129 | no kept tag is empty, and no more tags come out than pieces went in |
| Util.SplitTags | services/utils/util.go:121-131 | the loop returns exactly the kept, unescaped pieces in order, and none of them is empty |
| Util.SplitTagsJoin | services/utils/util.go:121-131 | tags joined with '\|' split back into the same list, for non-empty tags without '\|' or '%' |
| Util.UserFind | services/utils/util.go:165-177 | succeeds exactly when the call succeeds with an OK result, and then returns the results unchanged |
| Util.UserFindOne | services/utils/util.go:150-163 | succeeds exactly with one result, which it returns; no results is `UserNotFound`; several results are another error |
| Util.GetAuthorFromDb | services/utils/util.go:137-148 | on a match of exactly the given handle, host, host-is-null flag and id: Ok exactly when the FIND answers OK with one row, which it returns; `UserNotFound` exactly when it answers OK with no rows |
| Util.ConvertPbTimestamp | services/utils/util.go:111-118 | a valid timestamp is formatted; a nil or out-of-range one falls back to the current time |
| Util.FeedPosts | services/utils/util.go:181-219 | the view list is never longer than its rows |
| Util.ResolvedRows | services/utils/util.go:188-192 | every kept row comes from the input and has an author that resolves |
| Util.FeedPostsAreResolvedRows | services/utils/util.go:181-219 | the views are exactly the resolvable rows, in order, each built from its own author |
| Util.FeedPostsAllResolve | services/utils/util.go:181-219 | when every author resolves, every row yields its view, in order |
| Util.FeedPostsFields | services/utils/util.go:193-214 | every view has the placeholder image and copies the row's id, title, body and author fields from the looked-up user |
| Util.ConvertDBToFeed | services/utils/util.go:181-219 | the loop returns the views of the resolvable rows among the first min(n, 50), so at most 50; a skipped row still uses a slot |
| Util.ConvertDBToFeedAllResolve | services/utils/util.go:181-219 | with every author resolving, exactly min(n, 50) views come back, the i-th built from the i-th row |
| Util.SharePosts | services/utils/util.go:222-269 | the share views are never more than the rows |
| Util.ResolvedShares | services/utils/util.go:229-240 | every kept share row comes from the input and has both its author and its sharer resolving |
| Util.SharePostsAreResolvedShares | services/utils/util.go:222-269 | a share row is kept exactly when both its users resolve; order is kept and `AuthorId` comes from the author entry |
| Util.ConvertShareToFeed | services/utils/util.go:222-269 | the loop returns the share views of the first min(n, 50) rows, so at most 50 |
| Util.ConvertDBToUsers | services/utils/util.go:285-296 | returns min(n, 50) users, the i-th being the stripped i-th row |
| Feed.GetAuthorFromDbAsWritten | services/feed/main.go:41-57 | a transport error becomes the formatted error, no rows is an index panic, and otherwise the first row is returned |
| Feed.UnknownAuthorPanics | services/feed/main.go:51-56 | a lookup answered with no rows, whatever its result type, panics as written |
| Feed.GetAuthorFromDb | services/feed/main.go:41-57 | the corrected lookup returns the first row when there is one, and an error otherwise |
| Feed.GetAuthorFromDbAgrees | services/feed/main.go:41-57 | wherever the lookup as written does not panic, the corrected one gives the same answer |
| Feed.FeedPosts | services/feed/main.go:19-39 | the post list is never longer than its rows |
| Feed.ConvertDBToFeed | services/feed/main.go:19-39 | the loop returns, uncapped, the rows whose author resolves, in order |
| Feed.FeedPostsAllResolve | services/feed/main.go:28-36 | when every author resolves, each row gives a post copying its id, title, body and time, with the author's handle |
| Feed.FeedPostsSkips | services/feed/main.go:23-27 | a row whose author does not resolve leaves no trace |
| Feed.Get | services/feed/main.go:63-77 | one posts FIND of everything; a transport error is an error, and otherwise the converted posts come back |
| Feed.PerUser | services/feed/main.go:79-103 | an empty username fails with no call; a failed author lookup fails with one lookup; otherwise the author's posts, found by the author's id, are converted |
| Search.Resolve | services/search/bleve/search.go:142-156 | never more docs than hits, and every doc is one stored in the map |
| Search.AddAllKeys | services/search/bleve/search.go:109-114 | adding a feed adds exactly the feed's ids to the map's keys |
| Search.FreshIdsMeaning | services/search/bleve/search.go:81-114 | adding a feed meets no duplicate exactly when its ids are pairwise distinct and new to the map |
| Search.Server.constructor | services/search/bleve/search.go:62-78 | a new server has an empty `idToDoc` and an empty engine |
| Search.Server.AddToIndex | services/search/bleve/search.go:80-94 | an id already present gives "document already exists with that id"; an engine error is returned; either failure changes nothing; success adds exactly that id and doc |
| Search.Server.InitIndex | services/search/bleve/search.go:96-117 | a failed posts fetch is fatal with no change; otherwise it is fatal exactly when a converted post is a duplicate or the engine refuses one, and success adds every converted post |
| Search.Server.AddEach | services/search/bleve/search.go:109-114 | the loop succeeds exactly when the ids are fresh and the engine accepts every post; then the map gains the feed's posts and the engine set the feed's ids |
| Search.Server.Search | services/search/bleve/search.go:128-158 | an engine error is returned; otherwise the map entries of the parseable, present hits come back in hit order, at most 50 |
| Search.Server.Index | services/search/bleve/search.go:160-181 | a row that does not convert to exactly one post is a Go error with no change; a refused add is an ERROR response carrying the duplicate message or the engine's error, with no change; success is the zero response, and the post is added to the map and its id to the engine |
| Search.IndexConverts | services/search/bleve/search.go:165-169 | the one-row conversion yields a post exactly when the row's author resolves |
| Search.ResolveSkipsUnknown | services/search/bleve/search.go:143-153 | a hit that does not parse, or names an absent id, never contributes |
| Search.ResolveIndexed | services/search/bleve/search.go:142-156 | hits that parse to the ids of stored docs come back as exactly those docs, in order |
| Search.ResolveReturnsIndexed | services/search/bleve/search.go:86-155 | in a valid server, every doc a search returns was indexed under its own id |
| Rss.ConvertToProtoTimestamp | services/rss/rss.go:61-68 | succeeds exactly for timestamps in the protobuf range, which are returned unchanged; otherwise the error is "Invalid timestamp" |
| Rss.ConvertFeedItemDatetime | services/rss/rss.go:50-59 | converts the item's parsed publish time when it has one, and the current time otherwise |
| Rss.ConvertRssURLToHandle | services/rss/rss.go:70-77 | the handle contains no '/', and a URL without an http prefix is itself with every '/' replaced by '-' |
| Rss.SplitOnConcat | services/rss/rss.go:74 | splitting `a + sep + b` on `sep`, where `a` lacks the first character of `sep`, gives `a` and then the pieces of `b` |
| Rss.HandleOfHttpUrl | services/rss/rss.go:70-77 | `scheme//rest`, with no further "//", gives `rest` with every '/' turned into '-', e.g. `news.ycombinator.com-rss` |
| Rss.SplitOnFirst | services/rss/rss.go:74 | the first piece of a split is everything before the first occurrence of the separator |
| Rss.HttpSplitSecond | services/rss/rss.go:70-77 | after an http(s) scheme and "//", the handle is the first "//"-piece of the rest with '/' turned into '-' |
| Rss.HandleOfHttpUrlSegment | services/rss/rss.go:70-77 | `scheme//mid//tail`, with `mid` before the second "//", gives `mid` with every '/' turned into '-' |
| Rss.ItemBody | services/rss/rss.go:103-106 | the body is the content, or the description when the content is empty |
| Rss.ArticlesFromFeed | services/rss/rss.go:96-109 | at most one article per item, each by the given author, not foreign, and with a valid time |
| Rss.CreateArticlesFromFeed | services/rss/rss.go:96-109 | the loop issues exactly the specified create requests, in order; a failed create changes nothing |
| Rss.ArticlesFromFeedAll | services/rss/rss.go:96-109 | when every item's time converts, item k gives article k with the item's title and body |
| Rss.RssUser | services/rss/rss.go:239-251 | the inserted user has the URL's handle, the URL as `rss`, a null host, private set, and the bio "RSS/Atom feed from <handle> converted to a Rabble user" |
| Rss.NewRssFollow | services/rss/rss.go:226-275 | a parse failure is an ERROR carrying the feed error, with no insert, for any URL; an insert failure is an ERROR with no articles; OK exactly when both succeed, and then the new id is returned and the feed's articles are created under it |
| Rss.ItemLinkExtendsHeader | services/rss/rss.go:111-121 | an item's link is its channel's link plus "/" and the decimal id |
| Rss.ItemLinkInjective | services/rss/rss.go:121 | two posts of one user with the same link have the same id |
| Rss.ShownPosts | services/rss/rss.go:203-211 | a feed shows min(n, 10) posts |
| Rss.ShownPostsEarliest | services/rss/rss.go:203-211 | the shown posts are in ascending time, and none is later than a post left out |
| Rss.ShownPostsAll | services/rss/rss.go:207-211 | with at most ten posts, every post is shown |
| Rss.GetUserPosts | services/rss/rss.go:143-158 | succeeds exactly when the find succeeds with OK, and then returns its rows |
| Rss.PerUserRss | services/rss/rss.go:170-224 | a failed lookup is an ERROR with its text; a private user gets ERROR_401 with no posts query; a failed posts query is an ERROR; otherwise OK with declaration, header, shown items and closing tag |
| Rss.RenderFeed | services/rss/rss.go:199-221 | the feed text is the declaration, the header, the items of the shown posts in order, and the closing tag |
| Rss.TopTen | services/rss/rss.go:203-211 | sorting a copy in place and taking the first min(n, 10) gives the shown posts |
| Webfinger.GetStrippedHost | skinny/webfinger.go:15-24 | returns the prefix before the first ':', or the whole string when there is none |
| Webfinger.SplitPrefix | skinny/webfinger.go:17-23 | the first piece of a split is a prefix of the input, followed by the separator or the end |
| Webfinger.SubjectParses | skinny/webfinger.go:42-44 | the subject is `acct:` followed by a username that parses back to the handle and the hostname |
| Webfinger.LinkBase | skinny/webfinger.go:51-56 | a hostname without '.' gives "http" and the debug host; otherwise "https" and the hostname |
| Webfinger.GenLinks | skinny/webfinger.go:46-83 | exactly four links: profile page (text/html), self (activity+json), feed and alternative (rss+xml, same href) |
| Webfinger.GenLinksHrefs | skinny/webfinger.go:59-68 | the profile href is `proto://host/#/@handle` and the self href is `proto://host/ap/@handle` |
| Webfinger.FindUser | skinny/webfinger.go:86-107 | an unserved host is `UserNotFound` with no lookup; otherwise there is one local lookup (no host, host-is-null, id 0), and success builds the subject and links of the user found |
| Webfinger.FindUserSubject | skinny/webfinger.go:96-105 | a found user whose handle is the one looked up gets that handle in its subject |
| Webfinger.DummyUser | skinny/webfinger.go:113-115 | never returns a user, only `UserNotFound` |
| Webfinger.NotFoundErrors | skinny/webfinger.go:91-120 | a refused host and the dummy user both read as "not found"; a failed lookup reads so exactly when the database found no such user |
| PostsDb.ListFields | services/database/posts_servicer.py:63 | no set field's name contains '?' |
| PostsDb.FilterList | services/database/posts_servicer.py:64 | one `name = ?` item per set field, in the same order |
| PostsDb.FieldValues | services/database/posts_servicer.py:66 | one value per set field, in the same order |
| PostsDb.EntryToFilter | services/database/posts_servicer.py:62-66 | as many values as set fields, at most five |
| PostsDb.EntryToFilterPlaceholders | services/database/posts_servicer.py:62-66 | the clause has as many '?' as there are values, and it is empty exactly when no field is set |
| PostsDb.EmptyMatchIsWholeTable | services/database/posts_servicer.py:68-94 | an empty match gives no clause, so find selects every row and delete removes every row |
| PostsDb.TupleToEntry | services/database/posts_servicer.py:42-60 | a row not of five columns is refused, and an accepted row is the stored form of the entry returned |
| PostsDb.TupleToEntryRoundTrip | services/database/posts_servicer.py:27-60 | decoding the row an entry is stored as gives the entry back |
| PostsDb.DecodeRows | services/database/posts_servicer.py:82-84 | never more entries than rows |
| PostsDb.DecodeRowsSkipsBadArity | services/database/posts_servicer.py:43-84 | a row of the wrong arity never reaches the response |
| PostsDb.DecodeRowsAll | services/database/posts_servicer.py:82-84 | when every row decodes, each is kept, in query order |
| PostsDb.PostsResponse.constructor | services/database/posts_servicer.py:23 | a fresh response is OK with no error and no results |
| PostsDb.PostsDatabaseServicer.constructor | services/database/posts_servicer.py:12-20 | the servicer keeps its database |
| PostsDb.PostsDatabaseServicer.Posts | services/database/posts_servicer.py:15-25 | the request type selects exactly one handler, whose outcome the fresh response holds |
| PostsDb.PostsDatabaseServicer.HandleInsert | services/database/posts_servicer.py:27-40 | the five columns are bound in order; a database error gives ERROR and its text, otherwise OK |
| PostsDb.PostsDatabaseServicer.HandleFind | services/database/posts_servicer.py:68-84 | a database error gives ERROR and its text with no results; otherwise OK and the decodable rows in order |
| PostsDb.PostsDatabaseServicer.DecodeInto | services/database/posts_servicer.py:82-84 | appending a result per row and dropping it when the row does not decode leaves exactly the decodable rows, in order, with the response still OK |
| PostsDb.PostsDatabaseServicer.HandleDelete | services/database/posts_servicer.py:86-99 | runs the delete for the clause; ERROR and its text on a database error, otherwise OK |
| PostsDb.PostsDatabaseServicer.HandleUpdate | services/database/posts_servicer.py:101-102 | leaves the response untouched |
| Recommender.Inc | services/recommend_posts/cosine_recommender.py:49 | one increment adds one to that tag's count, whether or not it was present |
| Recommender.AddCountsOcc | services/recommend_posts/cosine_recommender.py:48-49 | each tag's count grows by its number of occurrences, and only the counted tags gain keys |
| Recommender.AddCountsGrows | services/recommend_posts/cosine_recommender.py:173-174 | counts never decrease |
| Recommender.AddCountsPositive | services/recommend_posts/cosine_recommender.py:23-24 | a counter that only increments keeps every key at one or more |
| Recommender.PyInt | services/recommend_posts/cosine_recommender.py:72 | `int(x)` never succeeds on the empty string |
| Recommender.ParseLikes | services/recommend_posts/cosine_recommender.py:72 | no more ids come out than pieces went in |
| Recommender.FormatLikes | services/recommend_posts/cosine_recommender.py:71 | the GROUP_CONCAT text of the ids is their decimal texts, in order |
| Recommender.CleanLikesJoin | services/recommend_posts/cosine_recommender.py:70-72 | a comma-joined list of post ids parses back to the same ids |
| Recommender.ParseLikesFormat | services/recommend_posts/cosine_recommender.py:72 | the pieces of the decimal texts of non-negative ids parse back to those ids |
| Recommender.ParseLikesFails | services/recommend_posts/cosine_recommender.py:72 | one non-empty piece that is not an integer makes the whole list raise |
| Recommender.HeapStepTopN | services/recommend_posts/cosine_recommender.py:131-134 | one heap push (or push-pop once full) with a new post keeps the n largest tuples seen |
| Recommender.InsertDescSorted | services/recommend_posts/cosine_recommender.py:137 | inserting a new tuple into a descending list keeps it descending and adds exactly that tuple |
| Recommender.TopNRecommended | services/recommend_posts/cosine_recommender.py:126-137 | the top n of the tuples of every eligible post are a recommendation: descending, at most n, each eligible with its true score, and none beaten by a left-out post |
| Recommender.RecommendedUnique | services/recommend_posts/cosine_recommender.py:126-137 | the recommendation does not depend on the order in which the posts dict is visited |
| Recommender.SortedDescUnique | services/recommend_posts/cosine_recommender.py:137 | two descending lists with the same members are equal, so the order of `sorted(sims, reverse=True)` is determined |
| Recommender.Articles | services/recommend_posts/cosine_recommender.py:139-142 | one fetched article per ranked post, in rank order |
| Recommender.SelectTop | services/recommend_posts/cosine_recommender.py:125-137 | the loop leaves a recommendation: no liked post, no post 0, no post by the user, at most n, in descending (score, id) order |
| Recommender.FetchArticles | services/recommend_posts/cosine_recommender.py:139-143 | the loop fetches exactly the ranked posts' articles, in order |
| Recommender.PostsOfLatest | services/recommend_posts/cosine_recommender.py:44-54 | each row id is a key holding the author and tags of the last row with that id |
| Recommender.PostsOfKeys | services/recommend_posts/cosine_recommender.py:44-54 | the posts dict has exactly the row ids as keys |
| Recommender.UsersOfLocal | services/recommend_posts/cosine_recommender.py:56-68 | exactly the users with a null host are kept |
| Recommender.UsersOfFails | services/recommend_posts/cosine_recommender.py:60-61 | a like list that does not parse, local or foreign, makes the whole load raise |
| Recommender.LikedTagsDummy | services/recommend_posts/cosine_recommender.py:45-80 | dummy posts inserted by a dict read have no tags, so they change no liked tags |
| Recommender.FlatLikedSum | services/recommend_posts/cosine_recommender.py:78-82 | `user_tag_freq[t]` grows by the sum over users of their model's count of t |
| Recommender.WithModelAppend | services/recommend_posts/cosine_recommender.py:79-82 | adding one user's tags in two steps gives the same model as adding them at once |
| Recommender.CosineRecommender.constructor | services/recommend_posts/cosine_recommender.py:23-24 | the recommender starts with empty counters and dicts |
| Recommender.CosineRecommender.Init | services/recommend_posts/cosine_recommender.py:17-35 | the post tag counts are every row's tags; the load raises exactly when a like list does not parse; otherwise the users are the local ones, each user model counts the tags of that user's likes, every liked id is a key of the posts (dummies added), and `user_tag_freq` is the total of the liked tags over the users in some visiting order |
| Recommender.CosineRecommender.CleanPostEntries | services/recommend_posts/cosine_recommender.py:44-54 | returns the posts dict and adds every tag occurrence to `post_tag_freq` |
| Recommender.CosineRecommender.CountPostTags | services/recommend_posts/cosine_recommender.py:48-49 | `post_tag_freq[t]` gains the number of occurrences of t among one post's tags, and no other counter changes |
| Recommender.CosineRecommender.CleanUserEntries | services/recommend_posts/cosine_recommender.py:56-68 | returns the local users and their parsed likes, or signals the raise |
| Recommender.CosineRecommender.AddLikedPost | services/recommend_posts/cosine_recommender.py:79-82 | one liked post adds its tags to the counter and to the model, inserting a dummy post when it is missing |
| Recommender.CosineRecommender.AddUserLikes | services/recommend_posts/cosine_recommender.py:79-82 | one user's likes add their tags, in like order, to the counter and to that user's model |
| Recommender.CosineRecommender.CreateUserModels | services/recommend_posts/cosine_recommender.py:74-83 | `user_models[u][t]` is the number of occurrences of t across u's liked posts, and `user_tag_freq[t]` gains the total over users |
| Recommender.CosineRecommender.GetRecommendations | services/recommend_posts/cosine_recommender.py:117-143 | an empty user model returns nothing; otherwise the ranked list is a recommendation and the entries are its articles, in order |
| Recommender.CosineRecommender.UpdateModel | services/recommend_posts/cosine_recommender.py:145-163 | an already-liked article changes nothing; otherwise it raises exactly when the article is missing, and else the article is appended to the likes once and each of its tags adds one to the counter and to the model |
| Recommender.CosineRecommender.CountUserTags | services/recommend_posts/cosine_recommender.py:157-159 | each tag adds one to `user_tag_freq` and to the user's model |
| Recommender.CosineRecommender.AddPost | services/recommend_posts/cosine_recommender.py:165-178 | the post's entry is replaced and its tags are added to `post_tag_freq`, even on re-add, so no count decreases |
| Services.Response.constructor | services/follows/send_follow.py:66 | a fresh response is OK with an empty error |
| Services.Response.Set | services/follows/send_follow.py:55-56 | sets the result type and the error |
| Activity.ServicerHost | services/activities/delete/send_delete_servicer.py:11 | a non-empty hostname argument is used, and otherwise the utility's hostname |
| Follows.FollowStateFor | services/follows/send_follow.py:46-49 | PENDING exactly when the target is foreign or private |
| Follows.AddFollow | services/follows/send_follow.py:45-57 | stores one follow in that state; a database ERROR sets ERROR and "Could not add requested follow to database", otherwise the response is left alone |
| Follows.RollBackFollow | services/follows/send_follow.py:59-63 | the follow row is deleted first, and the followed user is deleted exactly when created |
| Follows.SendS2S | services/follows/send_follow.py:26-43 | the error text exactly when the follow activity service answers ERROR |
| Follows.CreatedUserAsWritten | services/follows/send_follow.py:96-101 | the flag as written is set exactly for a foreign target |
| Follows.CreatedUser | services/follows/send_follow.py:95-109 | the flag is set only for a foreign user that was not stored before |
| Follows.RollBackDeletesExistingUser | services/follows/send_follow.py:59-101 | with the flag as written, rolling back deletes a foreign user that already existed |
| Follows.RollBackKeepsExistingUser | services/follows/send_follow.py:59-109 | with the corrected flag, a user that already existed is never deleted |
| Follows.SendFollowRequest | services/follows/send_follow.py:65-149 | the response and the call log are those of the guard chain: parse, follower, followed, store, deliver or roll back, notify |
| Follows.FinishFollow | services/follows/send_follow.py:122-149 | once both users are known: a refused store ends in ERROR with nothing more; a failed foreign delivery is rolled back and its error returned; otherwise OK, with the recommender told exactly when configured |
| Follows.SendFollowParseFailure | services/follows/send_follow.py:78-81 | an unparseable followed username is an ERROR before any call |
| Follows.SendFollowState | services/follows/send_follow.py:84-126 | a stored follow links the two looked-up users and is PENDING exactly when the target is foreign or private |
| Follows.SendFollowSuccess | services/follows/send_follow.py:122-149 | OK means the follow was stored, nothing was rolled back, and the recommender is told exactly when configured |
| Follows.SendFollowKeepsStoredUser | services/follows/send_follow.py:59-139 | with the corrected flag, no request deletes a followed user that the first lookup found, whatever the delivery answers |
| Follows.SendFollowRollBack | services/follows/send_follow.py:130-139 | only a failed delivery to a foreign server rolls back, and its error is the request's |
| Follows.ReceiveFollowRequest | services/follows/receive_follow.py:22-60 | without both users the validation response is returned with no call; an accept is attempted only for a public local user; the follow is PENDING exactly when the local user is private; a database ERROR stops before the recommender |
| Follows.ReceiveUnfollow | services/follows/receive_unfollow.py:23-52 | without both users nothing is deleted; the pair deleted is (foreign follower, local followed); an ERROR sets a fixed message with no recommender update; otherwise OK, with `following=False` sent to the recommender when present |
| FollowActivity.BuildActivity | services/activities/follow/send_follow_servicer.py:9-24 | type Follow, actor the follower, object the followed; with `sendable` also `@context` and `to` = [followed], otherwise exactly those three keys |
| FollowActivity.FollowActivityResult | services/activities/follow/send_follow_servicer.py:36-53 | OK with no error exactly when delivery reports none; otherwise ERROR with the error copied; the status code is not read |
| FollowActivity.SendFollowActivity | services/activities/follow/send_follow_servicer.py:36-53 | delivers the built activity to the inbox of the followed user and answers as specified |
| FollowActivity.DeliveryNamesBothActors | services/activities/follow/send_follow_servicer.py:38-46 | the delivered activity is a sendable Follow between the two actors, sent to the followed actor's inbox |
| Announce.GetSharedArticle | services/activities/announce/send_announce_servicer.py:17-31 | succeeds exactly with an OK response holding one result, which it returns; a non-OK response gives its error |
| Announce.AuthorLocation | services/activities/announce/send_announce_servicer.py:65-72 | a local author uses this hostname and a local article URL; a foreign one uses its own host and no URL |
| Announce.AddIfAbsent | services/activities/announce/send_announce_servicer.py:96-101 | the user is present afterwards, existing entries and order are kept, and it is appended only when absent |
| Announce.Recipients | services/activities/announce/send_announce_servicer.py:90-101 | the foreign followers first, unchanged, then at most the author and the announcer, who are both present |
| Announce.RecipientsDistinct | services/activities/announce/send_announce_servicer.py:94-101 | a duplicate-free follower list gives a duplicate-free recipient list |
| Announce.SendAnnounceActivity | services/activities/announce/send_announce_servicer.py:33-107 | the response and what is sent are those of the guard chain, with the recipient list appended in place |
| Announce.AnnounceRefusals | services/activities/announce/send_announce_servicer.py:41-63 | every refusal is an ERROR_400 with one of the four messages, and nothing is sent |
| Announce.NoSelfShare | services/activities/announce/send_announce_servicer.py:60-63 | an author sharing their own post is refused with "Author cannot share their own post" |
| Announce.AnnounceRecipients | services/activities/announce/send_announce_servicer.py:90-107 | what is sent goes to the foreign followers, then the author and the announcer, and the sender starts from an OK response |
| UpdateActivity.LocalUpdate | services/activities/update/send_update_servicer.py:17-27 | writes the request's title, html body, markdown body, tag string and summary |
| UpdateActivity.UpdateLocally | services/activities/update/send_update_servicer.py:15-32 | true exactly when the update matched on the article's id answers OK |
| UpdateActivity.BuildUpdate | services/activities/update/send_update_servicer.py:34-51 | exactly `@context`, `type` = "Update" and `object` = the rebuilt article |
| UpdateActivity.SendUpdateActivity | services/activities/update/send_update_servicer.py:53-93 | a missing user or article is an ERROR with its message and does nothing; ERROR_401 carries no error and does nothing |
| UpdateActivity.UpdateOnlyByAuthor | services/activities/update/send_update_servicer.py:68-76 | any stored update is the request's, on the article, by its author |
| UpdateActivity.NotAuthorRejected | services/activities/update/send_update_servicer.py:68-74 | a requester who is not the author gets ERROR_401 and nothing happens |
| UpdateActivity.ForwardOnlyAfterUpdate | services/activities/update/send_update_servicer.py:76-85 | nothing is forwarded unless the local update succeeded, and what is forwarded is the requester's Update |
| UpdateActivity.UpdateSucceeds | services/activities/update/send_update_servicer.py:53-93 | OK exactly when the author's update was stored and forwarding reported no error |
| DeleteActivity.ForwardAll | services/activities/delete/send_delete_servicer.py:56-58 | one forward per sharer id, in order |
| DeleteActivity.SendDeleteActivity | services/activities/delete/send_delete_servicer.py:13-66 | the response and effects are those of the guard chain, then the sharer loop |
| DeleteActivity.DeleteOnlyByAuthor | services/activities/delete/send_delete_servicer.py:16-33 | nothing happens before the requester is known to be the author; anyone else gets ERROR_401 |
| DeleteActivity.SharersReadFirst | services/activities/delete/send_delete_servicer.py:34-40 | the sharers are read before the article is deleted, and a failed delete is an ERROR with nothing forwarded |
| DeleteActivity.SharerFailuresIgnored | services/activities/delete/send_delete_servicer.py:44-66 | a failure for the author's followers is an ERROR before any sharer; after success every sharer is sent the same Delete and the result is OK whatever they answer |
| SendUndo.GetArticle | services/activities/undo/send_undo_servicer.py:18-31 | succeeds exactly with an OK response of one result; otherwise the error text, or "Expecting 1 result, got n" |
| SendUndo.WithHost | services/activities/undo/send_undo_servicer.py:57-58 | an empty author host becomes this hostname, and nothing else changes |
| SendUndo.SendLikeUndoActivity | services/activities/undo/send_undo_servicer.py:47-73 | the response and what was sent are those of the exception-driven guard chain |
| SendUndo.UndoAddressedToAuthor | services/activities/undo/send_undo_servicer.py:53-62 | the undo goes to the author's inbox, on this server when the author is local |
| SendUndo.UndoOutcome | services/activities/undo/send_undo_servicer.py:47-73 | every failure is an ERROR; nothing is sent unless the send itself failed; OK exactly when the send reported no error; a missing author is "Error getting author" |
| ReceiveUndo.GetUser | services/activities/undo/receive_undo_servicer.py:20-33 | nothing when the actor has no handle; otherwise the lookup of that handle at the normalised host, with a null host when there is none |
| ReceiveUndo.RemoveLikeFromDb | services/activities/undo/receive_undo_servicer.py:35-44 | true exactly when the database removes the like with OK |
| ReceiveUndo.ReceiveLikeUndoActivity | services/activities/undo/receive_undo_servicer.py:46-72 | a missing user is "Couldn't get user: " + id, a missing article is "Could not get article: " + id, and neither removes anything |
| ReceiveUndo.UndoRemovesThatLike | services/activities/undo/receive_undo_servicer.py:52-59 | the like removed is the resolved user's on the resolved article, and a refused removal is "Error removing like from DB" with nothing more |
| ReceiveUndo.UndoForwardedForLocalAuthor | services/activities/undo/receive_undo_servicer.py:58-72 | the Undo is forwarded, to the author's followers, exactly when the like was removed and the author is local; the response is then OK |
| NewArticle.IndexSucceeded | services/article/new_article_servicer.py:20-34 | true exactly when the search service answers OK |
| NewArticle.InsertEntry | services/article/new_article_servicer.py:44-56 | the entry has the html body, the markdown as `md_body`, the tags as one string, and the request's other fields |
| NewArticle.SendInsertRequest | services/article/new_article_servicer.py:36-73 | an unknown author inserts nothing; otherwise insert, then index under the returned id, then the recommender when configured |
| NewArticle.NewArticleResponse.constructor | services/article/new_article_servicer.py:97 | a fresh response is OK with no id |
| NewArticle.CreateNewArticle | services/article/new_article_servicer.py:96-114 | the response and effects are those of the insert, then the create activity for articles written here |
| NewArticle.UnknownAuthor | services/article/new_article_servicer.py:37-42 | an unknown author fails the request and nothing is stored, indexed or sent |
| NewArticle.StoredThenIndexed | services/article/new_article_servicer.py:57-71 | stored, then indexed under the returned id even when the insert reported an error; the recommender hears of it exactly when configured |
| NewArticle.CreateOutcome | services/article/new_article_servicer.py:96-114 | OK exactly when the insert is OK, with the id in decimal; a create activity is sent exactly for articles that are not foreign; otherwise ERROR with nothing sent |
| PostsClient.GetPublicPostsUrl | chump/src/models/posts.ts:60-63 | "/c2s/feed" with no username, "/c2s/feed/" + username otherwise |
| PostsClient.GetUsersPostsUrl | chump/src/models/posts.ts:50-53 | "/c2s/@" followed by the encoded username |
| PostsClient.GetSinglePostUrl | chump/src/models/posts.ts:55-58 | the user's posts URL, then "/" and the id |
| PostsClient.PinnedUrls | chump/test/models/posts.spec.ts:41-91 | the URLs the client's tests pin: "/c2s/feed", "/c2s/feed/username", "/c2s/@username/id" |
| PostsClient.WithParsedDates | chump/src/models/posts.ts:19-22 | same length; each post gets `parsed_date` from its `published` and keeps its other fields |
| PostsClient.SortPosts | chump/src/models/posts.ts:17-27 | the array ends up as the parsed posts, stably sorted newest first |
| PostsClient.SortPostsNewestFirst | chump/src/models/posts.ts:17-27 | after sorting every date is parsed from its post, the posts are newest first, they are a permutation of the input, and equal dates keep their order |
| PostsClient.PostsApiResult | chump/src/models/posts.ts:29-48 | a transport error rejects with it, and a null body resolves to no posts |
| PostsClient.PostsApi | chump/src/models/posts.ts:34-46 | resolves with the body's posts sorted in place, or none for a null body |

## Left out

- The gRPC and HTTP plumbing is not modelled: servers, clients, contexts and timeouts, logging, and every `main` and bootstrap. The HTTP gateway (`skinny` handlers, sessions, status-code mapping) is out.
- The database, users and articles utilities, markdown conversion, the feed parser, activity delivery and the search engine are oracles. Their own code is not part of this model, and neither is the real engine's fuzzy matching or its scoring.
- Time is abstract. Protobuf timestamp conversion, `time.Now`, Go layouts, the RSS `pubDate` text and JavaScript `Date` parsing are parameters (`clock`, `nowText`, `formatTime`, `parse`).
- The RSS scraper loop and its ticker are timer and concurrency code, so they are out.
- The recommender's TF-IDF weights and cosine similarity are floating-point math. They become an abstract integer `score`, and the inverse-frequency tables are not kept.
- Recommender.CosineRecommender.Init: the fallbacks of `_get_all_posts_and_tags` and `_get_all_user` on a database ERROR are not modelled. They return lists where the rest of the class expects dicts.
- Recommender.PyInt: only an optional sign and decimal digits are accepted, not the whitespace or underscores Python's `int` also allows.
- Recommender.CosineRecommender.GetRecommendations: the zero entries that the similarity's `defaultdict` reads add to the user model are not modelled. They change no count and no score.
- `SendUnfollowActivity` and `_build_delete` in send_follow_servicer.py are not modelled, because the code cannot work: the builder returns nothing, and the servicer uses a name it never defines.
- The test at services/activities/follow/test_send_follow_servicer.py:52-69 expects ERROR on an HTTP 500. The code never reads the status, and the model follows the code.
- `validate_and_get_users` is not part of this model. Its outcome, the response it left and the two users it found, is a parameter of Follows.ReceiveFollowRequest and Follows.ReceiveUnfollow.
- `attempt_to_accept` is reduced to an entry in the call log.
- Aliasing is not modelled. The posts sorted by PostsClient.SortPosts are values in the array, not shared objects. SendUndo's in-place `author.host` update is a value update of its local copy.
- Follows.SendFollowRequest: it uses the corrected `created_user` flag (`Follows.CreatedUser`), not the one send_follow.py:101 sets for every foreign target. So when delivery fails for a foreign user who was already stored, the model's call log has no `DeleteUser`, while the code as written deletes that user. The Findings row shows the as-written behaviour.
- Feed.FeedPosts, Feed.ConvertDBToFeed, Feed.Get, Feed.PerUser: they use the corrected author lookup (`Feed.GetAuthorFromDb`). For a username the database does not know, main.go:56 panics on an empty slice, while the model returns `AuthorLookupFailed` (or skips the row). The panic is shown by `Feed.UnknownAuthorPanics`.
- Rss.ConvertRssURLToHandle: it requires a "//" after an "http" prefix. The Go code panics on such input (index out of range), and that panic is not modelled. Rss.NewRssFollow asks this only of a URL whose feed parses, because the handle is computed after the fetch; a URL that fails to fetch gives the feed error whatever its shape.
- The two WebFinger RSS hrefs format an int64 with `%s`. Their text is an abstract parameter of the resolver.
- The posts table's stored column order is taken from the INSERT statement, because the schema itself is not part of this model.
- Search.Server.Search: it requires at most 50 hits, the size the request asks the engine for.
- Search.Server.AddToIndex: the engine's documents are kept as the set of ids rather than as their decimal strings; `Strings.ParseFormatInt` proves that the text given to the engine parses back to the same id.
- The other servicers are not modelled: share, users, follow recommendations, actors, create, login and preview. They are thin delegation to code outside this model, or glue that cannot work as written. The rest of the client's UI is not modelled either.

## Findings

| source | as written | input that shows it | evidently intended | confidence | as-written member | corrected member |
|---|---|---|---|---|---|---|
| services/feed/main.go:51-56 | `getAuthorFromDb` returns `resp.Results[0]` after checking only the transport error | `PerUser` with a username the database does not know: the FIND answers with no rows and the index panics | an unknown user is an error, as `UserFindOne` in services/utils/util.go:150-163 makes it | not executed; high | Feed.UnknownAuthorPanics | Feed.GetAuthorFromDbAgrees |
| services/follows/send_follow.py:96-101 | `created_user` is set to True for every foreign followed user, before the user is looked up or created | following a foreign user that is already stored, when delivery to their server fails: the rollback at lines 130-139 deletes that user | only a user created by this request is deleted on rollback | not executed; medium | Follows.RollBackDeletesExistingUser | Follows.RollBackKeepsExistingUser |

The Findings rows name the lemmas. `Feed.GetAuthorFromDbAsWritten` and `Follows.CreatedUserAsWritten` model the code as written. `Feed.GetAuthorFromDb` and `Follows.CreatedUser` are the corrected definitions, and the rest of the model uses them.
