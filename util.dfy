/** services/utils/util.go: username and host parsing, tag splitting, single-user
    lookup through the database service, and the conversion of database rows into
    the view objects (`Post`, `Share`, `User`) that the search, feed and gateway
    services return. */
module Util {
  import opened Wrappers
  import opened Strings
  import opened Proto

  const DefaultImage: string := "https://upload.wikimedia.org/wikipedia/commons/8/89/Portrait_Placeholder.png"
  const MaxItemsReturned: nat := 50
  const UserNotFoundMessage: string := "GetAuthorFromDb: user not found"

  function Min(a: int, b: int): int { if a < b then a else b }

  // ---------------------------------------------------------------- usernames

  /** `ParseUsername`: a fully qualified `handle@host` (leading '@'s allowed) split
      into handle and host; the host loses one "http://" and then one "https://"
      prefix, and "" stands for a local user. The error text quotes the input
      after the leading '@'s are trimmed (the closure sees the reassigned `fqu`). */
  function ParseUsername(fqu: string): (r: Result<(string, string), string>)
    ensures r.Ok? ==> r.value.0 != "" && '@' !in r.value.0 && '@' !in r.value.1
    ensures r.Err? ==> r.error == "Couldn't parse username " + TrimLeftChar(fqu, '@')
  {
    var trimmed := TrimLeftChar(fqu, '@');
    var split := Split(trimmed, '@');
    var handleError := Err("Couldn't parse username " + trimmed);
    if |split| == 1 then
      if split[0] == "" then handleError else Ok((split[0], ""))
    else if |split| != 2 then handleError
    else
      var host := StripScheme(split[1]);
      if split[0] == "" || host == "" then handleError else Ok((split[0], host))
  }

  /** The two `TrimPrefix` calls applied to the host part. */
  function StripScheme(host: string): string {
    TrimPrefix(TrimPrefix(host, "http://"), "https://")
  }

  /** The inverse of `ParseUsername`: the canonical text of a (handle, host) pair. */
  function FormatUsername(handle: string, host: string): string {
    if host == "" then handle else handle + "@" + host
  }

  /** Formatting and then parsing gives back the pair, for every handle and host
      that `ParseUsername` can return as they are. */
  lemma ParseFormatUsername(handle: string, host: string)
    requires handle != "" && '@' !in handle && '@' !in host
    requires !HasPrefix(host, "http://") && !HasPrefix(host, "https://")
    ensures ParseUsername(FormatUsername(handle, host)) == Ok((handle, host))
  {
    var s := FormatUsername(handle, host);
    assert s[0] == handle[0];
    assert TrimLeftChar(s, '@') == s;
    if host == "" {
      SplitNoSeparator(handle, '@');
    } else {
      assert s == handle + ['@'] + host;
      SplitConcat(handle, host, '@');
      SplitNoSeparator(host, '@');
      assert Split(s, '@') == [handle, host];
    }
  }

  /** Leading '@' characters do not change the outcome. */
  lemma ParseUsernameLeadingAt(fqu: string)
    ensures ParseUsername("@" + fqu) == ParseUsername(fqu)
  {
    assert ("@" + fqu)[1..] == fqu;
  }

  /** Two or more '@'s after the leading ones make it an error. */
  lemma ParseUsernameTooManyAts(fqu: string)
    requires Count(TrimLeftChar(fqu, '@'), '@') >= 2
    ensures ParseUsername(fqu).Err?
  {
    SplitLength(TrimLeftChar(fqu, '@'), '@');
  }

  /** An input made only of '@'s (or the empty string) is an error. */
  lemma ParseUsernameEmpty(fqu: string)
    requires forall i :: 0 <= i < |fqu| ==> fqu[i] == '@'
    ensures ParseUsername(fqu).Err?
  {
    assert TrimLeftChar(fqu, '@') == [];
  }

  /** A scheme in front of a host without one is stripped. */
  lemma StripSchemeOf(scheme: string, host: string)
    requires scheme == "http://" || scheme == "https://"
    requires !HasPrefix(host, "http://") && !HasPrefix(host, "https://")
    ensures StripScheme(scheme + host) == host
  {
    var t := scheme + host;
    assert t[..|scheme|] == scheme;
    assert t[|scheme|..] == host;
    if scheme == "http://" {
      assert TrimPrefix(t, "http://") == host;
    } else {
      assert t[..7] == "https:/";
      assert TrimPrefix(t, "http://") == t;
    }
  }

  /** Split at the one '@' between two parts without one. */
  lemma SplitAtSign(handle: string, rest: string)
    requires '@' !in handle && '@' !in rest
    ensures Split(handle + "@" + rest, '@') == [handle, rest]
  {
    assert handle + "@" + rest == handle + ['@'] + rest;
    SplitConcat(handle, rest, '@');
    SplitNoSeparator(rest, '@');
  }

  /** A host written with an "http://" or "https://" scheme loses it: the
      documented `admin@http://r.dev` case. */
  lemma ParseUsernameScheme(handle: string, scheme: string, host: string)
    requires scheme == "http://" || scheme == "https://"
    requires handle != "" && '@' !in handle && '@' !in host && host != ""
    requires !HasPrefix(host, "http://") && !HasPrefix(host, "https://")
    ensures ParseUsername(handle + "@" + scheme + host) == Ok((handle, host))
  {
    var rest := scheme + host;
    var s := handle + "@" + rest;
    assert handle + "@" + scheme + host == s;
    assert s[0] == handle[0];
    assert TrimLeftChar(s, '@') == s;
    assert '@' !in rest;
    SplitAtSign(handle, rest);
    StripSchemeOf(scheme, host);
  }

  /** `NormaliseHost`: gives a bare host a scheme; development hosts (no '.')
      get "http://", others "https://". */
  function NormaliseHost(host: string): (r: string)
    ensures r == "" <==> host == ""
    ensures r != "" ==> HasPrefix(r, "http://") || HasPrefix(r, "https://")
    ensures HasPrefix(host, "http://") || HasPrefix(host, "https://") ==> r == host
    ensures r == host || r == "http://" + host || r == "https://" + host
    ensures r == "http://" + host && host != "" ==> '.' !in host
    ensures r == "https://" + host && r != host ==> '.' in host
  {
    if host == "" then ""
    else if HasPrefix(host, "http://") || HasPrefix(host, "https://") then host
    else if '.' !in host then "http://" + host
    else "https://" + host
  }

  lemma NormaliseHostIdempotent(host: string)
    ensures NormaliseHost(NormaliseHost(host)) == NormaliseHost(host)
  {
    var r := NormaliseHost(host);
    if r != host && r != "" {
      assert HasPrefix(r, "http://") || HasPrefix(r, "https://");
    }
  }

  // --------------------------------------------------------------------- tags

  /** A kept tag piece with every "%7C" turned back into '|'. */
  function Unescape(piece: string): string {
    ReplaceAll(piece, "%7C", "|")
  }

  /** The pieces that survive `SplitTags`, unescaped, in order. */
  function CleanTags(pieces: seq<string>): (r: seq<string>)
    ensures |r| <= |pieces|
    ensures forall i :: 0 <= i < |r| ==> r[i] != ""
  {
    if pieces == [] then []
    else
      var last := pieces[|pieces| - 1];
      CleanTags(pieces[..|pieces| - 1]) + (if last == "" then [] else [Unescape(last)])
  }

  /** What `SplitTags` returns, as a function for use in specifications. */
  function TagList(tags: string): seq<string> {
    CleanTags(Split(tags, '|'))
  }

  /** `SplitTags`: splits on '|', drops empty pieces, unescapes the rest. */
  method SplitTags(tags: string) returns (cleanTags: seq<string>)
    ensures cleanTags == TagList(tags)
    ensures forall i :: 0 <= i < |cleanTags| ==> cleanTags[i] != ""
  {
    var splitTags := Split(tags, '|');
    cleanTags := [];
    for i := 0 to |splitTags|
      invariant cleanTags == CleanTags(splitTags[..i])
    {
      assert splitTags[..i + 1][..i] == splitTags[..i];
      if splitTags[i] != "" {
        cleanTags := cleanTags + [Unescape(splitTags[i])];
      }
    }
    assert splitTags[..|splitTags|] == splitTags;
  }

  lemma {:induction false} SplitConcat(a: string, b: string, c: char)
    requires c !in a
    ensures Split(a + [c] + b, c) == [a] + Split(b, c)
  {
    if a == [] {
      assert [] + [c] + b == [c] + b;
      assert ([c] + b)[1..] == b;
    } else {
      var s := a + [c] + b;
      assert s[1..] == a[1..] + [c] + b;
      SplitConcat(a[1..], b, c);
      assert [a[0]] + a[1..] == a;
    }
  }

  /** Joining separator-free pieces and splitting again gives the pieces back. */
  lemma {:induction false} SplitJoin(ts: seq<string>, c: char)
    requires |ts| >= 1
    requires forall i :: 0 <= i < |ts| ==> c !in ts[i]
    ensures Split(Join(ts, [c]), c) == ts
  {
    if |ts| == 1 {
      SplitNoSeparator(ts[0], c);
    } else {
      SplitJoin(ts[1..], c);
      SplitConcat(ts[0], Join(ts[1..], [c]), c);
      assert [ts[0]] + ts[1..] == ts;
    }
  }

  lemma {:induction false} CleanTagsPlain(ts: seq<string>)
    requires forall i :: 0 <= i < |ts| ==> ts[i] != "" && '%' !in ts[i]
    ensures CleanTags(ts) == ts
  {
    if ts != [] {
      CleanTagsPlain(ts[..|ts| - 1]);
      ReplaceAllAbsent(ts[|ts| - 1], "%7C", "|");
      assert ts[..|ts| - 1] + [ts[|ts| - 1]] == ts;
    }
  }

  /** Tags joined with '|' split back into the same list, for non-empty tags that
      contain neither '|' nor '%'. */
  lemma SplitTagsJoin(ts: seq<string>)
    requires forall i :: 0 <= i < |ts| ==> ts[i] != "" && '|' !in ts[i] && '%' !in ts[i]
    ensures TagList(Join(ts, "|")) == ts
  {
    if ts == [] {
      assert Split("", '|') == [""];
    } else {
      SplitJoin(ts, '|');
      CleanTagsPlain(ts);
    }
  }

  // -------------------------------------------------------------- user lookup

  datatype LookupError = UserNotFound | LookupFailed(message: string)

  function LookupErrorText(e: LookupError): string {
    match e
    case UserNotFound => UserNotFoundMessage
    case LookupFailed(m) => m
  }

  /** `UserFind`: a transport error or a non-OK response becomes an error. */
  function UserFind(m: UsersMatch, db: UsersGetter): (r: Result<seq<UsersEntry>, string>)
    ensures r.Ok? <==> db(m).Ok? && db(m).value.resultType == OK
    ensures r.Ok? ==> r.value == db(m).value.results
  {
    match db(m)
    case Err(e) => Err("Could not find user " + m.handle + "@" + m.host + ". error: " + e)
    case Ok(resp) =>
      if resp.resultType != OK then
        Err("Could not find user " + m.handle + "@" + m.host + ". error: " + resp.error)
      else Ok(resp.results)
  }

  /** `UserFindOne`: exactly one result is required; none is `UserNotFound`. */
  function UserFindOne(m: UsersMatch, db: UsersGetter): (r: Result<UsersEntry, LookupError>)
    ensures r.Ok? <==> UserFind(m, db).Ok? && |UserFind(m, db).value| == 1
    ensures r.Ok? ==> r.value == UserFind(m, db).value[0]
    ensures r == Err(UserNotFound) <==> UserFind(m, db) == Ok([])
  {
    match UserFind(m, db)
    case Err(e) => Err(LookupFailed(e))
    case Ok(results) =>
      if |results| == 0 then Err(UserNotFound)
      else if |results| > 1 then
        Err(LookupFailed("Expected 1 user for GetAuthorFromDb request, got " + FormatInt(|results|)))
      else Ok(results[0])
  }

  /** `GetAuthorFromDb`: a FIND on exactly the given fields. */
  function GetAuthorFromDb(handle: string, host: string, hostIsNull: bool, globalId: int,
                           db: UsersGetter): (r: Result<UsersEntry, LookupError>)
    ensures var m := UsersMatch(handle, host, hostIsNull, globalId);
      && (r.Ok? <==> db(m).Ok? && db(m).value.resultType == OK && |db(m).value.results| == 1)
      && (r.Ok? ==> db(m).value.results == [r.value])
      && (r == Err(UserNotFound) <==> db(m).Ok? && db(m).value.resultType == OK && db(m).value.results == [])
  {
    UserFindOne(UsersMatch(handle, host, hostIsNull, globalId), db)
  }

  /** The author of a row, looked up by id only. */
  function AuthorById(id: int, db: UsersGetter): Result<UsersEntry, LookupError> {
    GetAuthorFromDb("", "", false, id, db)
  }

  // ------------------------------------------------------------- view objects

  /** The clock and the time format, abstracted: the current time already
      formatted, and the formatting of a valid timestamp. */
  datatype Clock = Clock(nowText: string, format: Timestamp -> string)

  /** `ConvertPbTimestamp`: a nil or out-of-range timestamp falls back to now. */
  function ConvertPbTimestamp(t: Option<Timestamp>, clock: Clock): (r: string)
    ensures t.Some? && ValidTimestamp(t.value) ==> r == clock.format(t.value)
    ensures t.None? || !ValidTimestamp(t.value) ==> r == clock.nowText
  {
    if t.Some? && ValidTimestamp(t.value) then clock.format(t.value) else clock.nowText
  }

  /** `pb.Post`, the view object of a post. */
  datatype Post = Post(
    globalId: int,
    author: string,
    authorDisplay: string,
    authorHost: string,
    authorId: int,
    title: string,
    bio: string,
    body: string,
    image: string,
    likesCount: int,
    mdBody: string,
    isLiked: bool,
    published: string,
    isFollowed: bool,
    isShared: bool,
    sharesCount: int,
    tags: seq<string>,
    summary: string)

  /** `pb.Share`, the view object of a re-share. */
  datatype Share = Share(
    globalId: int,
    author: string,
    authorDisplay: string,
    authorHost: string,
    title: string,
    bio: string,
    body: string,
    image: string,
    likesCount: int,
    isLiked: bool,
    published: string,
    isFollowed: bool,
    isShared: bool,
    sharerBio: string,
    sharer: string,
    sharerHost: string,
    shareDatetime: string,
    authorId: int,
    sharesCount: int,
    tags: seq<string>,
    summary: string)

  /** `pb.User`, a users row without its private columns. */
  datatype User = User(
    handle: string,
    host: string,
    globalId: int,
    bio: string,
    isFollowed: bool,
    displayName: string,
    private: Option<bool>,
    customCss: string)

  /** The view of one row whose author lookup gave `a`. */
  function ToPost(r: PostsEntry, a: UsersEntry, clock: Clock): Post {
    Post(r.globalId, a.handle, a.displayName, a.host, r.authorId, r.title, a.bio, r.body,
         DefaultImage, r.likesCount, r.mdBody, r.isLiked,
         ConvertPbTimestamp(r.creationDatetime, clock), r.isFollowed, r.isShared,
         r.sharesCount, TagList(r.tags), r.summary)
  }

  /** The view of one share row with author `a` and sharer `sh`. */
  function ToShare(r: SharesEntry, a: UsersEntry, sh: UsersEntry, clock: Clock): Share {
    var p := r.post;
    Share(p.globalId, a.handle, a.displayName, a.host, p.title, a.bio, p.body, DefaultImage,
          p.likesCount, p.isLiked, ConvertPbTimestamp(p.creationDatetime, clock),
          p.isFollowed, p.isShared, sh.bio, sh.handle, sh.host,
          ConvertPbTimestamp(r.announceDatetime, clock), a.globalId, p.sharesCount,
          TagList(p.tags), p.summary)
  }

  /** The views of the rows whose author resolves, in row order (no cap). */
  function FeedPosts(rows: seq<PostsEntry>, db: UsersGetter, clock: Clock): (r: seq<Post>)
    ensures |r| <= |rows|
  {
    if rows == [] then []
    else
      var last := rows[|rows| - 1];
      FeedPosts(rows[..|rows| - 1], db, clock) +
        (match AuthorById(last.authorId, db)
         case Ok(a) => [ToPost(last, a, clock)]
         case Err(_) => [])
  }

  /** The rows whose author resolves, in order: an independent description of
      which rows survive the conversion. */
  function ResolvedRows(rows: seq<PostsEntry>, db: UsersGetter): (r: seq<PostsEntry>)
    ensures forall k :: 0 <= k < |r| ==> r[k] in rows && AuthorById(r[k].authorId, db).Ok?
  {
    if rows == [] then []
    else
      var last := rows[|rows| - 1];
      ResolvedRows(rows[..|rows| - 1], db) +
        (if AuthorById(last.authorId, db).Ok? then [last] else [])
  }

  /** The conversion is "keep the resolvable rows, then build each view from its
      looked-up author": skipped rows leave no trace and order is kept. */
  lemma {:induction false} FeedPostsAreResolvedRows(rows: seq<PostsEntry>, db: UsersGetter, clock: Clock)
    ensures var kept := ResolvedRows(rows, db);
      FeedPosts(rows, db, clock) ==
        seq(|kept|, k requires 0 <= k < |kept| =>
          ToPost(kept[k], AuthorById(kept[k].authorId, db).value, clock))
  {
    if rows != [] {
      FeedPostsAreResolvedRows(rows[..|rows| - 1], db, clock);
    }
  }

  /** When every author resolves, every row yields its view, in order. */
  lemma {:induction false} FeedPostsAllResolve(rows: seq<PostsEntry>, db: UsersGetter, clock: Clock)
    requires forall i :: 0 <= i < |rows| ==> AuthorById(rows[i].authorId, db).Ok?
    ensures |FeedPosts(rows, db, clock)| == |rows|
    ensures forall i :: 0 <= i < |rows| ==>
      FeedPosts(rows, db, clock)[i] == ToPost(rows[i], AuthorById(rows[i].authorId, db).value, clock)
  {
    if rows != [] {
      FeedPostsAllResolve(rows[..|rows| - 1], db, clock);
    }
  }

  /** Every view carries the placeholder image and the fields of its author. */
  lemma FeedPostsFields(rows: seq<PostsEntry>, db: UsersGetter, clock: Clock, k: int)
    requires 0 <= k < |FeedPosts(rows, db, clock)|
    ensures var p := FeedPosts(rows, db, clock)[k];
      p.image == DefaultImage &&
      exists i :: 0 <= i < |rows| && rows[i].globalId == p.globalId && rows[i].authorId == p.authorId &&
        AuthorById(rows[i].authorId, db).Ok? &&
        var a := AuthorById(rows[i].authorId, db).value;
        p.author == a.handle && p.authorDisplay == a.displayName && p.authorHost == a.host && p.bio == a.bio
  {
    FeedPostsAreResolvedRows(rows, db, clock);
    var kept := ResolvedRows(rows, db);
    assert kept[k] in rows;
  }

  /** `ConvertDBToFeed`: at most the first 50 rows are looked at (a skipped row
      still uses up one of them), and each whose author resolves gives a view. */
  method ConvertDBToFeed(rows: seq<PostsEntry>, db: UsersGetter, clock: Clock) returns (pe: seq<Post>)
    ensures pe == FeedPosts(rows[..Min(|rows|, MaxItemsReturned)], db, clock)
    ensures |pe| <= MaxItemsReturned
  {
    pe := [];
    var i := 0;
    while i < |rows|
      invariant 0 <= i <= Min(|rows|, MaxItemsReturned)
      invariant pe == FeedPosts(rows[..i], db, clock)
    {
      if i >= MaxItemsReturned {
        // Have hit limit for number of items returned for this request.
        break;
      }
      var r := rows[i];
      assert rows[..i + 1][..i] == rows[..i];
      var author := GetAuthorFromDb("", "", false, r.authorId, db);
      if author.Err? {
        i := i + 1;
        continue;
      }
      var tags := SplitTags(r.tags);
      var np := Post(r.globalId, author.value.handle, author.value.displayName, author.value.host,
                     r.authorId, r.title, author.value.bio, r.body, DefaultImage, r.likesCount,
                     r.mdBody, r.isLiked, ConvertPbTimestamp(r.creationDatetime, clock),
                     r.isFollowed, r.isShared, r.sharesCount, tags, r.summary);
      pe := pe + [np];
      i := i + 1;
    }
  }

  /** When every author resolves, exactly min(N, 50)
      views come back, the i-th built from the i-th row. */
  lemma ConvertDBToFeedAllResolve(rows: seq<PostsEntry>, db: UsersGetter, clock: Clock)
    requires forall i :: 0 <= i < |rows| ==> AuthorById(rows[i].authorId, db).Ok?
    ensures var n := Min(|rows|, MaxItemsReturned);
      |FeedPosts(rows[..n], db, clock)| == n &&
      forall i :: 0 <= i < n ==>
        FeedPosts(rows[..n], db, clock)[i] == ToPost(rows[i], AuthorById(rows[i].authorId, db).value, clock)
  {
    FeedPostsAllResolve(rows[..Min(|rows|, MaxItemsReturned)], db, clock);
  }

  /** Whether both the author and the sharer of a share row resolve. */
  predicate ShareResolves(r: SharesEntry, db: UsersGetter) {
    AuthorById(r.post.authorId, db).Ok? && AuthorById(r.sharerId, db).Ok?
  }

  /** The views of the share rows whose author and sharer both resolve. */
  function SharePosts(rows: seq<SharesEntry>, db: UsersGetter, clock: Clock): (r: seq<Share>)
    ensures |r| <= |rows|
  {
    if rows == [] then []
    else
      var last := rows[|rows| - 1];
      SharePosts(rows[..|rows| - 1], db, clock) +
        (if ShareResolves(last, db)
         then [ToShare(last, AuthorById(last.post.authorId, db).value, AuthorById(last.sharerId, db).value, clock)]
         else [])
  }

  function ResolvedShares(rows: seq<SharesEntry>, db: UsersGetter): (r: seq<SharesEntry>)
    ensures forall k :: 0 <= k < |r| ==> r[k] in rows && ShareResolves(r[k], db)
  {
    if rows == [] then []
    else
      var last := rows[|rows| - 1];
      ResolvedShares(rows[..|rows| - 1], db) + (if ShareResolves(last, db) then [last] else [])
  }

  /** A share row is kept only when both of its users resolve; order is kept and
      `AuthorId` comes from the looked-up author. */
  lemma {:induction false} SharePostsAreResolvedShares(rows: seq<SharesEntry>, db: UsersGetter, clock: Clock)
    ensures var kept := ResolvedShares(rows, db);
      var out := SharePosts(rows, db, clock);
      |out| == |kept| &&
      forall k :: 0 <= k < |kept| ==>
        out[k] == ToShare(kept[k], AuthorById(kept[k].post.authorId, db).value,
                          AuthorById(kept[k].sharerId, db).value, clock) &&
        out[k].authorId == AuthorById(kept[k].post.authorId, db).value.globalId
  {
    if rows != [] {
      SharePostsAreResolvedShares(rows[..|rows| - 1], db, clock);
    }
  }

  /** `ConvertShareToFeed`: as `ConvertDBToFeed`, with a second lookup for the sharer. */
  method ConvertShareToFeed(rows: seq<SharesEntry>, db: UsersGetter, clock: Clock) returns (pe: seq<Share>)
    ensures pe == SharePosts(rows[..Min(|rows|, MaxItemsReturned)], db, clock)
    ensures |pe| <= MaxItemsReturned
  {
    pe := [];
    var i := 0;
    while i < |rows|
      invariant 0 <= i <= Min(|rows|, MaxItemsReturned)
      invariant pe == SharePosts(rows[..i], db, clock)
    {
      if i >= MaxItemsReturned {
        break;
      }
      var r := rows[i];
      assert rows[..i + 1][..i] == rows[..i];
      var author := GetAuthorFromDb("", "", false, r.post.authorId, db);
      if author.Err? {
        i := i + 1;
        continue;
      }
      var sharer := GetAuthorFromDb("", "", false, r.sharerId, db);
      if sharer.Err? {
        i := i + 1;
        continue;
      }
      var tags := SplitTags(r.post.tags);
      var p := r.post;
      var a := author.value;
      var np := Share(p.globalId, a.handle, a.displayName, a.host, p.title, a.bio, p.body,
                      DefaultImage, p.likesCount, p.isLiked,
                      ConvertPbTimestamp(p.creationDatetime, clock), p.isFollowed, p.isShared,
                      sharer.value.bio, sharer.value.handle, sharer.value.host,
                      ConvertPbTimestamp(r.announceDatetime, clock), a.globalId, p.sharesCount,
                      tags, p.summary);
      pe := pe + [np];
      i := i + 1;
    }
  }

  /** `StripUser`: the eight public fields of a users row. */
  function StripUser(p: UsersEntry): User {
    User(p.handle, p.host, p.globalId, p.bio, p.isFollowed, p.displayName, p.private, p.customCss)
  }

  /** `ConvertDBToUsers`: the stripped form of the first min(n, 50) users, in order. */
  method ConvertDBToUsers(users: seq<UsersEntry>) returns (ue: seq<User>)
    ensures |ue| == Min(|users|, MaxItemsReturned)
    ensures forall i :: 0 <= i < |ue| ==> ue[i] == StripUser(users[i])
  {
    ue := [];
    var i := 0;
    while i < |users|
      invariant 0 <= i <= Min(|users|, MaxItemsReturned)
      invariant |ue| == i
      invariant forall k :: 0 <= k < i ==> ue[k] == StripUser(users[k])
    {
      if i >= MaxItemsReturned {
        break;
      }
      ue := ue + [StripUser(users[i])];
      i := i + 1;
    }
  }
}
