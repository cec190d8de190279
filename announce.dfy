/** services/activities/announce/send_announce_servicer.py: a local user shares
    (announces, section 7.11 of the W3C ActivityPub Recommendation) someone
    else's article. The servicer checks the announcer, the article and its
    author, builds the Announce activity and sends it to the announcer's
    foreign followers, the author and the announcer. */
module Announce {
  import opened Wrappers
  import opened Proto
  import opened Services
  import opened Activity

  /** `announce_pb2.AnnounceDetails`. */
  datatype AnnounceRequest = AnnounceRequest(articleId: int, announcerId: int, announceTime: Timestamp)

  datatype AnnounceEnv = AnnounceEnv(
    util: ActivUtil,
    /** The servicer's hostname. */
    hostname: string,
    /** `get_user_from_db(global_id=...)`. */
    getUser: int -> Option<UsersEntry>,
    /** The posts FIND request matching `global_id`. */
    findPost: int -> PostsResponse,
    /** `get_follower_list(user_id)`. */
    followerList: int -> seq<UsersEntry>,
    /** `remove_local_users(users)`. */
    removeLocalUsers: seq<UsersEntry> -> seq<UsersEntry>,
    /** `AnnounceUtil.build_announce_activity(actor, article, published)`. */
    buildAnnounce: (string, Json, string) -> Json,
    /** `AnnounceUtil.send_announce_activity(recipients, activity, response)`. */
    sendAnnounce: (seq<UsersEntry>, Json, GeneralResponse) -> GeneralResponse)

  const AnnouncerMissing := "Announcer does not exist"
  const ArticleMissing := "Shared Article does not exist"
  const AuthorMissing := "Author of shared post does not exist"
  const SelfShare := "Author cannot share their own post"

  /** `_get_shared_article`: the one entry of a successful lookup, and an
      error for a failed one, for more than one entry and for none. */
  function GetSharedArticle(resp: PostsResponse): (r: Result<PostsEntry, string>)
    ensures r.Ok? <==> resp.resultType == OK && |resp.results| == 1
    ensures r.Ok? ==> r.value == resp.results[0]
    ensures resp.resultType != OK ==> r == Err(resp.error)
  {
    if resp.resultType != OK then Err(resp.error)
    else if |resp.results| > 1 then Err("Recieved too many results from DB")
    else if |resp.results| == 0 then Err("No matching DB entry for this article")
    else Ok(resp.results[0])
  }

  /** The actor host and article URL: a local author (empty host) is served
      from this server, which builds the article's URL; a foreign author keeps
      their own host and no URL. */
  function AuthorLocation(env: AnnounceEnv, author: UsersEntry, article: PostsEntry): (r: (string, Option<string>))
    ensures author.host == "" ==> r == (env.hostname, Some(env.util.buildLocalArticleUrl(author, article)))
    ensures author.host != "" ==> r == (author.host, None)
  {
    if author.host == "" then (env.hostname, Some(env.util.buildLocalArticleUrl(author, article)))
    else (author.host, None)
  }

  /** `if x not in users: users.append(x)`. */
  function AddIfAbsent(users: seq<UsersEntry>, x: UsersEntry): (r: seq<UsersEntry>)
    ensures x in r
    ensures |r| == if x in users then |users| else |users| + 1
    ensures r[..|users|] == users
    ensures forall y :: y in r ==> y in users || y == x
  {
    if x in users then users else users + [x]
  }

  /** The recipients: the foreign followers, then the author, then the
      announcer, each added only when absent. The followers keep their places
      and order, both users are present, and nobody else is added. */
  function Recipients(followers: seq<UsersEntry>, author: UsersEntry, announcer: UsersEntry): (r: seq<UsersEntry>)
    ensures author in r && announcer in r
    ensures |followers| <= |r| <= |followers| + 2
    ensures r[..|followers|] == followers
    ensures forall y :: y in r ==> y in followers || y == author || y == announcer
  {
    var withAuthor := AddIfAbsent(followers, author);
    var r := AddIfAbsent(withAuthor, announcer);
    assert r[..|followers|] == withAuthor[..|followers|];
    r
  }

  predicate Distinct(s: seq<UsersEntry>) {
    forall i, j :: 0 <= i < j < |s| ==> s[i] != s[j]
  }

  /** Adding only absent users keeps a duplicate-free list duplicate-free, so
      nobody receives the announce twice through these appends. */
  lemma RecipientsDistinct(followers: seq<UsersEntry>, author: UsersEntry, announcer: UsersEntry)
    requires Distinct(followers)
    ensures Distinct(Recipients(followers, author, announcer))
  {
    AddIfAbsentDistinct(followers, author);
    AddIfAbsentDistinct(AddIfAbsent(followers, author), announcer);
  }

  lemma AddIfAbsentDistinct(users: seq<UsersEntry>, x: UsersEntry)
    requires Distinct(users)
    ensures Distinct(AddIfAbsent(users, x))
  {
    var r := AddIfAbsent(users, x);
    forall i, j | 0 <= i < j < |r|
      ensures r[i] != r[j]
    {
      if j == |users| {
        assert r[j] == x && r[i] == users[i];
      }
    }
  }

  /** The Announce activity for a checked request. */
  function AnnounceActivity(env: AnnounceEnv, req: AnnounceRequest, announcer: UsersEntry,
                            author: UsersEntry, article: PostsEntry): Json {
    var (host, articleUrl) := AuthorLocation(env, author, article);
    var authorActor := env.util.buildActor(author.handle, host);
    var apId := env.util.buildArticleApId(author, article);
    var timestamp := env.util.timestampToRfc(article.creationDatetime);
    var articleObj := env.util.buildArticle(apId, article.title, timestamp, authorActor,
                                            article.mdBody, article.summary, articleUrl);
    var actor := env.util.buildActor(announcer.handle, env.hostname);
    env.buildAnnounce(actor, articleObj, env.util.timestampToRfc(Some(req.announceTime)))
  }

  /** `SendAnnounceActivity` as a value: the response, and the recipients and
      activity handed to the sender when it got that far. */
  function AnnounceResult(env: AnnounceEnv, req: AnnounceRequest): (GeneralResponse, Option<(seq<UsersEntry>, Json)>) {
    match env.getUser(req.announcerId)
    case None => (GeneralResponse(ERROR_400, AnnouncerMissing), None)
    case Some(announcer) =>
      match GetSharedArticle(env.findPost(req.articleId))
      case Err(_) => (GeneralResponse(ERROR_400, ArticleMissing), None)
      case Ok(article) =>
        match env.getUser(article.authorId)
        case None => (GeneralResponse(ERROR_400, AuthorMissing), None)
        case Some(author) =>
          if author.globalId == announcer.globalId then (GeneralResponse(ERROR_400, SelfShare), None)
          else
            var activity := AnnounceActivity(env, req, announcer, author, article);
            var to := Recipients(env.removeLocalUsers(env.followerList(req.announcerId)), author, announcer);
            (env.sendAnnounce(to, activity, GeneralResponse(OK, "")), Some((to, activity)))
  }

  /** `SendAnnounceActivity`, appending to the recipient list in place. */
  method SendAnnounceActivity(env: AnnounceEnv, req: AnnounceRequest)
    returns (response: Response, sent: Option<(seq<UsersEntry>, Json)>)
    ensures fresh(response)
    ensures response.Value() == AnnounceResult(env, req).0
    ensures sent == AnnounceResult(env, req).1
  {
    response := new Response();
    sent := None;
    var announcer := env.getUser(req.announcerId);
    if announcer.None? {
      response.Set(ERROR_400, AnnouncerMissing);
      return;
    }
    var shared := GetSharedArticle(env.findPost(req.articleId));
    if shared.Err? {
      response.Set(ERROR_400, ArticleMissing);
      return;
    }
    var article := shared.value;
    var author := env.getUser(article.authorId);
    if author.None? {
      response.Set(ERROR_400, AuthorMissing);
      return;
    }
    if author.value.globalId == announcer.value.globalId {
      response.Set(ERROR_400, SelfShare);
      return;
    }

    var activity := AnnounceActivity(env, req, announcer.value, author.value, article);

    var foreignFollows := env.removeLocalUsers(env.followerList(req.announcerId));
    var followers := foreignFollows;
    if author.value !in foreignFollows {
      foreignFollows := foreignFollows + [author.value];
    }
    if announcer.value !in foreignFollows {
      foreignFollows := foreignFollows + [announcer.value];
    }
    assert foreignFollows == Recipients(followers, author.value, announcer.value);

    var r := env.sendAnnounce(foreignFollows, activity, response.Value());
    response.Set(r.resultType, r.error);
    sent := Some((foreignFollows, activity));
  }

  /** Every refusal is a 400 with one of the servicer's messages, and nothing
      is sent. */
  lemma AnnounceRefusals(env: AnnounceEnv, req: AnnounceRequest)
    ensures AnnounceResult(env, req).1.None? ==>
      && AnnounceResult(env, req).0.resultType == ERROR_400
      && AnnounceResult(env, req).0.error in {AnnouncerMissing, ArticleMissing, AuthorMissing, SelfShare}
    ensures env.getUser(req.announcerId).None? ==> AnnounceResult(env, req) == (GeneralResponse(ERROR_400, AnnouncerMissing), None)
    ensures env.getUser(req.announcerId).Some? && GetSharedArticle(env.findPost(req.articleId)).Err? ==>
      AnnounceResult(env, req) == (GeneralResponse(ERROR_400, ArticleMissing), None)
  {
  }

  /** An author can never share their own article: the request is refused and
      nothing is sent. */
  lemma NoSelfShare(env: AnnounceEnv, req: AnnounceRequest)
    requires env.getUser(req.announcerId).Some?
    requires GetSharedArticle(env.findPost(req.articleId)).Ok?
    requires env.getUser(GetSharedArticle(env.findPost(req.articleId)).value.authorId).Some?
    requires env.getUser(GetSharedArticle(env.findPost(req.articleId)).value.authorId).value.globalId ==
             env.getUser(req.announcerId).value.globalId
    ensures AnnounceResult(env, req) == (GeneralResponse(ERROR_400, SelfShare), None)
  {
  }

  /** What is sent goes to the announcer's foreign followers, in their order,
      followed by the author and the announcer when they were not among them,
      and the sender starts from an OK response. */
  lemma AnnounceRecipients(env: AnnounceEnv, req: AnnounceRequest)
    requires AnnounceResult(env, req).1.Some?
    ensures var announcer := env.getUser(req.announcerId).value;
      var article := GetSharedArticle(env.findPost(req.articleId)).value;
      var author := env.getUser(article.authorId).value;
      var followers := env.removeLocalUsers(env.followerList(req.announcerId));
      var (to, activity) := AnnounceResult(env, req).1.value;
      && author.globalId != announcer.globalId
      && to[..|followers|] == followers
      && author in to && announcer in to
      && (forall y :: y in to ==> y in followers || y == author || y == announcer)
      && AnnounceResult(env, req).0 == env.sendAnnounce(to, activity, GeneralResponse(OK, ""))
  {
  }
}
