/** services/activities/update/send_update_servicer.py: an author edits one of
    their articles. The edit is stored locally and then forwarded to the
    author's followers as an ActivityPub `Update` (section 7.3 of the W3C
    ActivityPub Recommendation). */
module UpdateActivity {
  import opened Wrappers
  import opened Proto
  import opened Activity

  /** `update_pb2.UpdateDetails`. */
  datatype UpdateRequest = UpdateRequest(articleId: int, userId: int, title: string, body: string,
                                         tags: seq<string>, summary: string)

  datatype UpdateEnv = UpdateEnv(
    util: ActivUtil,
    /** The servicer's hostname. */
    hostname: string,
    /** `get_user_from_db(global_id=...)`. */
    getUser: int -> Option<UsersEntry>,
    /** `utils.articles.get_article(global_id=...)`. */
    getArticle: int -> Option<PostsEntry>,
    /** `md_to_html(md, text)`. */
    mdToHtml: string -> string,
    /** `convert_to_tags_string(tags)`. */
    tagsString: seq<string> -> string,
    /** `Timestamp.ToJsonString()`. */
    toJsonString: Option<Timestamp> -> string,
    /** The posts UPDATE request: the matched `global_id` and the new fields. */
    updatePost: (int, PostUpdate) -> GeneralResponse)

  /** The fields an UPDATE request writes. */
  datatype PostUpdate = PostUpdate(title: string, body: string, mdBody: string, tags: string, summary: string)

  datatype Effect = UpdatePost(globalId: int, entry: PostUpdate) | Forward(userId: int, activity: Json)

  const UserMissing := "Error retrieving user"
  const ArticleMissing := "Error retrieving article"
  const UpdateFailed := "Error updating article"
  const UpdateKeys: set<string> := {"@context", "type", "object"}

  /** The entry `_update_locally` writes: the request's title, tags and
      summary, its markdown as `md_body` and the html rendering as `body`. */
  function LocalUpdate(env: UpdateEnv, req: UpdateRequest): (e: PostUpdate)
    ensures e.title == req.title && e.mdBody == req.body && e.summary == req.summary
    ensures e.body == env.mdToHtml(req.body) && e.tags == env.tagsString(req.tags)
  {
    PostUpdate(req.title, env.mdToHtml(req.body), req.body, env.tagsString(req.tags), req.summary)
  }

  /** `_update_locally`: whether the database accepted the update. */
  function UpdateLocally(env: UpdateEnv, article: PostsEntry, req: UpdateRequest): (ok: bool)
    ensures ok <==> env.updatePost(article.globalId, LocalUpdate(env, req)).resultType == OK
  {
    env.updatePost(article.globalId, LocalUpdate(env, req)).resultType == OK
  }

  /** `_build_update`: an Update carrying the context and the rebuilt article,
      whose content is the new markdown and whose actor is the author here. */
  function BuildUpdate(env: UpdateEnv, user: UsersEntry, article: PostsEntry, req: UpdateRequest): (d: map<string, Json>)
    ensures d.Keys == UpdateKeys
    ensures d["type"] == JStr("Update") && d["@context"] == env.util.rabbleContext
    ensures d["object"] == env.util.buildArticle(article.apId, req.title, env.toJsonString(article.creationDatetime),
                                                 env.util.buildActor(user.handle, env.hostname), req.body, req.summary,
                                                 Some(env.util.buildLocalArticleUrl(user, article)))
  {
    var actor := env.util.buildActor(user.handle, env.hostname);
    var articleUrl := env.util.buildLocalArticleUrl(user, article);
    var timestamp := env.toJsonString(article.creationDatetime);
    var apArticle := env.util.buildArticle(article.apId, req.title, timestamp, actor, req.body, req.summary, Some(articleUrl));
    map["@context" := env.util.rabbleContext, "type" := JStr("Update"), "object" := apArticle]
  }

  /** `SendUpdateActivity`: the response and the effects, in order. */
  function SendUpdateActivity(env: UpdateEnv, req: UpdateRequest): (r: (GeneralResponse, seq<Effect>))
    ensures env.getUser(req.userId).None? ==> r == (GeneralResponse(ERROR, UserMissing), [])
    ensures env.getUser(req.userId).Some? && env.getArticle(req.articleId).None? ==>
      r == (GeneralResponse(ERROR, ArticleMissing), [])
    ensures r.0.resultType == ERROR_401 ==> r == (GeneralResponse(ERROR_401, ""), [])
  {
    match env.getUser(req.userId)
    case None => (GeneralResponse(ERROR, UserMissing), [])
    case Some(user) =>
      match env.getArticle(req.articleId)
      case None => (GeneralResponse(ERROR, ArticleMissing), [])
      case Some(article) =>
        if article.authorId != user.globalId then (GeneralResponse(ERROR_401, ""), [])
        else
          var updated := [UpdatePost(article.globalId, LocalUpdate(env, req))];
          if !UpdateLocally(env, article, req) then (GeneralResponse(ERROR, UpdateFailed), updated)
          else
            var obj := JObj(BuildUpdate(env, user, article, req));
            var forwarded := updated + [Forward(req.userId, obj)];
            match env.util.forwardToFollowers(req.userId, obj)
            case Some(err) => (GeneralResponse(ERROR, err), forwarded)
            case None => (GeneralResponse(OK, ""), forwarded)
  }

  /** Only the article's author changes it: any stored update is the request's,
      on the requested article, by a requester who is its author. */
  lemma UpdateOnlyByAuthor(env: UpdateEnv, req: UpdateRequest, e: Effect)
    requires e in SendUpdateActivity(env, req).1 && e.UpdatePost?
    ensures env.getUser(req.userId).Some? && env.getArticle(req.articleId).Some?
    ensures env.getArticle(req.articleId).value.authorId == env.getUser(req.userId).value.globalId
    ensures e == UpdatePost(env.getArticle(req.articleId).value.globalId, LocalUpdate(env, req))
  {
  }

  /** A requester who is not the author gets a 401 and nothing happens. */
  lemma NotAuthorRejected(env: UpdateEnv, req: UpdateRequest)
    requires env.getUser(req.userId).Some? && env.getArticle(req.articleId).Some?
    requires env.getArticle(req.articleId).value.authorId != env.getUser(req.userId).value.globalId
    ensures SendUpdateActivity(env, req) == (GeneralResponse(ERROR_401, ""), [])
  {
  }

  /** Nothing is forwarded unless the local update succeeded; what is forwarded
      is an Update of the requester's followers. */
  lemma ForwardOnlyAfterUpdate(env: UpdateEnv, req: UpdateRequest, e: Effect)
    requires e in SendUpdateActivity(env, req).1 && e.Forward?
    ensures env.getUser(req.userId).Some? && env.getArticle(req.articleId).Some?
    ensures UpdateLocally(env, env.getArticle(req.articleId).value, req)
    ensures e.userId == req.userId && e.activity.JObj? && e.activity.fields.Keys == UpdateKeys
    ensures e.activity.fields["type"] == JStr("Update")
  {
  }

  /** The request succeeds exactly when the author's update was stored and
      forwarded without error, and a failure is reported with its reason. */
  lemma UpdateSucceeds(env: UpdateEnv, req: UpdateRequest)
    ensures SendUpdateActivity(env, req).0.resultType == OK <==>
      && env.getUser(req.userId).Some?
      && env.getArticle(req.articleId).Some?
      && env.getArticle(req.articleId).value.authorId == env.getUser(req.userId).value.globalId
      && UpdateLocally(env, env.getArticle(req.articleId).value, req)
      && env.util.forwardToFollowers(req.userId,
           JObj(BuildUpdate(env, env.getUser(req.userId).value, env.getArticle(req.articleId).value, req))).None?
    ensures (&& env.getUser(req.userId).Some?
             && env.getArticle(req.articleId).Some?
             && env.getArticle(req.articleId).value.authorId == env.getUser(req.userId).value.globalId
             && !UpdateLocally(env, env.getArticle(req.articleId).value, req)) ==>
      SendUpdateActivity(env, req).0 == GeneralResponse(ERROR, UpdateFailed) && |SendUpdateActivity(env, req).1| == 1
  {
  }
}
