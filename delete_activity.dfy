/** services/activities/delete/send_delete_servicer.py: an author deletes one
    of their articles. It is deleted locally, and an ActivityPub `Delete`
    (section 7.4 of the W3C ActivityPub Recommendation) goes to the author's
    followers and then to the followers of everyone who shared the article. */
module DeleteActivity {
  import opened Wrappers
  import opened Proto
  import opened Activity

  /** `delete_pb2.DeleteDetails`. */
  datatype DeleteRequest = DeleteRequest(articleId: int, userId: int)

  datatype DeleteEnv = DeleteEnv(
    util: ActivUtil,
    /** The servicer's hostname. */
    hostname: string,
    /** `get_user_from_db(global_id=...)`. */
    getUser: int -> Option<UsersEntry>,
    /** `utils.articles.get_article(global_id=...)`. */
    getArticle: int -> Option<PostsEntry>,
    /** `utils.articles.get_sharers_of_article(global_id)`. */
    sharersOf: int -> seq<int>,
    /** `utils.articles.delete_article(global_id=...)`: whether it was deleted. */
    deleteArticle: int -> bool)

  datatype Effect = ReadSharers(articleId: int) | DeleteArticle(articleId: int) | Forward(userId: int, activity: Json)

  const UserMissing := "Could not retrieve user"
  const ArticleMissing := "Could not retrieve article"
  const NotAuthor := "User is not the author of this article"
  const DeleteFailed := "Could not delete article locally"

  /** One forwarding per id, in order. */
  function ForwardAll(ids: seq<int>, activity: Json): (r: seq<Effect>)
    ensures |r| == |ids|
    ensures forall i :: 0 <= i < |ids| ==> r[i] == Forward(ids[i], activity)
  {
    if ids == [] then [] else ForwardAll(ids[..|ids| - 1], activity) + [Forward(ids[|ids| - 1], activity)]
  }

  /** `SendDeleteActivity` as a value: the response and the effects, in order.
      Only the forwarding to the author's followers can fail the request. */
  function DeleteResult(env: DeleteEnv, req: DeleteRequest): (GeneralResponse, seq<Effect>) {
    match env.getUser(req.userId)
    case None => (GeneralResponse(ERROR, UserMissing), [])
    case Some(user) =>
      match env.getArticle(req.articleId)
      case None => (GeneralResponse(ERROR, ArticleMissing), [])
      case Some(article) =>
        if article.authorId != req.userId then (GeneralResponse(ERROR_401, NotAuthor), [])
        else
          var deleted := [ReadSharers(article.globalId), DeleteArticle(article.globalId)];
          if !env.deleteArticle(article.globalId) then (GeneralResponse(ERROR, DeleteFailed), deleted)
          else
            var obj := env.util.buildDelete(user, article, env.hostname);
            var forwarded := deleted + [Forward(req.userId, obj)];
            match env.util.forwardToFollowers(req.userId, obj)
            case Some(err) => (GeneralResponse(ERROR, err), forwarded)
            case None => (GeneralResponse(OK, ""), forwarded + ForwardAll(env.sharersOf(article.globalId), obj))
  }

  /** `SendDeleteActivity`. The sharers' outcomes are only logged. */
  method SendDeleteActivity(env: DeleteEnv, req: DeleteRequest) returns (resp: GeneralResponse, effects: seq<Effect>)
    ensures resp == DeleteResult(env, req).0
    ensures effects == DeleteResult(env, req).1
  {
    effects := [];
    var user := env.getUser(req.userId);
    if user.None? {
      return GeneralResponse(ERROR, UserMissing), effects;
    }
    var article := env.getArticle(req.articleId);
    if article.None? {
      return GeneralResponse(ERROR, ArticleMissing), effects;
    }
    if article.value.authorId != req.userId {
      return GeneralResponse(ERROR_401, NotAuthor), effects;
    }
    var globalId := article.value.globalId;
    effects := effects + [ReadSharers(globalId)];
    var sharerIds := env.sharersOf(globalId);
    effects := effects + [DeleteArticle(globalId)];
    if !env.deleteArticle(globalId) {
      return GeneralResponse(ERROR, DeleteFailed), effects;
    }
    var deleteObj := env.util.buildDelete(user.value, article.value, env.hostname);
    effects := effects + [Forward(req.userId, deleteObj)];
    var err := env.util.forwardToFollowers(req.userId, deleteObj);
    if err.Some? {
      return GeneralResponse(ERROR, err.value), effects;
    }
    ghost var before := effects;
    for i := 0 to |sharerIds|
      invariant effects == before + ForwardAll(sharerIds[..i], deleteObj)
    {
      assert sharerIds[..i + 1][..i] == sharerIds[..i];
      effects := effects + [Forward(sharerIds[i], deleteObj)];
      var sharerErr := env.util.forwardToFollowers(sharerIds[i], deleteObj);
    }
    assert sharerIds[..|sharerIds|] == sharerIds;
    resp := GeneralResponse(OK, "");
  }

  /** Nothing happens before the requester is known to be the article's author;
      anyone else gets a 401. */
  lemma DeleteOnlyByAuthor(env: DeleteEnv, req: DeleteRequest)
    ensures DeleteResult(env, req).1 != [] ==>
      && env.getUser(req.userId).Some?
      && env.getArticle(req.articleId).Some?
      && env.getArticle(req.articleId).value.authorId == req.userId
    ensures env.getUser(req.userId).Some? && env.getArticle(req.articleId).Some? &&
            env.getArticle(req.articleId).value.authorId != req.userId ==>
      DeleteResult(env, req) == (GeneralResponse(ERROR_401, NotAuthor), [])
  {
  }

  /** The sharers are read before the article is deleted, and nothing is
      forwarded after a failed local delete. */
  lemma SharersReadFirst(env: DeleteEnv, req: DeleteRequest)
    ensures var effects := DeleteResult(env, req).1;
      effects != [] ==>
        && |effects| >= 2 && effects[0].ReadSharers? && effects[1].DeleteArticle?
        && effects[0].articleId == effects[1].articleId == env.getArticle(req.articleId).value.globalId
        && (!env.deleteArticle(effects[1].articleId) ==>
              DeleteResult(env, req).0 == GeneralResponse(ERROR, DeleteFailed) && |effects| == 2)
  {
  }

  /** Once the author's followers have been told, the request succeeds whatever
      happens at the sharers' followers, each of whom is sent the same Delete.
      A failure at the author's followers stops before any sharer. */
  lemma SharerFailuresIgnored(env: DeleteEnv, req: DeleteRequest)
    requires env.getUser(req.userId).Some? && env.getArticle(req.articleId).Some?
    requires env.getArticle(req.articleId).value.authorId == req.userId
    requires env.deleteArticle(env.getArticle(req.articleId).value.globalId)
    ensures var user := env.getUser(req.userId).value;
      var article := env.getArticle(req.articleId).value;
      var obj := env.util.buildDelete(user, article, env.hostname);
      var sharers := env.sharersOf(article.globalId);
      var (resp, effects) := DeleteResult(env, req);
      && (env.util.forwardToFollowers(req.userId, obj).None? ==>
            resp == GeneralResponse(OK, "") && |effects| == 3 + |sharers| &&
            forall i :: 0 <= i < |sharers| ==> effects[3 + i] == Forward(sharers[i], obj))
      && (env.util.forwardToFollowers(req.userId, obj).Some? ==>
            resp == GeneralResponse(ERROR, env.util.forwardToFollowers(req.userId, obj).value) &&
            |effects| == 3 && effects[2] == Forward(req.userId, obj))
  {
    var user := env.getUser(req.userId).value;
    var article := env.getArticle(req.articleId).value;
    var obj := env.util.buildDelete(user, article, env.hostname);
    var sharers := env.sharersOf(article.globalId);
    var effects := DeleteResult(env, req).1;
    if env.util.forwardToFollowers(req.userId, obj).None? {
      var head := [ReadSharers(article.globalId), DeleteArticle(article.globalId), Forward(req.userId, obj)];
      assert effects == head + ForwardAll(sharers, obj);
      forall i | 0 <= i < |sharers|
        ensures effects[3 + i] == Forward(sharers[i], obj)
      {
        assert effects[3 + i] == ForwardAll(sharers, obj)[i];
      }
    }
  }
}
