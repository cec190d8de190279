/** services/activities/undo/send_undo_servicer.py: a local user takes back a
    like. An ActivityPub `Undo` of the `Like` (section 7.10 of the W3C
    ActivityPub Recommendation) is sent to the inbox of the liked article's
    author. Failures are raised as `SendUndoException` and turned into an
    ERROR response carrying the exception's text. */
module SendUndo {
  import opened Wrappers
  import opened Strings
  import opened Proto
  import opened Activity

  /** `undo_pb2.LikeUndoDetails`. */
  datatype LikeUndoRequest = LikeUndoRequest(articleId: int, likerHandle: string)

  datatype SendUndoEnv = SendUndoEnv(
    util: ActivUtil,
    /** The servicer's hostname. */
    hostname: string,
    /** The posts FIND request matching `global_id`. */
    findPost: int -> PostsResponse,
    /** `get_user_from_db(global_id=...)`. */
    getUser: int -> Option<UsersEntry>)

  const AuthorMissing := "Error getting author"

  /** `_get_article`: the one entry of a successful lookup; otherwise the text
      of the exception it raises. */
  function GetArticle(resp: PostsResponse): (r: Result<PostsEntry, string>)
    ensures r.Ok? <==> resp.resultType == OK && |resp.results| == 1
    ensures r.Ok? ==> r.value == resp.results[0]
    ensures resp.resultType != OK ==> r == Err(resp.error)
    ensures resp.resultType == OK && |resp.results| != 1 ==>
      r == Err("Expecting 1 result, got " + FormatNat(|resp.results|))
  {
    if resp.resultType != OK then Err(resp.error)
    else if |resp.results| != 1 then Err("Expecting 1 result, got " + FormatNat(|resp.results|))
    else Ok(resp.results[0])
  }

  /** The author as the servicer leaves it: an empty host (a local author) is
      replaced by this server's hostname. */
  function WithHost(author: UsersEntry, hostname: string): (a: UsersEntry)
    ensures a.host == if author.host == "" then hostname else author.host
    ensures a.(host := author.host) == author
  {
    if author.host == "" then author.(host := hostname) else author
  }

  /** `_build_like_undo_object`. */
  function LikeUndoObject(env: SendUndoEnv, likerHandle: string, author: UsersEntry, article: PostsEntry): Json {
    env.util.buildUndo(env.util.buildLike(env.util.buildActor(likerHandle, env.hostname),
                                          env.util.buildArticleApId(author, article)))
  }

  /** `SendLikeUndoActivity` as a value: the response, and the activity and
      inbox when it got as far as sending. An empty error counts as success, as
      `if err:` reads it. */
  function LikeUndoResult(env: SendUndoEnv, req: LikeUndoRequest): (GeneralResponse, Option<(Json, string)>) {
    match GetArticle(env.findPost(req.articleId))
    case Err(e) => (GeneralResponse(ERROR, e), None)
    case Ok(article) =>
      match env.getUser(article.authorId)
      case None => (GeneralResponse(ERROR, AuthorMissing), None)
      case Some(found) =>
        var author := WithHost(found, env.hostname);
        var undo := LikeUndoObject(env, req.likerHandle, author, article);
        var inbox := env.util.buildInboxUrl(author.handle, author.host);
        match env.util.sendActivity(undo, inbox)
        case Some(err) =>
          if err != "" then (GeneralResponse(ERROR, err), Some((undo, inbox))) else (GeneralResponse(OK, ""), Some((undo, inbox)))
        case None => (GeneralResponse(OK, ""), Some((undo, inbox)))
  }

  /** `SendLikeUndoActivity`, with the author's host overwritten in place. */
  method SendLikeUndoActivity(env: SendUndoEnv, req: LikeUndoRequest)
    returns (resp: GeneralResponse, sent: Option<(Json, string)>)
    ensures resp == LikeUndoResult(env, req).0
    ensures sent == LikeUndoResult(env, req).1
  {
    sent := None;
    var article := GetArticle(env.findPost(req.articleId));
    if article.Err? {
      return GeneralResponse(ERROR, article.error), sent;
    }
    var found := env.getUser(article.value.authorId);
    if found.None? {
      return GeneralResponse(ERROR, AuthorMissing), sent;
    }
    var author := found.value;
    if author.host == "" {
      author := author.(host := env.hostname);
    }
    var undoObj := LikeUndoObject(env, req.likerHandle, author, article.value);
    var inbox := env.util.buildInboxUrl(author.handle, author.host);
    sent := Some((undoObj, inbox));
    var err := env.util.sendActivity(undoObj, inbox);
    if err.Some? && err.value != "" {
      return GeneralResponse(ERROR, err.value), sent;
    }
    resp := GeneralResponse(OK, "");
  }

  /** The undo goes to the author's inbox, on this server when the author is
      local, and its object names the liked article and its author, whose empty
      host has been filled in. */
  lemma UndoAddressedToAuthor(env: SendUndoEnv, req: LikeUndoRequest)
    requires LikeUndoResult(env, req).1.Some?
    ensures var article := GetArticle(env.findPost(req.articleId)).value;
      var found := env.getUser(article.authorId).value;
      var host := if found.host == "" then env.hostname else found.host;
      var author := found.(host := host);
      LikeUndoResult(env, req).1.value ==
        (LikeUndoObject(env, req.likerHandle, author, article), env.util.buildInboxUrl(found.handle, host))
  {
  }

  /** Every failure is an ERROR with the exception's text and sends nothing
      unless it is the send itself that failed; success means the send reported
      no error. */
  lemma UndoOutcome(env: SendUndoEnv, req: LikeUndoRequest)
    ensures LikeUndoResult(env, req).0.resultType in {OK, ERROR}
    ensures LikeUndoResult(env, req).1.None? ==> LikeUndoResult(env, req).0.resultType == ERROR
    ensures LikeUndoResult(env, req).0.resultType == OK <==>
      && LikeUndoResult(env, req).1.Some?
      && var (undo, inbox) := LikeUndoResult(env, req).1.value;
         env.util.sendActivity(undo, inbox) in {None, Some("")}
    ensures GetArticle(env.findPost(req.articleId)).Ok? && env.getUser(GetArticle(env.findPost(req.articleId)).value.authorId).None? ==>
      LikeUndoResult(env, req) == (GeneralResponse(ERROR, AuthorMissing), None)
  {
  }
}
