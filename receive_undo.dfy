/** services/activities/undo/receive_undo_servicer.py: another server reports
    that one of its users took back a like. The like is removed here, and if
    the liked article's author is local the Undo is forwarded to the author's
    followers. */
module ReceiveUndo {
  import opened Wrappers
  import opened Proto
  import opened Activity

  /** `undo_pb2.ReceivedLikeUndoDetails`. */
  datatype ReceivedLikeUndo = ReceivedLikeUndo(likingUserApId: string, likedObjectApId: string)

  /** The keyword arguments of `get_user_from_db(handle=, host=, host_is_null=)`. */
  datatype UserLookup = UserLookup(handle: string, host: Option<string>, hostIsNull: bool)

  datatype ReceiveUndoEnv = ReceiveUndoEnv(
    util: ActivUtil,
    /** The servicer's hostname. */
    hostname: string,
    /** `parse_actor(ap_id)`: the host and the handle, each `None` when absent. */
    parseActor: string -> (Option<string>, Option<string>),
    /** `get_host_name_param(host, hostname)`. */
    hostNameParam: (Option<string>, string) -> Option<string>,
    getUser: UserLookup -> Option<UsersEntry>,
    /** `get_article_by_ap_id(ap_id)`. */
    articleByApId: string -> Result<PostsEntry, string>,
    /** The database's `RemoveLike(user_id, article_id)`. */
    removeLike: (int, int) -> GeneralResponse,
    /** `user_is_local(global_id)`. */
    userIsLocal: int -> bool)

  datatype Effect = RemoveLike(userId: int, articleId: int) | Forward(userId: int, activity: Json)

  const RemoveFailed := "Error removing like from DB"

  /** `get_user`: nothing when the actor has no handle, otherwise the user
      with that handle at the normalised host (a null host when there is none). */
  function GetUser(env: ReceiveUndoEnv, userAp: string): (r: Option<UsersEntry>)
    ensures env.parseActor(userAp).1.None? ==> r.None?
    ensures env.parseActor(userAp).1.Some? ==>
      var host := env.hostNameParam(env.parseActor(userAp).0, env.hostname);
      r == env.getUser(UserLookup(env.parseActor(userAp).1.value, host, host.None?))
  {
    var (host0, handle) := env.parseActor(userAp);
    var host := env.hostNameParam(host0, env.hostname);
    match handle
    case None => None
    case Some(h) => env.getUser(UserLookup(h, host, host.None?))
  }

  /** `remove_like_from_db`: whether the database removed the like. */
  function RemoveLikeFromDb(env: ReceiveUndoEnv, userId: int, articleId: int): (ok: bool)
    ensures ok <==> env.removeLike(userId, articleId).resultType == OK
  {
    env.removeLike(userId, articleId).resultType == OK
  }

  /** `ReceiveLikeUndoActivity`: the response and the effects, in order. */
  function ReceiveLikeUndoActivity(env: ReceiveUndoEnv, req: ReceivedLikeUndo): (r: (GeneralResponse, seq<Effect>))
    ensures GetUser(env, req.likingUserApId).None? ==>
      r == (GeneralResponse(ERROR, "Couldn't get user: " + req.likingUserApId), [])
    ensures GetUser(env, req.likingUserApId).Some? && env.articleByApId(req.likedObjectApId).Err? ==>
      r == (GeneralResponse(ERROR, "Could not get article: " + req.likedObjectApId), [])
  {
    match GetUser(env, req.likingUserApId)
    case None => (GeneralResponse(ERROR, "Couldn't get user: " + req.likingUserApId), [])
    case Some(user) =>
      match env.articleByApId(req.likedObjectApId)
      case Err(_) => (GeneralResponse(ERROR, "Could not get article: " + req.likedObjectApId), [])
      case Ok(article) =>
        var removed := [RemoveLike(user.globalId, article.globalId)];
        if !RemoveLikeFromDb(env, user.globalId, article.globalId) then (GeneralResponse(ERROR, RemoveFailed), removed)
        else if env.userIsLocal(article.authorId) then
          var a := env.util.buildUndo(env.util.buildLike(req.likingUserApId, req.likedObjectApId));
          (GeneralResponse(OK, ""), removed + [Forward(article.authorId, a)])
        else (GeneralResponse(OK, ""), removed)
  }

  /** The like removed is the one of the resolved user on the resolved article,
      and a removal the database refuses fails the request with nothing more. */
  lemma UndoRemovesThatLike(env: ReceiveUndoEnv, req: ReceivedLikeUndo)
    requires ReceiveLikeUndoActivity(env, req).1 != []
    ensures GetUser(env, req.likingUserApId).Some? && env.articleByApId(req.likedObjectApId).Ok?
    ensures var user := GetUser(env, req.likingUserApId).value;
      var article := env.articleByApId(req.likedObjectApId).value;
      var (resp, effects) := ReceiveLikeUndoActivity(env, req);
      && effects[0] == RemoveLike(user.globalId, article.globalId)
      && (!RemoveLikeFromDb(env, user.globalId, article.globalId) ==>
            resp == GeneralResponse(ERROR, RemoveFailed) && |effects| == 1)
      && (RemoveLikeFromDb(env, user.globalId, article.globalId) ==> resp == GeneralResponse(OK, ""))
  {
  }

  /** The undo is forwarded, to the followers of the article's author, exactly
      when the like was removed and that author is local; the forwarding
      outcome does not affect the OK response. */
  lemma UndoForwardedForLocalAuthor(env: ReceiveUndoEnv, req: ReceivedLikeUndo)
    ensures (exists e :: e in ReceiveLikeUndoActivity(env, req).1 && e.Forward?) <==>
      && GetUser(env, req.likingUserApId).Some?
      && env.articleByApId(req.likedObjectApId).Ok?
      && RemoveLikeFromDb(env, GetUser(env, req.likingUserApId).value.globalId, env.articleByApId(req.likedObjectApId).value.globalId)
      && env.userIsLocal(env.articleByApId(req.likedObjectApId).value.authorId)
    ensures forall e :: e in ReceiveLikeUndoActivity(env, req).1 && e.Forward? ==>
      e.userId == env.articleByApId(req.likedObjectApId).value.authorId &&
      ReceiveLikeUndoActivity(env, req).0 == GeneralResponse(OK, "")
  {
    var effects := ReceiveLikeUndoActivity(env, req).1;
    if GetUser(env, req.likingUserApId).Some? && env.articleByApId(req.likedObjectApId).Ok? {
      var user := GetUser(env, req.likingUserApId).value;
      var article := env.articleByApId(req.likedObjectApId).value;
      if RemoveLikeFromDb(env, user.globalId, article.globalId) && env.userIsLocal(article.authorId) {
        assert effects[1] in effects;
      }
    }
  }
}
