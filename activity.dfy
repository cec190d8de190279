/** What the ActivityPub servicers under services/activities share: JSON
    values for the activities they build (section 7 of the W3C ActivityPub
    Recommendation), and the `ActivitiesUtil` helper and the other utility
    calls they make, as oracles (utils/activities.py, utils/articles.py and
    activities/like/like_util.py are not part of this model). */
module Activity {
  import opened Wrappers
  import opened Proto

  /** A JSON value as the servicers build it: a string, a list or a dict. */
  datatype Json = JStr(s: string) | JList(items: seq<Json>) | JObj(fields: map<string, Json>)

  datatype ActivUtil = ActivUtil(
    /** `ActivitiesUtil._hostname`, the host servicers fall back to. */
    hostname: string,
    /** `rabble_context()`, the `@context` of a sendable activity. */
    rabbleContext: Json,
    /** `build_actor(handle, host)`: the actor's ActivityPub id. */
    buildActor: (string, string) -> string,
    /** `build_inbox_url(handle, host)`. */
    buildInboxUrl: (string, string) -> string,
    /** `send_activity(activity, url)`: the error, `None` when it was sent. */
    sendActivity: (Json, string) -> Option<string>,
    /** `forward_activity_to_followers(user_id, activity)`: the error, or `None`. */
    forwardToFollowers: (int, Json) -> Option<string>,
    /** `build_local_article_url(author, article)`. */
    buildLocalArticleUrl: (UsersEntry, PostsEntry) -> string,
    /** `build_article_ap_id(author, article)`. */
    buildArticleApId: (UsersEntry, PostsEntry) -> string,
    /** `build_article(ap_id, title, timestamp, actor, content, summary, article_url=)`. */
    buildArticle: (string, string, string, string, string, string, Option<string>) -> Json,
    /** `timestamp_to_rfc(ts)`. */
    timestampToRfc: Option<Timestamp> -> string,
    /** `build_delete(user, article, hostname)`. */
    buildDelete: (UsersEntry, PostsEntry, string) -> Json,
    /** `build_undo(activity)`. */
    buildUndo: Json -> Json,
    /** `like_util.build_like_activity(actor, object)`. */
    buildLike: (string, string) -> Json)

  /** `hostname if hostname else activ_util._hostname`: the host a servicer
      is configured with. */
  function ServicerHost(u: ActivUtil, hostname: Option<string>): (h: string)
    ensures hostname.Some? && hostname.value != "" ==> h == hostname.value
    ensures hostname.None? || hostname.value == "" ==> h == u.hostname
  {
    match hostname
    case Some(h) => if h != "" then h else u.hostname
    case None => u.hostname
  }
}
