/** services/activities/follow/send_follow_servicer.py: turns a follow request
    between two users into an ActivityPub `Follow` activity (section 7.5 of the
    W3C ActivityPub Recommendation) and delivers it to the followed actor's
    inbox. */
module FollowActivity {
  import opened Wrappers
  import opened Proto
  import opened Services
  import opened Activity

  /** `s2s_follow_pb2.FollowActivityUser`. */
  datatype FollowActivityUser = FollowActivityUser(handle: string, host: string)

  /** `s2s_follow_pb2.FollowDetails`. */
  datatype FollowDetails = FollowDetails(follower: FollowActivityUser, followed: FollowActivityUser)

  const FollowKeys: set<string> := {"type", "actor", "object"}
  const SendableKeys: set<string> := {"type", "actor", "object", "@context", "to"}

  /** `_build_activity`: a Follow of `followedActor` by `followerActor`; a
      sendable one is addressed to the followed actor and carries the context,
      one to embed (in an Undo) has exactly the three core keys. */
  function BuildActivity(u: ActivUtil, followerActor: string, followedActor: string, sendable: bool): (d: map<string, Json>)
    ensures d.Keys == if sendable then SendableKeys else FollowKeys
    ensures d["type"] == JStr("Follow")
    ensures d["actor"] == JStr(followerActor)
    ensures d["object"] == JStr(followedActor)
    ensures sendable ==> d["@context"] == u.rabbleContext && d["to"] == JList([JStr(followedActor)])
  {
    var d := map["type" := JStr("Follow"), "actor" := JStr(followerActor), "object" := JStr(followedActor)];
    if sendable then d["@context" := u.rabbleContext]["to" := JList([JStr(followedActor)])] else d
  }

  /** The activity and the inbox `SendFollowActivity` delivers it to. */
  function Delivery(u: ActivUtil, req: FollowDetails): (Json, string) {
    var followerActor := u.buildActor(req.follower.handle, req.follower.host);
    var followedActor := u.buildActor(req.followed.handle, req.followed.host);
    (JObj(BuildActivity(u, followerActor, followedActor, true)), u.buildInboxUrl(req.followed.handle, req.followed.host))
  }

  /** The response of `SendFollowActivity`: OK exactly when delivery reports no
      error, and otherwise ERROR carrying that error. */
  function FollowActivityResult(u: ActivUtil, req: FollowDetails): (r: GeneralResponse)
    ensures var err := u.sendActivity(Delivery(u, req).0, Delivery(u, req).1);
      && (r.resultType == OK <==> err.None?)
      && (r.resultType != OK ==> r.resultType == ERROR && r.error == err.value)
      && (err.None? ==> r.error == "")
  {
    var (activity, inbox) := Delivery(u, req);
    match u.sendActivity(activity, inbox)
    case None => GeneralResponse(OK, "")
    case Some(err) => GeneralResponse(ERROR, err)
  }

  /** `SendFollowActivity`: also returns what was delivered. */
  method SendFollowActivity(u: ActivUtil, req: FollowDetails) returns (resp: Response, sent: (Json, string))
    ensures fresh(resp)
    ensures sent == Delivery(u, req)
    ensures resp.Value() == FollowActivityResult(u, req)
  {
    resp := new Response();
    var followerActor := u.buildActor(req.follower.handle, req.follower.host);
    var followedActor := u.buildActor(req.followed.handle, req.followed.host);
    var activity := JObj(BuildActivity(u, followerActor, followedActor, true));
    var inboxUrl := u.buildInboxUrl(req.followed.handle, req.followed.host);
    sent := (activity, inboxUrl);
    var err := u.sendActivity(activity, inboxUrl);
    if err.None? {
      resp.resultType := OK;
    } else {
      resp.Set(ERROR, err.value);
    }
  }

  /** The delivered activity is a Follow from the follower's actor to the
      followed one, addressed to the followed actor and sent to its inbox. */
  lemma DeliveryNamesBothActors(u: ActivUtil, req: FollowDetails)
    ensures var (activity, inbox) := Delivery(u, req);
      var followedActor := u.buildActor(req.followed.handle, req.followed.host);
      && activity.JObj?
      && activity.fields["type"] == JStr("Follow")
      && activity.fields["actor"] == JStr(u.buildActor(req.follower.handle, req.follower.host))
      && activity.fields["object"] == JStr(followedActor)
      && activity.fields["to"] == JList([JStr(followedActor)])
      && inbox == u.buildInboxUrl(req.followed.handle, req.followed.host)
  {
  }
}
