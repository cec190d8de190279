/** services/follows: the follows service. `SendFollowRequest` records a local
    user's request to follow someone, local or foreign (a foreign follow is
    delivered as an ActivityPub `Follow`, section 7.5 of the W3C ActivityPub
    Recommendation, and rolled back when delivery fails);
    `ReceiveFollowRequest` and `ReceiveUnfollow` record follows arriving from
    other servers. The database and the other services are oracles in `Env`;
    each handler also returns the calls it made, in order. */
module Follows {
  import opened Wrappers
  import opened Proto
  import opened Services

  /** `database_pb2.Follow.State`. */
  datatype FollowState = ACTIVE | PENDING

  /** The keyword arguments of a `users_util` user lookup. */
  datatype UserQuery = UserQuery(handle: Option<string>, host: Option<string>, hostIsNull: bool, bio: string)

  /** `s2s_follow_pb2.FollowDetails`. */
  datatype FollowDetails = FollowDetails(followerHandle: Option<string>, followerHost: string,
                                         followedHandle: Option<string>, followedHost: Option<string>)

  /** What `get_actor_details` returns that is used: the host (`None` when the
      actor cannot be fetched) and the bio. */
  datatype ActorDetails = ActorDetails(host: Option<string>, bio: string)

  /** The outcome of `validate_and_get_users`: the response as it left it, and
      the two users, each `None` when it could not be found. */
  datatype Validation = Validation(resp: GeneralResponse, localUser: Option<UsersEntry>, foreignUser: Option<UsersEntry>)

  datatype Call =
    | GetOrCreateUser(q: UserQuery)
    | GetUser(q: UserQuery)
    | GetActorDetails(handle: Option<string>, host: Option<string>)
    | CreateFollow(follower: int, followed: int, state: FollowState)
    | DeleteFollow(follower: int, followed: int)
    | DeleteUser(globalId: int)
    | SendFollowActivity(details: FollowDetails)
    | AttemptToAccept(localUser: int, foreignUser: int)
    | UpdateFollowRecommendations(follower: int, followed: int, following: bool)

  datatype Env = Env(
    hostName: string,
    parseUsername: string -> (Option<string>, Option<string>),
    getOrCreateUser: UserQuery -> Option<UsersEntry>,
    getUser: UserQuery -> Option<UsersEntry>,
    actorDetails: (Option<string>, Option<string>) -> ActorDetails,
    createFollow: (int, int, FollowState) -> GeneralResponse,
    deleteFollow: (int, int) -> GeneralResponse,
    sendFollowActivity: FollowDetails -> GeneralResponse,
    hasRecommender: bool)

  const ParseFailedMessage := "Could not parse followed username"
  const InvalidForeignMessage := "Invalid foreign user to follow"
  const AddFollowMessage := "Could not add requested follow to database"
  const DeleteFollowMessage := "Could not delete requested follow from database"

  function NotFoundMessage(handle: Option<string>, host: Option<string>): string {
    "Could not find or create user " + ShowOpt(handle) + "@" + ShowOpt(host)
  }

  // --------------------------------------------------------- send_follow.py

  /** The state `_add_follow` stores. */
  function FollowStateFor(isPrivateFollowed: bool, isForeign: bool): (s: FollowState)
    ensures s == PENDING <==> isForeign || isPrivateFollowed
  {
    if isForeign || isPrivateFollowed then PENDING else ACTIVE
  }

  /** `_add_follow`: stores the follow and, on a database error, marks `resp`
      and returns its error. */
  method AddFollow(env: Env, resp: Response, followerId: int, followedId: int, isPrivateFollowed: bool, isForeign: bool)
    returns (err: Option<string>, calls: seq<Call>)
    modifies resp
    ensures calls == [CreateFollow(followerId, followedId, FollowStateFor(isPrivateFollowed, isForeign))]
    ensures env.createFollow(followerId, followedId, FollowStateFor(isPrivateFollowed, isForeign)).resultType == ERROR ==>
      err == Some(AddFollowMessage) && resp.resultType == ERROR && resp.error == AddFollowMessage
    ensures env.createFollow(followerId, followedId, FollowStateFor(isPrivateFollowed, isForeign)).resultType != ERROR ==>
      err == None && resp.resultType == old(resp.resultType) && resp.error == old(resp.error)
  {
    var state := ACTIVE;
    if isForeign || isPrivateFollowed {
      state := PENDING;
    }
    calls := [CreateFollow(followerId, followedId, state)];
    var followResp := env.createFollow(followerId, followedId, state);
    if followResp.resultType == ERROR {
      resp.Set(ERROR, AddFollowMessage);
      return Some(resp.error), calls;
    }
    err := None;
  }

  /** `_roll_back_follow`: the follow row goes, and the followed user too when
      this request created it. */
  function RollBackFollow(followerId: int, followedId: int, userCreated: bool): (calls: seq<Call>)
    ensures |calls| > 0 && calls[0] == DeleteFollow(followerId, followedId)
    ensures DeleteUser(followedId) in calls <==> userCreated
    ensures forall c :: c in calls ==> c.DeleteFollow? || c.DeleteUser?
  {
    [DeleteFollow(followerId, followedId)] + (if userCreated then [DeleteUser(followedId)] else [])
  }

  /** The request `_send_s2s` sends. */
  function S2SDetails(env: Env, fromHandle: Option<string>, toHandle: Option<string>, toHost: Option<string>): FollowDetails {
    FollowDetails(fromHandle, env.hostName, toHandle, toHost)
  }

  /** `_send_s2s`: the error text when the follow activity service answers
      `ERROR`; any other result type counts as delivered. */
  function SendS2S(env: Env, fromHandle: Option<string>, toHandle: Option<string>, toHost: Option<string>): (err: Option<string>)
    ensures var r := env.sendFollowActivity(S2SDetails(env, fromHandle, toHandle, toHost));
      (err.Some? <==> r.resultType == ERROR) && (err.Some? ==> err.value == r.error)
  {
    var r := env.sendFollowActivity(S2SDetails(env, fromHandle, toHandle, toHost));
    if r.resultType == ERROR then Some(r.error) else None
  }

  /** The `created_user` flag as written: set for every foreign target, even one
      `get_user_from_db` has just found. */
  function CreatedUserAsWritten(isLocal: bool, existing: Option<UsersEntry>): (created: bool)
    ensures created <==> !isLocal
  {
    !isLocal
  }

  /** The flag as intended: the foreign user was not in the database before. */
  function CreatedUser(isLocal: bool, existing: Option<UsersEntry>): (created: bool)
    ensures created ==> !isLocal && existing.None?
  {
    !isLocal && existing.None?
  }

  /** With the flag as written, rolling back a follow of a foreign user who was
      already stored deletes that user. */
  lemma RollBackDeletesExistingUser(followerId: int, followedId: int, existing: Option<UsersEntry>)
    requires existing.Some?
    ensures DeleteUser(followedId) in RollBackFollow(followerId, followedId, CreatedUserAsWritten(false, existing))
  {
  }

  /** With the flag as intended, a user who was already stored is never deleted. */
  lemma RollBackKeepsExistingUser(followerId: int, followedId: int, isLocal: bool, existing: Option<UsersEntry>)
    requires existing.Some?
    ensures DeleteUser(followedId) !in RollBackFollow(followerId, followedId, CreatedUser(isLocal, existing))
  {
  }

  /** The follower lookup: a user with no instance is local. */
  function FollowerQuery(env: Env, follower: string): UserQuery {
    var (fromHandle, fromInstance) := env.parseUsername(follower);
    UserQuery(fromHandle, fromInstance, fromInstance.None?, "")
  }

  /** The lookup of the followed user that precedes any creation. */
  function ExistingQuery(env: Env, followed: string): UserQuery {
    var (toHandle, toInstance) := env.parseUsername(followed);
    UserQuery(toHandle, toInstance, toInstance.None?, "")
  }

  /** The creation lookup of a foreign followed user, with the bio fetched from
      its actor (`host_is_null` left at its default, false). */
  function ForeignQuery(env: Env, followed: string): UserQuery {
    var (toHandle, toInstance) := env.parseUsername(followed);
    UserQuery(toHandle, toInstance, false, env.actorDetails(toHandle, toInstance).bio)
  }

  /** The followed user's entry, once the actor details are known to be valid. */
  function FollowedEntry(env: Env, followed: string): Option<UsersEntry> {
    var (toHandle, toInstance) := env.parseUsername(followed);
    if toInstance.None? then env.getUser(ExistingQuery(env, followed)) else env.getOrCreateUser(ForeignQuery(env, followed))
  }

  /** `SendFollowRequest` as a value: the final response and the calls made. */
  function SendFollowResult(env: Env, follower: string, followed: string): (GeneralResponse, seq<Call>) {
    var (fromHandle, fromInstance) := env.parseUsername(follower);
    var (toHandle, toInstance) := env.parseUsername(followed);
    if toInstance.None? && toHandle.None? then (GeneralResponse(ERROR, ParseFailedMessage), [])
    else
      var c1 := [GetOrCreateUser(FollowerQuery(env, follower))];
      match env.getOrCreateUser(FollowerQuery(env, follower))
      case None => (GeneralResponse(ERROR, NotFoundMessage(fromHandle, fromInstance)), c1)
      case Some(fe) =>
        var isLocal := toInstance.None?;
        var c2 := c1 + [GetUser(ExistingQuery(env, followed))];
        if !isLocal && env.actorDetails(toHandle, toInstance).host.None? then
          (GeneralResponse(ERROR, InvalidForeignMessage), c2 + [GetActorDetails(toHandle, toInstance)])
        else
          var c3 := if isLocal then c2 else c2 + [GetActorDetails(toHandle, toInstance), GetOrCreateUser(ForeignQuery(env, followed))];
          match FollowedEntry(env, followed)
          case None => (GeneralResponse(ERROR, NotFoundMessage(toHandle, toInstance)), c3)
          case Some(te) =>
            var created := CreatedUser(isLocal, env.getUser(ExistingQuery(env, followed)));
            var (r, c) := FinishFollowResult(env, fe.globalId, te.globalId, IsPrivate(te), fromHandle, toHandle, toInstance, created);
            (r, c3 + c)
  }

  /** What `SendFollowRequest` does once both users are known, as a value: the
      follow is stored, a foreign one delivered (and rolled back when that
      fails), and the recommender told. */
  function FinishFollowResult(env: Env, followerId: int, followedId: int, isPrivateFollowed: bool,
                              fromHandle: Option<string>, toHandle: Option<string>, toInstance: Option<string>,
                              createdUser: bool): (GeneralResponse, seq<Call>) {
    var isLocal := toInstance.None?;
    var state := FollowStateFor(isPrivateFollowed, !isLocal);
    var c4 := [CreateFollow(followerId, followedId, state)];
    if env.createFollow(followerId, followedId, state).resultType == ERROR then
      (GeneralResponse(ERROR, AddFollowMessage), c4)
    else
      var c5 := if isLocal then c4 else c4 + [SendFollowActivity(S2SDetails(env, fromHandle, toHandle, toInstance))];
      var err := if isLocal then None else SendS2S(env, fromHandle, toHandle, toInstance);
      if err.Some? then
        (GeneralResponse(ERROR, err.value), c5 + RollBackFollow(followerId, followedId, createdUser))
      else
        (GeneralResponse(OK, ""),
         c5 + (if env.hasRecommender then [UpdateFollowRecommendations(followerId, followedId, true)] else []))
  }

  /** `SendFollowRequest(request)`, with the follower and followed usernames. */
  method SendFollowRequest(env: Env, follower: string, followed: string) returns (resp: Response, calls: seq<Call>)
    ensures fresh(resp)
    ensures resp.Value() == SendFollowResult(env, follower, followed).0
    ensures calls == SendFollowResult(env, follower, followed).1
  {
    resp := new Response();
    calls := [];
    var (fromHandle, fromInstance) := env.parseUsername(follower);
    var (toHandle, toInstance) := env.parseUsername(followed);
    if toInstance.None? && toHandle.None? {
      resp.Set(ERROR, ParseFailedMessage);
      return;
    }

    var fq := UserQuery(fromHandle, fromInstance, fromInstance.None?, "");
    calls := calls + [GetOrCreateUser(fq)];
    var followerEntry := env.getOrCreateUser(fq);
    if followerEntry.None? {
      resp.Set(ERROR, NotFoundMessage(fromHandle, fromInstance));
      return;
    }

    var isLocal := toInstance.None?;
    var createdUser := false;
    var gq := UserQuery(toHandle, toInstance, isLocal, "");
    calls := calls + [GetUser(gq)];
    var followedEntry := env.getUser(gq);
    if !isLocal {
      createdUser := CreatedUser(isLocal, followedEntry);
      calls := calls + [GetActorDetails(toHandle, toInstance)];
      var details := env.actorDetails(toHandle, toInstance);
      if details.host.None? {
        resp.Set(ERROR, InvalidForeignMessage);
        return;
      }
      var cq := UserQuery(toHandle, toInstance, false, details.bio);
      calls := calls + [GetOrCreateUser(cq)];
      followedEntry := env.getOrCreateUser(cq);
    }

    if followedEntry.None? {
      resp.Set(ERROR, NotFoundMessage(toHandle, toInstance));
      return;
    }
    var followerId := followerEntry.value.globalId;
    var followedId := followedEntry.value.globalId;

    var finished := FinishFollow(env, resp, followerId, followedId, IsPrivate(followedEntry.value),
                                 fromHandle, toHandle, toInstance, createdUser);
    calls := calls + finished;
  }

  /** The rest of `SendFollowRequest`, once both users are known. */
  method FinishFollow(env: Env, resp: Response, followerId: int, followedId: int, isPrivateFollowed: bool,
                      fromHandle: Option<string>, toHandle: Option<string>, toInstance: Option<string>,
                      createdUser: bool) returns (calls: seq<Call>)
    requires resp.error == ""
    modifies resp
    ensures var (r, c) := FinishFollowResult(env, followerId, followedId, isPrivateFollowed,
                                             fromHandle, toHandle, toInstance, createdUser);
      resp.Value() == r && calls == c
  {
    var isLocal := toInstance.None?;
    var err;
    err, calls := AddFollow(env, resp, followerId, followedId, isPrivateFollowed, !isLocal);
    if err.Some? {
      return;
    }

    if !isLocal {
      calls := calls + [SendFollowActivity(S2SDetails(env, fromHandle, toHandle, toInstance))];
      var s2sErr := SendS2S(env, fromHandle, toHandle, toInstance);
      if s2sErr.Some? {
        calls := calls + RollBackFollow(followerId, followedId, createdUser);
        resp.Set(ERROR, s2sErr.value);
        return;
      }
    }

    if env.hasRecommender {
      calls := calls + [UpdateFollowRecommendations(followerId, followedId, true)];
    }
    resp.resultType := OK;
  }

  /** An unparseable followed username fails before any call. */
  lemma SendFollowParseFailure(env: Env, follower: string, followed: string)
    requires env.parseUsername(followed) == (None, None)
    ensures SendFollowResult(env, follower, followed) == (GeneralResponse(ERROR, ParseFailedMessage), [])
  {
  }

  /** A stored follow links the two looked-up users, and is PENDING exactly when
      the followed user is foreign or private. */
  lemma SendFollowState(env: Env, follower: string, followed: string, a: int, b: int, s: FollowState)
    requires CreateFollow(a, b, s) in SendFollowResult(env, follower, followed).1
    ensures env.getOrCreateUser(FollowerQuery(env, follower)).Some?
    ensures FollowedEntry(env, followed).Some?
    ensures a == env.getOrCreateUser(FollowerQuery(env, follower)).value.globalId
    ensures b == FollowedEntry(env, followed).value.globalId
    ensures s == PENDING <==> env.parseUsername(followed).1.Some? || IsPrivate(FollowedEntry(env, followed).value)
  {
  }

  /** Success: every step went through, the follow was stored, and the
      recommender hears of it exactly when it is configured. */
  lemma SendFollowSuccess(env: Env, follower: string, followed: string)
    requires SendFollowResult(env, follower, followed).0.resultType == OK
    ensures var calls := SendFollowResult(env, follower, followed).1;
      && env.getOrCreateUser(FollowerQuery(env, follower)).Some?
      && FollowedEntry(env, followed).Some?
      && var a := env.getOrCreateUser(FollowerQuery(env, follower)).value.globalId;
         var b := FollowedEntry(env, followed).value.globalId;
         && (exists s :: CreateFollow(a, b, s) in calls)
         && (UpdateFollowRecommendations(a, b, true) in calls <==> env.hasRecommender)
         && (forall c :: c in calls ==> !c.DeleteFollow? && !c.DeleteUser?)
  {
    var calls := SendFollowResult(env, follower, followed).1;
    var a := env.getOrCreateUser(FollowerQuery(env, follower)).value.globalId;
    var b := FollowedEntry(env, followed).value.globalId;
    var isLocal := env.parseUsername(followed).1.None?;
    var te := FollowedEntry(env, followed).value;
    assert CreateFollow(a, b, FollowStateFor(IsPrivate(te), !isLocal)) in calls;
  }

  /** Only a failed delivery to a foreign server rolls a follow back, and the
      error of the delivery is the error of the request. */
  lemma SendFollowRollBack(env: Env, follower: string, followed: string)
    requires exists c :: c in SendFollowResult(env, follower, followed).1 && c.DeleteFollow?
    ensures var (th, ti) := env.parseUsername(followed);
      var (fh, fi) := env.parseUsername(follower);
      && ti.Some?
      && SendS2S(env, fh, th, ti).Some?
      && SendFollowResult(env, follower, followed).0 == GeneralResponse(ERROR, SendS2S(env, fh, th, ti).value)
  {
  }

  /** With the corrected flag, a follower's request never deletes a followed
      user that was already stored, whatever the delivery answers. */
  lemma SendFollowKeepsStoredUser(env: Env, follower: string, followed: string)
    requires env.getUser(ExistingQuery(env, followed)).Some?
    ensures forall c :: c in SendFollowResult(env, follower, followed).1 ==> !c.DeleteUser?
  {
  }

  // ------------------------------------------------------- receive_follow.py

  /** `ReceiveFollowRequest`, given the outcome of `validate_and_get_users`. */
  method ReceiveFollowRequest(env: Env, v: Validation) returns (resp: Response, calls: seq<Call>)
    ensures fresh(resp)
    ensures v.localUser.None? || v.foreignUser.None? ==> resp.Value() == v.resp && calls == []
    ensures v.localUser.Some? && v.foreignUser.Some? ==>
      var l := v.localUser.value;
      var f := v.foreignUser.value;
      var state := if IsPrivate(l) then PENDING else ACTIVE;
      var stored := [CreateFollow(f.globalId, l.globalId, state)];
      var accepted := if IsPrivate(l) then [] else [AttemptToAccept(l.globalId, f.globalId)];
      && (env.createFollow(f.globalId, l.globalId, state).resultType == ERROR ==>
            resp.resultType == ERROR && resp.error == AddFollowMessage && calls == accepted + stored)
      && (env.createFollow(f.globalId, l.globalId, state).resultType != ERROR ==>
            resp.resultType == OK && resp.error == v.resp.error &&
            calls == accepted + stored +
              (if env.hasRecommender then [UpdateFollowRecommendations(f.globalId, l.globalId, true)] else []))
  {
    resp := new Response();
    resp.Set(v.resp.resultType, v.resp.error);
    calls := [];
    if v.foreignUser.None? || v.localUser.None? {
      return;
    }
    var localUser := v.localUser.value;
    var foreignUser := v.foreignUser.value;

    if !IsPrivate(localUser) {
      calls := calls + [AttemptToAccept(localUser.globalId, foreignUser.globalId)];
    }

    var state := ACTIVE;
    if IsPrivate(localUser) {
      state := PENDING;
    }

    calls := calls + [CreateFollow(foreignUser.globalId, localUser.globalId, state)];
    var followResp := env.createFollow(foreignUser.globalId, localUser.globalId, state);
    if followResp.resultType == ERROR {
      resp.Set(ERROR, AddFollowMessage);
      return;
    }

    if env.hasRecommender {
      calls := calls + [UpdateFollowRecommendations(foreignUser.globalId, localUser.globalId, true)];
    }
    resp.resultType := OK;
  }

  // ----------------------------------------------------- receive_unfollow.py

  /** `ReceiveUnfollow`, given the outcome of `validate_and_get_users`. */
  method ReceiveUnfollow(env: Env, v: Validation) returns (resp: Response, calls: seq<Call>)
    ensures fresh(resp)
    ensures v.localUser.None? || v.foreignUser.None? ==> resp.Value() == v.resp && calls == []
    ensures v.localUser.Some? && v.foreignUser.Some? ==>
      var l := v.localUser.value;
      var f := v.foreignUser.value;
      && (env.deleteFollow(f.globalId, l.globalId).resultType == ERROR ==>
            resp.resultType == ERROR && resp.error == DeleteFollowMessage && calls == [DeleteFollow(f.globalId, l.globalId)])
      && (env.deleteFollow(f.globalId, l.globalId).resultType != ERROR ==>
            resp.resultType == OK && resp.error == v.resp.error &&
            calls == [DeleteFollow(f.globalId, l.globalId)] +
              (if env.hasRecommender then [UpdateFollowRecommendations(f.globalId, l.globalId, false)] else []))
  {
    resp := new Response();
    resp.Set(v.resp.resultType, v.resp.error);
    calls := [];
    if v.foreignUser.None? || v.localUser.None? {
      return;
    }
    var localUser := v.localUser.value;
    var foreignUser := v.foreignUser.value;

    calls := calls + [DeleteFollow(foreignUser.globalId, localUser.globalId)];
    var followResp := env.deleteFollow(foreignUser.globalId, localUser.globalId);
    if followResp.resultType == ERROR {
      resp.Set(ERROR, DeleteFollowMessage);
      return;
    }

    if env.hasRecommender {
      calls := calls + [UpdateFollowRecommendations(foreignUser.globalId, localUser.globalId, false)];
    }
    resp.resultType := OK;
  }
}
