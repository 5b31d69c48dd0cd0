/**
 * The endpoint's handler: it reads the instance settings, chooses a strategy
 * and returns a list of packed accounts (or passed-through engine
 * descriptors). Everything the handler asks of the outside world (settings,
 * configuration, the follow graph, the hidden-user list, the users
 * collection, the clock, the HTTP client, remote resolution and packing) is
 * a parameter.
 */
module Recommendation {
  import opened Wrappers
  import opened Params
  import opened Users
  import opened Ranking
  import opened UrlTemplate
  import opened Reconcile

  /** The instance settings the handler reads (`fetchMeta()`). */
  datatype Meta = Meta(
    enableExternalUserRecommendation: bool,
    externalUserRecommendationEngine: string,
    externalUserRecommendationTimeout: int)

  /** Why the call to the external engine failed; it reaches the caller unchanged. */
  datatype RequestError = Timeout | ConnectionFailed | BadStatus(code: int) | MalformedBody

  /** The handler's collaborators, each as the value or function it provides. */
  datatype Services<P> = Services(
    hostname: string,                                              // config.hostname
    friendIds: UserId -> seq<UserId>,                              // getFriendIds: the user and everyone it follows
    hideUserIds: Option<LocalUser> -> seq<UserId>,                 // getHideUserIds
    population: seq<User>,                                         // the users collection
    now: int,                                                      // Date.now()
    request: (string, int) -> Result<seq<RecommendUser>, RequestError>,  // GET url with a timeout
    resolveUser: Resolver,
    pack: Packer<P>)

  /** The two strategies. */
  datatype Strategy = External(requester: LocalUser) | Internal

  /** The external engine is used only when it is enabled and someone is signed in. */
  function SelectStrategy(instance: Meta, me: Option<LocalUser>): (s: Strategy)
    ensures s.External? <==> instance.enableExternalUserRecommendation && me.Some?
    ensures s.External? ==> s.requester == me.value
  {
    if instance.enableExternalUserRecommendation && me.Some? then External(me.value) else Internal
  }

  /** `followingIds`: the requester and everyone it follows, or nobody for an anonymous request. */
  function FollowingIds<P>(me: Option<LocalUser>, env: Services<P>): (r: seq<UserId>)
    ensures me.None? ==> r == []
    ensures me.Some? ==> r == env.friendIds(me.value.id)
  {
    if me.Some? then env.friendIds(me.value.id) else []
  }

  /** `followingIds.concat(hideUserIds)`. */
  function Excluded<P>(me: Option<LocalUser>, env: Services<P>): (r: seq<UserId>)
    ensures forall id :: id in r <==> id in FollowingIds(me, env) || id in env.hideUserIds(me)
  {
    FollowingIds(me, env) + env.hideUserIds(me)
  }

  /** An anonymous request excludes exactly the hidden accounts. */
  lemma AnonymousExcludesHiddenOnly<P>(env: Services<P>)
    ensures Excluded(None, env) == env.hideUserIds(None)
  {
    assert [] + env.hideUserIds(None) == env.hideUserIds(None);
  }

  /** The users the internal strategy picks, before packing. */
  function InternalUsers<P>(ps: Params, me: Option<LocalUser>, env: Services<P>): (r: seq<User>)
    requires Valid(ps)
    ensures forall u :: u in r ==> u in env.population && Eligible(u, env.now - FiveDays, Excluded(me, env))
  {
    RankedAreEligible(env.population, env.now - FiveDays, Excluded(me, env), ps.limit, ps.offset);
    Rank(env.population, env.now - FiveDays, Excluded(me, env), ps.limit, ps.offset)
  }

  /** `users.map(user => pack(user._id, me, { detail: true }))`. */
  function PackAll<P>(users: seq<User>, me: Option<LocalUser>, pack: Packer<P>): (r: seq<Entry<P>>)
    ensures |r| == |users|
    ensures forall i :: 0 <= i < |users| ==> r[i] == Packed(pack(users[i].id, me))
  {
    if users == [] then [] else [Packed(pack(users[0].id, me))] + PackAll(users[1..], me, pack)
  }

  /** The engine URL for a signed-in requester. */
  function EngineUrl<P>(instance: Meta, me: LocalUser, ps: Params, env: Services<P>): (r: string)
    requires Valid(ps)
  {
    Fill(instance.externalUserRecommendationEngine, env.hostname, me.username, ps.limit, ps.offset)
  }

  /** The handler. */
  function Recommend<P>(ps: Params, me: Option<LocalUser>, instance: Meta, env: Services<P>): (r: Result<seq<Entry<P>>, RequestError>)
    requires Valid(ps)
    ensures r.Failure? ==> instance.enableExternalUserRecommendation && me.Some?
  {
    match SelectStrategy(instance, me)
    case External(user) =>
      (match env.request(EngineUrl(instance, user, ps, env), instance.externalUserRecommendationTimeout)
       case Failure(e) => Failure(e)
       case Success(body) => Success(ConvertUsers(body, user, env.resolveUser, env.pack)))
    case Internal =>
      Success(PackAll(InternalUsers(ps, me, env), me, env.pack))
  }

  /**
   * Without the setting or without a requester the internal ranking answers,
   * always successfully, with at most `limit` accounts, and with none once
   * `offset` reaches `limit`.
   */
  lemma InternalPath<P>(ps: Params, me: Option<LocalUser>, instance: Meta, env: Services<P>)
    requires Valid(ps)
    requires !(instance.enableExternalUserRecommendation && me.Some?)
    ensures var r := Recommend(ps, me, instance, env);
            && r.Success?
            && r.value == PackAll(InternalUsers(ps, me, env), me, env.pack)
            && |r.value| <= ps.limit
            && (ps.offset >= ps.limit ==> r.value == [])
  {
    RankedWindow(env.population, env.now - FiveDays, Excluded(me, env), ps.limit, ps.offset);
  }

  /** An anonymous request never reaches the external engine, whatever the settings. */
  lemma AnonymousIsInternal<P>(ps: Params, instance: Meta, env: Services<P>)
    requires Valid(ps)
    ensures Recommend(ps, None, instance, env) == Success(PackAll(InternalUsers(ps, None, env), None, env.pack))
  {
    InternalPath(ps, None, instance, env);
  }

  /** With the setting on and a requester, a failed engine call fails the whole request, with no fallback. */
  lemma ExternalFailurePropagates<P>(ps: Params, me: LocalUser, instance: Meta, env: Services<P>)
    requires Valid(ps) && instance.enableExternalUserRecommendation
    requires env.request(EngineUrl(instance, me, ps, env), instance.externalUserRecommendationTimeout).Failure?
    ensures Recommend(ps, Some(me), instance, env)
            == Failure(env.request(EngineUrl(instance, me, ps, env), instance.externalUserRecommendationTimeout).error)
  {
  }

  /**
   * With the setting on and a requester, a successful engine call yields one
   * entry per descriptor, in the engine's order; nothing truncates it to `limit`.
   */
  lemma ExternalSuccess<P>(ps: Params, me: LocalUser, instance: Meta, env: Services<P>)
    requires Valid(ps) && instance.enableExternalUserRecommendation
    requires env.request(EngineUrl(instance, me, ps, env), instance.externalUserRecommendationTimeout).Success?
    ensures var body := env.request(EngineUrl(instance, me, ps, env), instance.externalUserRecommendationTimeout).value;
            var r := Recommend(ps, Some(me), instance, env);
            && r.Success? && |r.value| == |body|
            && forall i :: 0 <= i < |body| ==>
                 r.value[i] == (if env.resolveUser(body[i].username, body[i].host).None? then Unresolved(body[i])
                                else Packed(env.pack(env.resolveUser(body[i].username, body[i].host).value, Some(me))))
  {
  }

  /**
   * Every account the internal strategy returns was updated in the last five
   * days, has at least 10 followers, followees and notes, is not a bot, and
   * has a balance strictly between 0.5 and 5.
   */
  lemma InternalThresholds<P>(ps: Params, me: Option<LocalUser>, env: Services<P>, u: User)
    requires Valid(ps) && u in InternalUsers(ps, me, env)
    ensures u in env.population
    ensures u.updatedAt >= env.now - FiveDays
    ensures u.followersCount >= 10 && u.followingCount >= 10 && u.notesCount >= 10
    ensures !u.isBot
    ensures 2 * u.followingCount > u.followersCount && u.followingCount < 5 * u.followersCount
  {
  }

  /** The same balance bounds, read as the ratio the source computes. */
  lemma InternalBalance<P>(ps: Params, me: Option<LocalUser>, env: Services<P>, u: User)
    requires Valid(ps) && u in InternalUsers(ps, me, env)
    ensures u.followersCount > 0 && 0.5 < Balance(u) < 5.0
  {
    InternalThresholds(ps, me, env, u);
    BalanceBoundsAreExact(u);
  }

  /**
   * The internal strategy never returns a hidden account nor one the
   * requester follows; since the follow list includes the requester itself,
   * it never returns the requester either.
   */
  lemma InternalExclusions<P>(ps: Params, me: Option<LocalUser>, env: Services<P>, u: User)
    requires Valid(ps) && u in InternalUsers(ps, me, env)
    ensures u.id !in env.hideUserIds(me)
    ensures me.Some? ==> u.id !in env.friendIds(me.value.id)
    ensures me.Some? && me.value.id in env.friendIds(me.value.id) ==> u.id != me.value.id
  {
  }

  /** The internal strategy's accounts are ordered by follower count, most followed first. */
  lemma InternalOrder<P>(ps: Params, me: Option<LocalUser>, env: Services<P>)
    requires Valid(ps)
    ensures var users := InternalUsers(ps, me, env);
            forall i, j :: 0 <= i < j < |users| ==> users[i].followersCount >= users[j].followersCount
  {
    RankedInFollowerOrder(env.population, env.now - FiveDays, Excluded(me, env), ps.limit, ps.offset);
  }
}
