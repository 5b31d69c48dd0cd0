/**
 * Identity reconciliation for the external strategy (`convertUsers`): each
 * descriptor the engine returned is resolved to an account by username and
 * host and packed for the requester; a descriptor whose resolution fails
 * (throws or yields nothing) is returned as it came. The per-item lookups run
 * concurrently in the source, but the results are joined by index, so the
 * model is a sequential, index-preserving map.
 */
module Reconcile {
  import opened Wrappers
  import opened Users

  /** One candidate as the external engine describes it (`IRecommendUser`). */
  datatype RecommendUser = RecommendUser(
    name: string,
    username: string,
    host: string,
    description: string,
    avatarUrl: string)

  /** An element of the endpoint's response: a packed account, or an engine descriptor passed through. */
  datatype Entry<P> = Packed(packed: P) | Unresolved(descriptor: RecommendUser)

  /** `resolveUser(username, host)`, with a thrown error and a null result both read as None. */
  type Resolver = (string, string) -> Option<UserId>

  /** `pack(user, viewer, { detail: true })`. */
  type Packer<P> = (UserId, Option<LocalUser>) -> P

  /** What one descriptor becomes. */
  function ConvertOne<P>(x: RecommendUser, me: LocalUser, resolve: Resolver, pack: Packer<P>): (r: Entry<P>)
    ensures r.Unresolved? <==> resolve(x.username, x.host).None?
    ensures r.Unresolved? ==> r.descriptor == x
  {
    match resolve(x.username, x.host)
    case None => Unresolved(x)
    case Some(id) => Packed(pack(id, Some(me)))
  }

  /** `convertUsers(src, me)`. */
  function ConvertUsers<P>(src: seq<RecommendUser>, me: LocalUser, resolve: Resolver, pack: Packer<P>): (r: seq<Entry<P>>)
    ensures |r| == |src|
    ensures forall i :: 0 <= i < |src| && resolve(src[i].username, src[i].host).None? ==> r[i] == Unresolved(src[i])
    ensures forall i :: 0 <= i < |src| && resolve(src[i].username, src[i].host).Some? ==>
              r[i] == Packed(pack(resolve(src[i].username, src[i].host).value, Some(me)))
  {
    if src == [] then []
    else [ConvertOne(src[0], me, resolve, pack)] + ConvertUsers(src[1..], me, resolve, pack)
  }

  /** Converting a concatenation converts the parts: the result follows the engine's order. */
  lemma {:induction false} ConvertUsersConcat<P>(a: seq<RecommendUser>, b: seq<RecommendUser>, me: LocalUser,
                                                 resolve: Resolver, pack: Packer<P>)
    ensures ConvertUsers(a + b, me, resolve, pack) == ConvertUsers(a, me, resolve, pack) + ConvertUsers(b, me, resolve, pack)
  {
    if a == [] {
      assert a + b == b;
    } else {
      assert (a + b)[1..] == a[1..] + b;
      ConvertUsersConcat(a[1..], b, me, resolve, pack);
    }
  }

  /** A descriptor that cannot be resolved is never dropped: it is in the output unchanged. */
  lemma UnresolvedKept<P>(src: seq<RecommendUser>, me: LocalUser, resolve: Resolver, pack: Packer<P>, x: RecommendUser)
    requires x in src && resolve(x.username, x.host).None?
    ensures Unresolved(x) in ConvertUsers(src, me, resolve, pack)
  {
    var i :| 0 <= i < |src| && src[i] == x;
    assert ConvertUsers(src, me, resolve, pack)[i] == Unresolved(x);
  }

  /** A single unresolvable bot descriptor comes back exactly as the engine sent it. */
  lemma UnresolvableBotPassesThrough<P>(me: LocalUser, resolve: Resolver, pack: Packer<P>)
    requires resolve("bot1", "remote.example").None?
    ensures var d := RecommendUser("Bot", "bot1", "remote.example", "", "u");
            ConvertUsers([d], me, resolve, pack) == [Unresolved(d)]
  {
    var d := RecommendUser("Bot", "bot1", "remote.example", "", "u");
    assert ConvertUsers([d], me, resolve, pack)[0] == Unresolved(d);
  }
}
