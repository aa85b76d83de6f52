/** The token-version check of the request middleware and the two writers of the version,
    run one at a time against the cache and the users table. */
module SessionService {
  import opened Wrappers
  import opened TimedStore
  import opened RedisCache
  import opened Session

  type User = nat

  class Service {
    const cache: Cache<Stamp>
    const delay: nat
    var versions: map<User, nat>
    ghost var ended: map<User, map<nat, nat>>

    /** What the service looks like from one user's protocol, with no request under way. */
    ghost function View(user: User): System
      requires user in versions
      reads this, cache
    {
      System(user, delay, cache.View(), versions[user], if user in ended then ended[user] else map[], map[], {})
    }

    ghost predicate Valid(user: User)
      reads this, cache
    {
      && (user in versions ==> Inv(View(user)))
      && (TokenVersion(user) in cache.entries ==> user in versions)
    }

    constructor (cache: Cache<Stamp>, delay: nat, users: set<User>)
      requires forall u: User :: TokenVersion(u) !in cache.entries
      ensures this.cache == cache && versions.Keys == users && forall u: User :: Valid(u)
      ensures forall u: User :: u in versions ==> versions[u] == 1 && Start(View(u))
    {
      this.cache, this.delay := cache, delay;
      versions, ended := map u | u in users :: 1, map[];
    }

    predicate IsCached(user: User)
      reads this, cache
      ensures IsCached(user) ==> TokenVersion(user) in cache.entries && cache.entries[TokenVersion(user)].value.Json?
    {
      var k := TokenVersion(user);
      cache.hasClient && cache.Live(k) && cache.entries[k].value.Json?
    }

    /** The version a request is compared with right now: the cached copy if there is one. */
    function Expected(user: User): Option<nat>
      reads this, cache
    {
      if IsCached(user) then Some(cache.entries[TokenVersion(user)].value.data.version)
      else if user in versions then Some(versions[user])
      else None
    }

    /** Passing the check means the database holds the version, or held it less than 15
        minutes plus the delay ago. */
    method Authorize(user: User, token: nat) returns (ok: bool)
      requires Valid(user)
      modifies cache`entries
      ensures Valid(user) && Expected(user) == old(Expected(user))
      ensures ok <==> old(Expected(user)) == Some(token)
      ensures old(IsCached(user)) ==> (ok <==> old(cache.entries)[TokenVersion(user)].value.data.version == token)
      ensures !old(IsCached(user)) ==> (ok <==> user in versions && versions[user] == token)
      ensures ok && user in versions ==>
                || token == versions[user]
                || (token in View(user).ended && cache.now < View(user).ended[token] + delay + TOKEN_TTL)
      ensures cache.entries - {TokenVersion(user)} == old(cache.entries) - {TokenVersion(user)}
      ensures cache.hasClient && user in versions ==> IsCached(user)
    {
      var found := cache.Get(TokenVersion(user));
      var current;
      if found.Some? {
        current := found.value.version;
      } else {
        if user !in versions {
          return false;
        }
        current := versions[user];
        cache.Set(TokenVersion(user), Stamp(current, cache.now), TOKEN_TTL);
      }
      ok := current == token;
    }

    /** SET token_version = token_version + 1, for whichever rows match. */
    method UpdateTokenVersion(user: User) returns (found: bool)
      requires Valid(user)
      modifies this`versions, this`ended
      ensures Valid(user) && (found <==> user in old(versions))
      ensures versions == if found then old(versions)[user := old(versions)[user] + 1] else old(versions)
      ensures found ==> View(user).ended == old(View(user)).ended[old(versions)[user] := cache.now]
      ensures ended - {user} == old(ended) - {user}
    {
      found := user in versions;
      if found {
        ghost var before: map<nat, nat> := if user in ended then ended[user] else map[];
        ended := ended[user := before[versions[user] := cache.now]];
        versions := versions[user := versions[user] + 1];
      }
    }

    /** Raises the version and clears the copy: from now on only the new version passes. */
    method Logout(user: User)
      requires Valid(user)
      modifies this`versions, this`ended, cache`entries
      ensures Valid(user)
      ensures versions == if user in old(versions) then old(versions)[user := old(versions)[user] + 1]
                          else old(versions)
      ensures ended - {user} == old(ended) - {user}
      ensures cache.entries - {TokenVersion(user)} == old(cache.entries) - {TokenVersion(user)}
      ensures Expected(user) == if user in versions then Some(versions[user]) else None
    {
      var found := UpdateTokenVersion(user);
      cache.Invalidate(TokenVersion(user));
    }

    /** Raises the version and leaves the copy: while it lives the old version still passes
        and the new one, which the next login hands out, does not. */
    method ChangePassword(user: User, passwordMatches: bool) returns (ok: bool)
      requires Valid(user)
      modifies this`versions, this`ended
      ensures Valid(user) && (ok <==> passwordMatches && user in old(versions))
      ensures !ok ==> versions == old(versions)
      ensures ok ==> versions == old(versions)[user := old(versions)[user] + 1]
      ensures ended - {user} == old(ended) - {user}
      ensures ok ==> Expected(user) == if IsCached(user) then old(Expected(user)) else Some(versions[user])
      ensures ok && IsCached(user) ==> Expected(user) != Some(versions[user])
    {
      ok := false;
      if passwordMatches {
        ok := UpdateTokenVersion(user);
      }
    }
  }
}
