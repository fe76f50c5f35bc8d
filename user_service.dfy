/**
 * UserService.getUser: hand-written cache-aside over RedisService, plus an
 * atomic per-user view counter that every miss bumps.
 */
module UserSvc {
  import opened Wrappers
  import opened JavaObjects
  import opened Store
  import Decimal

  const ProfilePrefix: string := "user:profile:"
  const ViewCountPrefix: string := "user:stats:view_count:"

  function ProfileKey(userId: string): (k: string)
    ensures |k| == |ProfilePrefix| + |userId| && k[|ProfilePrefix|..] == userId
  {
    ProfilePrefix + userId
  }

  function ViewCountKey(userId: string): (k: string)
    ensures |k| == |ViewCountPrefix| + |userId| && k[|ViewCountPrefix|..] == userId
  {
    ViewCountPrefix + userId
  }

  /** Profiles and counters never share a key, whichever two users are involved. */
  lemma KeysDisjoint(u: string, u': string)
    ensures ProfileKey(u) != ViewCountKey(u')
    ensures ProfileKey(u) == ProfileKey(u') <==> u == u'
    ensures ViewCountKey(u) == ViewCountKey(u') <==> u == u'
  {
    assert ProfileKey(u)[5] == 'p';
    assert ViewCountKey(u')[5] == 's';
  }

  /**
   * One call: a cached profile is returned and nothing else happens; on a miss
   * the looked-up user (`lookup`) is cached for one hour when it is not null,
   * the view counter is incremented by 1, and the looked-up user is returned.
   */
  function GetUserSpec(data: Data, down: bool, userId: string, lookup: Obj): (Obj, Data) {
    match Read(data, down, ProfileKey(userId))
    case Some(v) => (v, data)
    case None =>
      var cached := if lookup != NullRef then Write(data, down, ProfileKey(userId), lookup, DurationOf(1, HOURS)) else data;
      (lookup, Incr(cached, down, ViewCountKey(userId), 1).1)
  }

  /** A hit returns the stored profile and leaves the store, counter included, as it was. */
  lemma HitTouchesNothing(data: Data, down: bool, userId: string, lookup: Obj, v: Obj)
    requires Read(data, down, ProfileKey(userId)) == Some(v)
    ensures GetUserSpec(data, down, userId, lookup) == (v, data)
  {
  }

  /**
   * A miss (no profile, or a stored null) returns what the lookup found; a
   * non-null user is then cached for one hour, a null one is not; the counter
   * goes up by exactly one; no other key changes.
   */
  lemma MissCachesAndCounts(data: Data, userId: string, lookup: Obj, count: int)
    requires ProfileKey(userId) !in data || data[ProfileKey(userId)].value == NullRef
    requires ViewCountKey(userId) in data ==> data[ViewCountKey(userId)].value == Num(count)
    requires ViewCountKey(userId) !in data ==> count == 0
    requires count + 1 <= Decimal.LongMax
    ensures var (r, data') := GetUserSpec(data, false, userId, lookup);
      && r == lookup
      && Read(data', false, ViewCountKey(userId)) == Some(Num(count + 1))
      && (lookup != NullRef ==> data'[ProfileKey(userId)] == Entry(lookup, Some(DurationOf(1, HOURS))))
      && (lookup == NullRef ==> (ProfileKey(userId) in data' <==> ProfileKey(userId) in data)
                                && Read(data', false, ProfileKey(userId)) == None)
      && (forall k :: k != ProfileKey(userId) && k != ViewCountKey(userId) ==> (k in data' <==> k in data))
      && (forall k :: k != ProfileKey(userId) && k != ViewCountKey(userId) && k in data ==> data'[k] == data[k])
  {
    KeysDisjoint(userId, userId);
    var cached := if lookup != NullRef then Write(data, false, ProfileKey(userId), lookup, DurationOf(1, HOURS)) else data;
    assert ViewCountKey(userId) in cached ==> cached[ViewCountKey(userId)] == data[ViewCountKey(userId)];
    IncrAddsDelta(cached, ViewCountKey(userId), 1);
  }

  /** `n` calls in a row for the same user, each looking up `lookup`. */
  function Repeat(data: Data, down: bool, userId: string, lookup: Obj, n: nat): Data {
    if n == 0 then data else GetUserSpec(Repeat(data, down, userId, lookup, n - 1), down, userId, lookup).1
  }

  /**
   * Since a null lookup is never cached, every call misses again: the profile
   * stays absent and after `n` calls the counter has grown by `n`.
   */
  lemma {:induction false} NullLookupAlwaysMisses(data: Data, userId: string, count: int, n: nat)
    requires ProfileKey(userId) !in data
    requires ViewCountKey(userId) in data ==> data[ViewCountKey(userId)].value == Num(count)
    requires ViewCountKey(userId) !in data ==> count == 0
    requires count + n <= Decimal.LongMax
    ensures var data' := Repeat(data, false, userId, NullRef, n);
      ProfileKey(userId) !in data'
      && (n > 0 ==> Read(data', false, ViewCountKey(userId)) == Some(Num(count + n)))
      && (n == 0 ==> data' == data)
  {
    if n > 0 {
      NullLookupAlwaysMisses(data, userId, count, n - 1);
      var before := Repeat(data, false, userId, NullRef, n - 1);
      if n - 1 > 0 {
        MissCachesAndCounts(before, userId, NullRef, count + n - 1);
      } else {
        MissCachesAndCounts(before, userId, NullRef, count);
      }
    }
  }

  /** The UserService bean. */
  class UserService {
    const redis: RedisService

    constructor (redis: RedisService)
      ensures this.redis == redis
    {
      this.redis := redis;
    }

    /** getUser(userId); the mapper call, a stub in this code base, is the parameter `lookup`. */
    method GetUser(userId: string, lookup: Obj) returns (user: Obj)
      modifies redis
      ensures (user, redis.data) == GetUserSpec(old(redis.data), redis.down, userId, lookup)
    {
      var cacheKey := ProfileKey(userId);
      var cache := redis.Get(cacheKey);
      if cache.Some? {
        return cache.value;
      }
      user := lookup;
      if user != NullRef {
        redis.Set(cacheKey, user, DurationOf(1, HOURS));
      }
      var _ := redis.Increment(ViewCountKey(userId), 1);
    }
  }
}
