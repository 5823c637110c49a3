/** The multi-crawler Redis helpers of `src/crawler/utils/redis_utils.py`:
    flushing the whole server, and seeding one start-URL list per crawler
    id `1..count`. */
module RedisUtils {
  import opened Base
  import opened Strings
  import opened Redis
  import RedisSpider

  /** The start-URL key of crawler `i` of a university (lines 14-15). */
  function SeedKey(universityName: string, i: int): string {
    "university_spider_" + universityName + "_" + IntToString(i) + ":start_urls"
  }

  /** Whether `key` is the seed key of one of the crawlers `1..n`. */
  predicate IsSeedKey(key: string, universityName: string, n: int) {
    exists i :: 1 <= i <= n && key == SeedKey(universityName, i)
  }

  /** The keyspace after pushing the seed for crawlers `1..n`, in that order. */
  function SeededUpTo(m: Keyspace, startUrl: string, universityName: string, n: int): Keyspace
    decreases n
  {
    if n <= 0 then m
    else Pushed(SeededUpTo(m, startUrl, universityName, n - 1), SeedKey(universityName, n), startUrl)
  }

  /** `clear_redis(redis_url)`: `FLUSHALL`; the output lines are not modelled. */
  method ClearRedis(r: RedisStore)
    modifies r
    ensures r.lists == map[]
  {
    r.FlushAll();
  }

  /** `add_to_redis(start_url, redis_url, count, university_name)`. */
  method AddToRedis(r: RedisStore, startUrl: string, count: int, universityName: string)
    modifies r
    ensures r.lists == SeededUpTo(old(r.lists), startUrl, universityName, count)
  {
    ghost var initial := r.lists;
    var i := 1;
    while i < count + 1
      invariant 1 <= i <= if count >= 1 then count + 1 else 1
      invariant r.lists == SeededUpTo(initial, startUrl, universityName, i - 1)
    {
      var crawlerName := "university_spider_" + universityName + "_" + IntToString(i);
      var key := crawlerName + ":start_urls";
      SeedStep(initial, startUrl, universityName, i, r.lists, key);
      r.LPush(key, startUrl);
      i := i + 1;
    }
    if count < 1 {
      assert SeededUpTo(initial, startUrl, universityName, count) == initial;
    } else {
      assert i - 1 == count;
    }
  }

  /** One pass of the loop of `add_to_redis`: pushing onto the key it builds
      for crawler `i` extends the seeding from `1..i-1` to `1..i`. */
  lemma SeedStep(initial: Keyspace, startUrl: string, universityName: string, i: int, m: Keyspace, key: string)
    requires i >= 1
    requires m == SeededUpTo(initial, startUrl, universityName, i - 1)
    requires key == "university_spider_" + universityName + "_" + IntToString(i) + ":start_urls"
    ensures Pushed(m, key, startUrl) == SeededUpTo(initial, startUrl, universityName, i)
  {
  }

  // -----------------------------------------------------------------------
  // Properties
  // -----------------------------------------------------------------------

  /** Different crawler ids give different keys. */
  lemma SeedKeyInjective(universityName: string, i: int, j: int)
    requires SeedKey(universityName, i) == SeedKey(universityName, j)
    ensures i == j
  {
    var p := "university_spider_" + universityName + "_";
    var si, sj := IntToString(i), IntToString(j);
    assert SeedKey(universityName, i) == p + si + ":start_urls";
    assert SeedKey(universityName, j) == p + sj + ":start_urls";
    assert |si| == |sj|;
    assert (p + si + ":start_urls")[|p|..|p| + |si|] == si;
    assert (p + sj + ":start_urls")[|p|..|p| + |sj|] == sj;
    IntToStringInjective(i, j);
  }

  /** Seeding crawlers `1..n` puts the URL at the head of each of their lists
      and leaves every other key as it was. */
  lemma {:induction false} SeededUpToMeaning(m: Keyspace, startUrl: string, universityName: string, n: int)
    ensures forall i :: 1 <= i <= n ==>
      var key := SeedKey(universityName, i);
      key in SeededUpTo(m, startUrl, universityName, n) &&
      SeededUpTo(m, startUrl, universityName, n)[key] == [startUrl] + ListAt(m, key)
    ensures forall k :: !IsSeedKey(k, universityName, n) ==>
      (k in SeededUpTo(m, startUrl, universityName, n) <==> k in m) &&
      (k in m ==> SeededUpTo(m, startUrl, universityName, n)[k] == m[k])
    decreases n
  {
    if n > 0 {
      var prev := SeededUpTo(m, startUrl, universityName, n - 1);
      var r := SeededUpTo(m, startUrl, universityName, n);
      var top := SeedKey(universityName, n);
      SeededUpToMeaning(m, startUrl, universityName, n - 1);
      assert !IsSeedKey(top, universityName, n - 1) by {
        if IsSeedKey(top, universityName, n - 1) {
          var i :| 1 <= i <= n - 1 && top == SeedKey(universityName, i);
          SeedKeyInjective(universityName, i, n);
        }
      }
      forall i | 1 <= i <= n
        ensures SeedKey(universityName, i) in r && r[SeedKey(universityName, i)] == [startUrl] + ListAt(m, SeedKey(universityName, i))
      {
        if i < n {
          if SeedKey(universityName, i) == top {
            SeedKeyInjective(universityName, i, n);
          }
        }
      }
      forall k | !IsSeedKey(k, universityName, n)
        ensures (k in r <==> k in m) && (k in m ==> r[k] == m[k])
      {
        assert k != top;
        assert forall i :: 1 <= i <= n - 1 ==> k != SeedKey(universityName, i);
      }
    }
  }

  /** With `count <= 0` the loop body never runs. */
  lemma NonPositiveCountSeedsNothing(m: Keyspace, startUrl: string, universityName: string, count: int)
    requires count <= 0
    ensures SeededUpTo(m, startUrl, universityName, count) == m
  {
  }

  /** After a flush, seeding leaves exactly the `count` seed keys, each holding
      one copy of the URL. */
  lemma FlushThenSeed(startUrl: string, universityName: string, count: int)
    ensures forall k :: k in SeededUpTo(map[], startUrl, universityName, count) <==> IsSeedKey(k, universityName, count)
    ensures forall i :: 1 <= i <= count ==>
      var key := SeedKey(universityName, i);
      key in SeededUpTo(map[], startUrl, universityName, count) &&
      SeededUpTo(map[], startUrl, universityName, count)[key] == [startUrl]
  {
    SeededUpToMeaning(map[], startUrl, universityName, count);
  }

  /** The key of crawler `i` is the `redis_key` a Redis-fed spider built with
      `crawler_id=i` and `name=university_name` reads from -- provided both are
      truthy. */
  lemma SeedKeyIsSpiderKey(universityName: string, i: int)
    requires universityName != "" && i != 0
    ensures SeedKey(universityName, i) == RedisSpider.SpiderIdentity(Some(i), Some(universityName)).redisKey
  {
  }

  /** With an empty university name the spider keeps its class key, so it does
      not read the list seeded for it. */
  lemma EmptyNameSpiderMissesSeed(i: int)
    ensures SeedKey("", i) != RedisSpider.SpiderIdentity(Some(i), Some("")).redisKey
  {
    var k := SeedKey("", i);
    assert k[17] == '_';
    assert RedisSpider.ClassRedisKey[17] == ':';
  }
}
