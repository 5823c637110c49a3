/** The per-spider Redis helpers of `src/crawler/utils/redis_utiils.py`:
    clearing the four scrapy-redis keys of one spider, and seeding its
    start-URL list. */
module RedisUtiils {
  import opened Redis

  /** The keys scrapy-redis keeps for one spider, in the order
      `clear_redis` deletes them. */
  function SpiderKeys(spider: string): seq<string> {
    [spider + ":start_urls", spider + ":dupefilter", spider + ":requests", spider + ":items"]
  }

  function StartUrlsKey(spider: string): string {
    spider + ":start_urls"
  }

  /** The keyspace after deleting each of `keys` in turn. */
  function DeletedAll(m: Keyspace, keys: seq<string>): Keyspace {
    if keys == [] then m else DeletedAll(Deleted(m, keys[0]), keys[1..])
  }

  /** The keyspace after `clear_redis(redis_url, spider)`. */
  function Cleared(m: Keyspace, spider: string): Keyspace {
    DeletedAll(m, SpiderKeys(spider))
  }

  /** The keyspace after `add_to_redis(start_url, redis_url, spider)`. */
  function Seeded(m: Keyspace, startUrl: string, spider: string): Keyspace {
    Pushed(m, StartUrlsKey(spider), startUrl)
  }

  /** `clear_redis(redis_url, spider_name)`. */
  method ClearRedis(r: RedisStore, spider: string)
    modifies r
    ensures r.lists == Cleared(old(r.lists), spider)
  {
    ghost var keys := SpiderKeys(spider);
    ghost var m0 := r.lists;
    r.Delete(spider + ":start_urls");
    ghost var m1 := r.lists;
    r.Delete(spider + ":dupefilter");
    ghost var m2 := r.lists;
    r.Delete(spider + ":requests");
    ghost var m3 := r.lists;
    r.Delete(spider + ":items");
    assert DeletedAll(m3, keys[3..]) == r.lists by {
      assert keys[3..][1..] == [];
    }
    assert DeletedAll(m2, keys[2..]) == DeletedAll(m3, keys[3..]) by {
      assert keys[2..][1..] == keys[3..];
    }
    assert DeletedAll(m1, keys[1..]) == DeletedAll(m2, keys[2..]) by {
      assert keys[1..][1..] == keys[2..];
    }
  }

  /** `add_to_redis(start_url, redis_url, spider_name)`. */
  method AddToRedis(r: RedisStore, startUrl: string, spider: string)
    modifies r
    ensures r.lists == Seeded(old(r.lists), startUrl, spider)
  {
    var key := spider + ":start_urls";
    r.LPush(key, startUrl);
  }

  // -----------------------------------------------------------------------
  // Properties
  // -----------------------------------------------------------------------

  /** Deleting a list of keys removes exactly those keys and keeps every other
      entry as it was. */
  lemma {:induction false} DeletedAllMeaning(m: Keyspace, keys: seq<string>)
    ensures forall k :: k in DeletedAll(m, keys) <==> k in m && k !in keys
    ensures forall k :: k in DeletedAll(m, keys) ==> DeletedAll(m, keys)[k] == m[k]
  {
    if keys != [] {
      DeletedAllMeaning(Deleted(m, keys[0]), keys[1..]);
      assert keys == [keys[0]] + keys[1..];
    }
  }

  /** `clear_redis` removes exactly the four keys of the spider and leaves
      every other entry unchanged. */
  lemma ClearRemovesExactlySpiderKeys(m: Keyspace, spider: string)
    ensures forall k :: k in Cleared(m, spider) <==> k in m && k !in SpiderKeys(spider)
    ensures forall k :: k in Cleared(m, spider) ==> Cleared(m, spider)[k] == m[k]
  {
    DeletedAllMeaning(m, SpiderKeys(spider));
  }

  /** Clearing twice is clearing once. */
  lemma ClearIdempotent(m: Keyspace, spider: string)
    ensures Cleared(Cleared(m, spider), spider) == Cleared(m, spider)
  {
    var once := Cleared(m, spider);
    ClearRemovesExactlySpiderKeys(m, spider);
    ClearRemovesExactlySpiderKeys(once, spider);
    assert forall k :: k in Cleared(once, spider) <==> k in once;
  }

  /** `add_to_redis` puts the URL at the head of the spider's start-URL list
      (creating it if needed) and changes no other key. */
  lemma SeedPrepends(m: Keyspace, startUrl: string, spider: string)
    ensures Seeded(m, startUrl, spider)[StartUrlsKey(spider)] == [startUrl] + ListAt(m, StartUrlsKey(spider))
    ensures forall k :: k != StartUrlsKey(spider) ==>
      (k in Seeded(m, startUrl, spider) <==> k in m) &&
      (k in m ==> Seeded(m, startUrl, spider)[k] == m[k])
  {
  }

  /** Clearing and then seeding leaves exactly the seed in the start-URL list,
      and the other three spider keys absent. */
  lemma ClearThenSeed(m: Keyspace, startUrl: string, spider: string)
    ensures Seeded(Cleared(m, spider), startUrl, spider)[StartUrlsKey(spider)] == [startUrl]
    ensures forall k :: k in SpiderKeys(spider)[1..] ==> k !in Seeded(Cleared(m, spider), startUrl, spider)
  {
    ClearRemovesExactlySpiderKeys(m, spider);
    assert StartUrlsKey(spider) in SpiderKeys(spider);
    forall k | k in SpiderKeys(spider)[1..]
      ensures k !in Seeded(Cleared(m, spider), startUrl, spider)
    {
      assert k in SpiderKeys(spider);
      assert k != StartUrlsKey(spider) by {
        assert k[|spider|..] != ":start_urls";
      }
    }
  }
}
