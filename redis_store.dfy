/** The part of a Redis server the crawler utilities use: a keyspace of
    lists, with `DEL`, `LPUSH` and `FLUSHALL`.  Every key the utilities
    touch holds a list, so the keyspace is a map from keys to lists. */
module Redis {

  type Keyspace = map<string, seq<string>>

  /** The list stored at `key`; Redis reads a missing key as an empty list. */
  function ListAt(m: Keyspace, key: string): seq<string> {
    if key in m then m[key] else []
  }

  /** The keyspace after `DEL key`. */
  function Deleted(m: Keyspace, key: string): (r: Keyspace)
    ensures key !in r
    ensures forall k :: k != key ==> (k in r <==> k in m)
    ensures forall k :: k in r ==> r[k] == m[k]
  {
    m - {key}
  }

  /** The keyspace after `LPUSH key value`: the value becomes the head of the
      list, which is created when the key is missing. */
  function Pushed(m: Keyspace, key: string, value: string): (r: Keyspace)
    ensures key in r && r[key] == [value] + ListAt(m, key)
    ensures forall k :: k != key ==> (k in r <==> k in m)
    ensures forall k :: k != key && k in r ==> r[k] == m[k]
  {
    m[key := [value] + ListAt(m, key)]
  }

  /** One Redis server, reached through `redis.from_url(url)`. */
  class RedisStore {
    var lists: Keyspace

    constructor (initial: Keyspace)
      ensures lists == initial
    {
      lists := initial;
    }

    method Delete(key: string)
      modifies this
      ensures lists == Deleted(old(lists), key)
    {
      lists := lists - {key};
    }

    method LPush(key: string, value: string)
      modifies this
      ensures lists == Pushed(old(lists), key, value)
    {
      var current := if key in lists then lists[key] else [];
      lists := lists[key := [value] + current];
    }

    method FlushAll()
      modifies this
      ensures lists == map[]
    {
      lists := map[];
    }
  }
}
