/** The cache client: every command is a no-op, a miss or a win when Redis is absent. */
module RedisCache {
  import opened TimedStore
  import opened Wrappers

  class Cache<T(!new)> {
    const hasClient: bool
    var now: nat
    var entries: map<Key, Entry<T>>

    ghost function View(): Store<T>
      reads this
    {
      Store(now, entries)
    }

    predicate Live(k: Key)
      reads this
    {
      k in entries && (entries[k].expiry.Some? ==> now < entries[k].expiry.value)
    }

    constructor (hasClient: bool, now: nat)
      ensures this.hasClient == hasClient && View() == Store(now, map[])
    {
      this.hasClient, this.now, entries := hasClient, now, map[];
    }

    method Set(k: Key, data: T, ttl: nat)
      modifies this`entries
      ensures View() == if hasClient then old(View()).Put(k, Json(data), ttl) else old(View())
      ensures entries == if hasClient then old(entries)[k := Entry(Json(data), Some(now + ttl))] else old(entries)
      ensures hasClient && ttl > 0 ==> View().Lookup(k) == Some(Json(data))
    {
      if hasClient {
        entries := entries[k := Entry(Json(data), Some(now + ttl))];
      }
    }

    /** True exactly when the key was free; without Redis every caller wins. */
    method SetNX(k: Key, ttl: nat) returns (isNew: bool)
      modifies this`entries
      ensures isNew <==> !hasClient || !old(Live(k))
      ensures View() == if hasClient then old(View()).PutIfAbsent(k, Flag, ttl) else old(View())
      ensures entries == if hasClient && isNew then old(entries)[k := Entry(Flag, Some(now + ttl))] else old(entries)
    {
      isNew := true;
      if hasClient {
        isNew := !Live(k);
        if isNew {
          entries := entries[k := Entry(Flag, Some(now + ttl))];
        }
      }
    }

    /** Finds exactly what a lookup of the key holds as JSON, and nothing without Redis. */
    method Get(k: Key) returns (found: Option<T>)
      ensures forall data :: found == Some(data) <==> hasClient && View().Lookup(k) == Some(Json(data))
    {
      found := None;
      if hasClient && Live(k) && entries[k].value.Json? {
        found := Some(entries[k].value.data);
      }
    }

    method Invalidate(k: Key)
      modifies this`entries
      ensures View() == if hasClient then old(View()).Drop(k) else old(View())
      ensures hasClient ==> !Live(k) && entries == old(entries) - {k}
    {
      if hasClient {
        entries := entries - {k};
      }
    }

    method GetVersion(k: Key) returns (version: int)
      ensures version == if hasClient then View().Counter(k) else 0
      ensures forall n :: hasClient && View().Lookup(k) == Some(Number(n)) ==> version == n
      ensures hasClient && View().Lookup(k).None? ==> version == 0
    {
      version := 0;
      if hasClient && Live(k) && entries[k].value.Number? {
        version := entries[k].value.n;
      }
    }

    /** INCR, then EXPIRE: an integer counter rises by one and lasts another week. */
    method IncrementVersion(k: Key)
      modifies this`entries
      ensures View() == if hasClient then old(View()).Incr(k).Expire(k, VERSION_TTL) else old(View())
      ensures hasClient && (old(Live(k)) ==> old(entries)[k].value.Number?) ==>
                View().Counter(k) == old(View().Counter(k)) + 1
      ensures forall other :: other != k ==> View().Counter(other) == old(View().Counter(other))
      ensures hasClient ==> k in entries && entries[k].expiry == Some(now + 7 * DAY)
      ensures entries - {k} == old(entries) - {k}
    {
      if hasClient {
        if !Live(k) {
          entries := entries[k := Entry(Number(1), None)];
        } else if entries[k].value.Number? {
          entries := entries[k := Entry(Number(entries[k].value.n + 1), entries[k].expiry)];
        }
        entries := entries[k := Entry(entries[k].value, Some(now + VERSION_TTL))];
        BumpCounts(old(View()), k, VERSION_TTL);
      }
    }
  }
}
