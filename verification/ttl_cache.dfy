/**
  The part of `ttlcache.Cache` (github.com/jellydator/ttlcache/v3) that the
  three expiring stores rely on, over a logical clock. Each item has a
  time-to-live and a deadline; reading an item with touch-on-hit moves its
  deadline a full time-to-live past the present. The background sweeper is
  taken to run as soon as an item's deadline passes, so the cache only ever
  holds live items (`Swept`), and every operation here keeps it that way.
 */
module TtlCache {

  /** A held value, its time-to-live and its deadline; a time-to-live of
      zero means the item never expires. */
  datatype Item<V> = Item(value: V, ttl: nat, deadline: nat)

  datatype Cache<V> = Cache(items: map<string, Item<V>>, now: nat)

  function Empty<V>(): (c: Cache<V>)
    ensures c.items == map[] && Swept(c)
  {
    Cache(map[], 0)
  }

  predicate Expired<V>(it: Item<V>, t: nat) {
    it.ttl > 0 && it.deadline <= t
  }

  /** The sweeper is up to date: no held item has expired. */
  predicate Swept<V>(c: Cache<V>) {
    forall id :: id in c.items ==> !Expired(c.items[id], c.now)
  }

  /** `Set` of an id not held, with time-to-live `ttl`. */
  function Insert<V>(c: Cache<V>, id: string, v: V, ttl: nat): (r: Cache<V>)
    requires id !in c.items
    ensures r.now == c.now && id in r.items && r.items[id].value == v && r.items[id].ttl == ttl
    ensures r.items[id].deadline == c.now + ttl
    ensures forall k :: k in c.items ==> k in r.items && r.items[k] == c.items[k]
    ensures forall k :: k in r.items ==> k == id || k in c.items
    ensures Swept(c) ==> Swept(r)
  {
    Cache(c.items[id := Item(v, ttl, c.now + ttl)], c.now)
  }

  /** A hit with touch-on-hit: the deadline moves to one time-to-live from now. */
  function Touch<V>(c: Cache<V>, id: string): (r: Cache<V>)
    requires id in c.items
    ensures r.now == c.now && r.items.Keys == c.items.Keys
    ensures r.items[id].value == c.items[id].value && r.items[id].ttl == c.items[id].ttl
    ensures r.items[id].deadline == c.now + c.items[id].ttl
    ensures forall k :: k in c.items && k != id ==> r.items[k] == c.items[k]
    ensures Swept(c) ==> Swept(r)
  {
    Cache(c.items[id := c.items[id].(deadline := c.now + c.items[id].ttl)], c.now)
  }

  /** A write through the pointer the cache holds: the value changes, its
      deadline does not. */
  function Replace<V>(c: Cache<V>, id: string, v: V): (r: Cache<V>)
    requires id in c.items
    ensures r.now == c.now && r.items.Keys == c.items.Keys
    ensures r.items[id] == Item(v, c.items[id].ttl, c.items[id].deadline)
    ensures forall k :: k in c.items && k != id ==> r.items[k] == c.items[k]
    ensures Swept(c) ==> Swept(r)
  {
    Cache(c.items[id := c.items[id].(value := v)], c.now)
  }

  /** `Delete`: the item leaves the cache (and is handed to the eviction hook). */
  function Remove<V>(c: Cache<V>, id: string): (r: Cache<V>)
    ensures r.now == c.now && r.items.Keys == c.items.Keys - {id}
    ensures forall k :: k in r.items ==> r.items[k] == c.items[k]
    ensures Swept(c) ==> Swept(r)
  {
    Cache(c.items - {id}, c.now)
  }

  /** `dt` ticks pass and the sweeper evicts every item whose deadline has
      come; they are returned by id. */
  function Advance<V>(c: Cache<V>, dt: nat): (r: (Cache<V>, map<string, Item<V>>))
    ensures r.0.now == c.now + dt && Swept(r.0)
    ensures forall k :: k in r.0.items <==> k in c.items && !Expired(c.items[k], c.now + dt)
    ensures forall k :: k in r.1 <==> k in c.items && Expired(c.items[k], c.now + dt)
    ensures forall k :: k in r.0.items ==> r.0.items[k] == c.items[k]
    ensures forall k :: k in r.1 ==> r.1[k] == c.items[k]
  {
    var t := c.now + dt;
    (Cache(map k | k in c.items && !Expired(c.items[k], t) :: c.items[k], t),
     map k | k in c.items && Expired(c.items[k], t) :: c.items[k])
  }

  /** An item read with touch-on-hit is still held for any span shorter
      than its time-to-live. */
  lemma KeepAlive<V>(c: Cache<V>, id: string, dt: nat)
    requires id in c.items && dt < c.items[id].ttl
    ensures id in Advance(Touch(c, id), dt).0.items
  {
  }

  /** An item left unread until its deadline is evicted. */
  lemma ExpiresUnread<V>(c: Cache<V>, id: string, dt: nat)
    requires id in c.items && c.items[id].ttl > 0 && c.items[id].deadline <= c.now + dt
    ensures id !in Advance(c, dt).0.items && id in Advance(c, dt).1
  {
  }

  /** Items with a zero time-to-live are never evicted by time. */
  lemma NoTtlNeverExpires<V>(c: Cache<V>, id: string, dt: nat)
    requires id in c.items && c.items[id].ttl == 0
    ensures id in Advance(c, dt).0.items
  {
  }
}
