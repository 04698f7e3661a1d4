/**
  `ExpireAble[T]` of internal/rest_impl/expirable.go: closable values under
  ids, each made lazily by `Make` on first use and closed whenever it leaves
  the store, by expiry, `Expire` or `Close`.

  `MakeID` and `Make` are the sequences of results of their successive
  calls. The store counts the calls of each. Closing is recorded as the
  values closed.
 */
module ExpireAble {
  import opened Wrappers
  import TtlCache

  /** `lazy.Lazy[T]`: not made yet, or made. */
  datatype Lazy<T> = Unmade | Made(value: T)

  datatype Hooks<T> = Hooks(makeId: nat -> string, make: nat -> T)

  /** The cache, and the number of calls of MakeID and of Make so far. */
  datatype Store<T> = Store(cache: TtlCache.Cache<Lazy<T>>, idCalls: nat, makes: nat)

  datatype ExpireError = NoID | NotFound

  const MaxNewIdCalls: nat := 10000

  /** `getEntry`: the value, made by the next call of Make if it was not made
      yet. */
  function Force<T>(s: Store<T>, h: Hooks<T>, id: string): (r: (Store<T>, T))
    requires id in s.cache.items
    ensures s.cache.items[id].value.Made? ==> r == (s, s.cache.items[id].value.value)
    ensures s.cache.items[id].value.Unmade? ==>
      r.1 == h.make(s.makes) && r.0.makes == s.makes + 1 &&
      r.0.cache == TtlCache.Replace(s.cache, id, Made(r.1))
    ensures r.0.idCalls == s.idCalls && r.0.cache.items.Keys == s.cache.items.Keys
    ensures r.0.cache.items[id].value == Made(r.1)
    ensures forall k :: k in s.cache.items && k != id ==> r.0.cache.items[k] == s.cache.items[k]
  {
    match s.cache.items[id].value
    case Made(v) => (s, v)
    case Unmade =>
      var v := h.make(s.makes);
      (Store(TtlCache.Replace(s.cache, id, Made(v)), s.idCalls, s.makes + 1), v)
  }

  /** The loop of `New` over the ids of calls `from`, `from + 1`, ...: the
      first id not held is taken, whatever it is, the empty id included. */
  function PickId<T>(items: map<string, TtlCache.Item<Lazy<T>>>, makeId: nat -> string, from: nat, left: nat)
    : (r: Option<nat>)
    ensures r.Some? ==> from <= r.value < from + left && makeId(r.value) !in items
    ensures forall n :: from <= n < (if r.Some? then r.value else from + left) ==> makeId(n) in items
    decreases left
  {
    if left == 0 then None
    else if makeId(from) in items then PickId(items, makeId, from + 1, left - 1)
    else Some(from)
  }

  /** `New`: at most `MaxNewIdCalls` calls of MakeID; the element is stored
      unmade. */
  function New<T>(s: Store<T>, h: Hooks<T>, ttl: nat): (r: (Store<T>, Result<string, ExpireError>))
    ensures s.idCalls <= r.0.idCalls <= s.idCalls + MaxNewIdCalls && r.0.makes == s.makes
    ensures r.1.Ok? ==>
      r.0.idCalls > s.idCalls && r.1.value == h.makeId(r.0.idCalls - 1) && r.1.value !in s.cache.items &&
      r.0.cache == TtlCache.Insert(s.cache, r.1.value, Unmade, ttl)
    ensures r.1.Err? ==>
      r.1.error == NoID && r.0.cache == s.cache && r.0.idCalls == s.idCalls + MaxNewIdCalls &&
      forall n :: s.idCalls <= n < r.0.idCalls ==> h.makeId(n) in s.cache.items
  {
    match PickId(s.cache.items, h.makeId, s.idCalls, MaxNewIdCalls)
    case None => (s.(idCalls := s.idCalls + MaxNewIdCalls), Err(NoID))
    case Some(n) =>
      var id := h.makeId(n);
      (Store(TtlCache.Insert(s.cache, id, Unmade, ttl), n + 1, s.makes), Ok(id))
  }

  /** `Get`: the zero value and `errNotFound` for a missing id; otherwise the
      deadline is extended and the value made if needed. */
  function Get<T>(s: Store<T>, h: Hooks<T>, id: string, zero: T): (r: (Store<T>, T, Option<ExpireError>))
    ensures id !in s.cache.items ==> r == (s, zero, Some(NotFound))
    ensures id in s.cache.items ==>
      r.2.None? && r.0.cache.items.Keys == s.cache.items.Keys &&
      r.0.cache.items[id] == TtlCache.Item(Made(r.1), s.cache.items[id].ttl, s.cache.now + s.cache.items[id].ttl) &&
      (s.cache.items[id].value.Made? ==> r.1 == s.cache.items[id].value.value && r.0.makes == s.makes) &&
      (s.cache.items[id].value.Unmade? ==> r.1 == h.make(s.makes) && r.0.makes == s.makes + 1)
  {
    if id !in s.cache.items then (s, zero, Some(NotFound))
    else
      var (s1, v) := Force(s.(cache := TtlCache.Touch(s.cache, id)), h, id);
      (s1, v, None)
  }

  /** `Expire`: no effect for a missing id; otherwise the element is removed
      and closed, made first if it never was. */
  function Expire<T>(s: Store<T>, h: Hooks<T>, id: string): (r: (Store<T>, Option<T>))
    ensures id !in s.cache.items ==> r == (s, None)
    ensures id in s.cache.items ==>
      r.1.Some? && r.0.cache.items.Keys == s.cache.items.Keys - {id} &&
      (s.cache.items[id].value.Made? ==> r.1.value == s.cache.items[id].value.value && r.0.makes == s.makes) &&
      (s.cache.items[id].value.Unmade? ==> r.1.value == h.make(s.makes) && r.0.makes == s.makes + 1)
  {
    if id !in s.cache.items then (s, None)
    else
      var (s1, v) := Force(s, h, id);
      (s1.(cache := TtlCache.Remove(s1.cache, id)), Some(v))
  }

  predicate Distinct(ids: seq<string>) {
    forall i, j :: 0 <= i < j < |ids| ==> ids[i] != ids[j]
  }

  /** The eviction hook run on each of `ids`, in the order ttlcache visits
      them: each is made if needed, closed and removed. A value already made
      is closed as it is. */
  function CloseEach<T>(s: Store<T>, h: Hooks<T>, ids: seq<string>): (r: (Store<T>, seq<T>))
    requires Distinct(ids) && forall i :: 0 <= i < |ids| ==> ids[i] in s.cache.items
    ensures |r.1| == |ids| && r.0.idCalls == s.idCalls && r.0.cache.now == s.cache.now
    ensures s.makes <= r.0.makes <= s.makes + |ids|
    ensures forall k :: k in r.0.cache.items <==> k in s.cache.items && k !in ids
    ensures forall k :: k in r.0.cache.items ==> r.0.cache.items[k] == s.cache.items[k]
    ensures forall i :: 0 <= i < |ids| && s.cache.items[ids[i]].value.Made? ==>
      r.1[i] == s.cache.items[ids[i]].value.value
    decreases |ids|
  {
    if |ids| == 0 then (s, [])
    else
      var (s1, v) := Force(s, h, ids[0]);
      var s2 := s1.(cache := TtlCache.Remove(s1.cache, ids[0]));
      assert forall i :: 0 <= i < |ids[1..]| ==> ids[1..][i] == ids[i + 1];
      var (s3, vs) := CloseEach(s2, h, ids[1..]);
      (s3, [v] + vs)
  }

  /** `ids` lists exactly the keys of `m`, once each. */
  predicate Lists<V>(ids: seq<string>, m: map<string, V>) {
    Distinct(ids) && (forall i :: 0 <= i < |ids| ==> ids[i] in m) && (forall k :: k in m ==> k in ids)
  }

  /** `Close`: every element is closed and the store is emptied; `order` is
      the order in which `DeleteAll` evicts them. */
  function Close<T>(s: Store<T>, h: Hooks<T>, order: seq<string>): (r: (Store<T>, seq<T>))
    requires Lists(order, s.cache.items)
    ensures r.0.cache.items == map[] && |r.1| == |order|
  {
    var r := CloseEach(s, h, order);
    assert r.0.cache.items.Keys == {};
    r
  }

  /** `ids` lists, once each, the items of `m` whose deadline has come by
      `t`. */
  predicate ListsExpired<V>(ids: seq<string>, m: map<string, TtlCache.Item<V>>, t: nat) {
    Distinct(ids) &&
    (forall i :: 0 <= i < |ids| ==> ids[i] in m && TtlCache.Expired(m[ids[i]], t)) &&
    (forall k :: k in m && TtlCache.Expired(m[k], t) ==> k in ids)
  }

  /** Time passes: the elements whose deadline has come are closed, in the
      order `expired` lists them; the rest stay as they were. */
  function Advance<T>(s: Store<T>, h: Hooks<T>, dt: nat, expired: seq<string>): (r: (Store<T>, seq<T>))
    requires ListsExpired(expired, s.cache.items, s.cache.now + dt)
    ensures r.0.cache.now == s.cache.now + dt && |r.1| == |expired|
    ensures r.0.cache.items == TtlCache.Advance(s.cache, dt).0.items
    ensures forall i :: 0 <= i < |expired| && s.cache.items[expired[i]].value.Made? ==>
      r.1[i] == s.cache.items[expired[i]].value.value
    ensures r.0.makes == s.makes + Unread(s.cache.items, expired)
  {
    var later := s.(cache := s.cache.(now := s.cache.now + dt));
    CloseMakesUnread(later, h, expired);
    CloseEach(later, h, expired)
  }

  // ---------------------------------------------------------------------------
  // Properties

  /** `Make` runs at most once per element: reading it twice makes it once
      and gives the same value both times. */
  lemma MakeAtMostOnce<T>(s: Store<T>, h: Hooks<T>, id: string, zero: T)
    requires id in s.cache.items
    ensures var (s1, v1, e1) := Get(s, h, id, zero);
      var (s2, v2, e2) := Get(s1, h, id, zero);
      v1 == v2 && s2.makes == s1.makes && s1.makes <= s.makes + 1
  {
  }

  /** An element never read is made when it is closed: closing it costs one
      call of Make, and the value made is the one closed. */
  lemma UnreadIsMadeToClose<T>(s: Store<T>, h: Hooks<T>, id: string)
    requires id in s.cache.items && s.cache.items[id].value.Unmade?
    ensures Expire(s, h, id) == (Force(s, h, id).0.(cache := TtlCache.Remove(Force(s, h, id).0.cache, id)), Some(h.make(s.makes)))
    ensures Expire(s, h, id).0.makes == s.makes + 1
  {
  }

  /** The value a reader got is the value closed when the element is
      expired. */
  lemma ReadValueIsClosed<T>(s: Store<T>, h: Hooks<T>, id: string, zero: T)
    requires id in s.cache.items
    ensures var (s1, v, e) := Get(s, h, id, zero);
      Expire(s1, h, id).1 == Some(v)
  {
  }

  /** `New` accepts the empty id when MakeID returns it and it is not held. */
  lemma EmptyIdAccepted<T>(s: Store<T>, h: Hooks<T>, ttl: nat)
    requires h.makeId(s.idCalls) == "" && "" !in s.cache.items
    ensures New(s, h, ttl).1 == Ok("")
  {
  }

  /** `Close` closes every element once, and a value that was already made
      is closed as it is. */
  lemma CloseClosesAll<T>(s: Store<T>, h: Hooks<T>, order: seq<string>)
    requires Lists(order, s.cache.items)
    ensures var (s1, closed) := Close(s, h, order);
      s1.cache.items == map[] && |closed| == |order| &&
      forall i :: 0 <= i < |order| && s.cache.items[order[i]].value.Made? ==>
        closed[i] == s.cache.items[order[i]].value.value
  {
  }

  /** How many of `ids` were never made. */
  function Unread<T>(items: map<string, TtlCache.Item<Lazy<T>>>, ids: seq<string>): nat
    requires forall i :: 0 <= i < |ids| ==> ids[i] in items
  {
    if |ids| == 0 then 0
    else (if items[ids[0]].value.Unmade? then 1 else 0) + Unread(items, ids[1..])
  }

  /** Closing a batch calls Make exactly once for each element of it that
      was never read, and never for one that was. */
  lemma {:induction false} CloseMakesUnread<T>(s: Store<T>, h: Hooks<T>, ids: seq<string>)
    requires Distinct(ids) && forall i :: 0 <= i < |ids| ==> ids[i] in s.cache.items
    ensures CloseEach(s, h, ids).0.makes == s.makes + Unread(s.cache.items, ids)
    decreases |ids|
  {
    if |ids| > 0 {
      var (s1, v) := Force(s, h, ids[0]);
      var s2 := s1.(cache := TtlCache.Remove(s1.cache, ids[0]));
      var rest := ids[1..];
      assert forall i :: 0 <= i < |rest| ==> rest[i] == ids[i + 1];
      CloseMakesUnread(s2, h, rest);
      UnreadFrame(s.cache.items, s2.cache.items, rest);
    }
  }

  /** `Unread` depends only on the entries of the ids counted. */
  lemma {:induction false} UnreadFrame<T>(a: map<string, TtlCache.Item<Lazy<T>>>, b: map<string, TtlCache.Item<Lazy<T>>>, ids: seq<string>)
    requires forall i :: 0 <= i < |ids| ==> ids[i] in a && ids[i] in b && a[ids[i]] == b[ids[i]]
    ensures Unread(a, ids) == Unread(b, ids)
    decreases |ids|
  {
    if |ids| > 0 {
      UnreadFrame(a, b, ids[1..]);
    }
  }
}
