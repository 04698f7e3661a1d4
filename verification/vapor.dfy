/**
  `Vapor[T]` of internal/vapor/vapor.go: a store of lazily initialised
  elements under fresh ids, each finalised with a reason when it leaves the
  store, with a flag that stops the creation of new elements.

  Hooks are data: `NewID` is the sequence of ids its successive calls return
  (counted over the vapor's life), `Initialize` a function of the zero value,
  and `Finalize`, whose effect lies outside the store, is recorded as the
  calls it receives.
 */
module Vapor {
  import opened Wrappers
  import TtlCache

  datatype FinalizeReason = Deleted | Expired

  /** An element and whether its `sync.Once` initialisation has run. */
  datatype Entry<T> = Entry(initialised: bool, value: T)

  /** `None` stands for a nil hook; `finalize` says whether Finalize is set. */
  datatype Hooks<!T> = Hooks(newId: Option<nat -> string>, initialize: Option<T -> T>, finalize: bool)

  /** One call of Finalize. */
  datatype Final<T> = Final(reason: FinalizeReason, value: T)

  datatype VaporError = NoID | NewIDNil | Stopped | NotFound

  /** `calls` counts the calls of NewID so far. */
  datatype Vapor<T> = Vapor(stopped: bool, cache: TtlCache.Cache<Entry<T>>, calls: nat)

  type Items<T> = map<string, TtlCache.Item<Entry<T>>>

  const MaxNewIdCalls: nat := 1000

  function Empty<T>(): (v: Vapor<T>)
    ensures !v.stopped && v.cache.items == map[] && Valid(v)
  {
    Vapor(false, TtlCache.Empty(), 0)
  }

  /** The store holds no expired element. */
  predicate Valid<T>(v: Vapor<T>) {
    TtlCache.Swept(v.cache)
  }

  // ---------------------------------------------------------------------------
  // Initialisation

  /** The entry after its `sync.Once`: Initialize runs on the zero value the
      first time only; a nil Initialize leaves the value as it is. */
  function Init<T>(e: Entry<T>, initialize: Option<T -> T>): (r: Entry<T>)
    ensures r.initialised
    ensures e.initialised ==> r == e
  {
    if e.initialised then e
    else Entry(true, if initialize.Some? then initialize.value(e.value) else e.value)
  }

  /** Initialisation happens at most once. */
  lemma InitOnce<T>(e: Entry<T>, initialize: Option<T -> T>)
    ensures Init(Init(e, initialize), initialize) == Init(e, initialize)
    ensures !e.initialised && initialize.Some? ==> Init(e, initialize).value == initialize.value(e.value)
    ensures !e.initialised && initialize.None? ==> Init(e, initialize).value == e.value
  {
  }

  /** `initItem`: the element's value after initialisation, which is stored. */
  function InitItem<T>(v: Vapor<T>, initialize: Option<T -> T>, id: string): (r: (Vapor<T>, T))
    requires id in v.cache.items
    ensures r.1 == Init(v.cache.items[id].value, initialize).value
    ensures r.0.stopped == v.stopped && r.0.calls == v.calls && r.0.cache.now == v.cache.now
    ensures r.0.cache.items.Keys == v.cache.items.Keys
    ensures r.0.cache.items[id].value == Init(v.cache.items[id].value, initialize)
    ensures r.0.cache.items[id].deadline == v.cache.items[id].deadline
    ensures forall k :: k in v.cache.items && k != id ==> r.0.cache.items[k] == v.cache.items[k]
    ensures Valid(v) ==> Valid(r.0)
  {
    var e := Init(v.cache.items[id].value, initialize);
    (v.(cache := TtlCache.Replace(v.cache, id, e)), e.value)
  }

  // ---------------------------------------------------------------------------
  // Creating elements

  /** Where the `newEntry` loop stops: at the call whose id it takes, at
      the first non-empty id when the vapor is stopped, or when its calls run
      out. */
  datatype Pick = Picked(at: nat) | StoppedAt(at: nat) | Exhausted

  /** The calls of NewID the loop makes, from call `from`, with `left` calls
      allowed. */
  function CallsMade(p: Pick, from: nat, left: nat): nat {
    match p
    case Picked(n) => n + 1
    case StoppedAt(n) => n + 1
    case Exhausted => from + left
  }

  /** The `newEntry` loop over the ids of calls `from`, `from + 1`, ...: an
      empty id is skipped; a non-empty one on a stopped vapor fails; one
      already held is skipped; the first other one is taken. */
  function PickId<T>(items: Items<T>, stopped: bool, newId: nat -> string, from: nat, left: nat): (r: Pick)
    ensures from <= CallsMade(r, from, left) <= from + left
    ensures r.Picked? ==> newId(r.at) != "" && newId(r.at) !in items && !stopped
    ensures r.StoppedAt? ==> newId(r.at) != "" && stopped
    ensures !r.Exhausted? ==> from <= r.at
    ensures forall n :: from <= n < CallsMade(r, from, left) && (r.Exhausted? || n != r.at) ==>
      newId(n) == "" || (!stopped && newId(n) in items)
    decreases left
  {
    if left == 0 then Exhausted
    else if newId(from) == "" then PickId(items, stopped, newId, from + 1, left - 1)
    else if stopped then StoppedAt(from)
    else if newId(from) in items then PickId(items, stopped, newId, from + 1, left - 1)
    else Picked(from)
  }

  /** `newEntry` (and `New`, which drops the item): NewID must be set; at
      most `MaxNewIdCalls` calls of it; a returned id is non-empty and was not
      held, and every element held before stays as it was. */
  function NewEntry<T>(v: Vapor<T>, h: Hooks<T>, zero: T, ttl: nat): (r: (Vapor<T>, Result<string, VaporError>))
    ensures h.newId.None? ==> r == (v, Err(NewIDNil))
    ensures r.0.stopped == v.stopped && v.calls <= r.0.calls <= v.calls + MaxNewIdCalls
    ensures r.1.Ok? ==>
      var id := r.1.value;
      id != "" && id !in v.cache.items && !v.stopped && r.0.cache.now == v.cache.now &&
      r.0.cache.items.Keys == v.cache.items.Keys + {id} &&
      r.0.cache.items[id] == TtlCache.Item(Entry(false, zero), ttl, v.cache.now + ttl) &&
      forall k :: k in v.cache.items ==> r.0.cache.items[k] == v.cache.items[k]
    ensures r.1.Err? ==> r.0.cache == v.cache
    ensures r.1 == Err(Stopped) ==> v.stopped
    ensures Valid(v) ==> Valid(r.0)
  {
    match h.newId
    case None => (v, Err(NewIDNil))
    case Some(newId) =>
      match PickId(v.cache.items, v.stopped, newId, v.calls, MaxNewIdCalls)
      case Exhausted => (v.(calls := v.calls + MaxNewIdCalls), Err(NoID))
      case StoppedAt(n) => (v.(calls := n + 1), Err(Stopped))
      case Picked(n) =>
        (Vapor(v.stopped, TtlCache.Insert(v.cache, newId(n), Entry(false, zero), ttl), n + 1), Ok(newId(n)))
  }

  /** `GetNew`: a new element, initialised, with its id. */
  function GetNew<T>(v: Vapor<T>, h: Hooks<T>, zero: T, ttl: nat): (r: (Vapor<T>, Result<(string, T), VaporError>))
    ensures var (v1, created) := NewEntry(v, h, zero, ttl);
      match created
      case Err(e) => r == (v1, Err(e))
      case Ok(id) =>
        r.1 == Ok((id, Init(Entry(false, zero), h.initialize).value)) &&
        r.0.cache.items.Keys == v1.cache.items.Keys && r.0.cache.items[id].value.initialised &&
        r.0.cache.items[id].deadline == v1.cache.items[id].deadline
    ensures Valid(v) ==> Valid(r.0)
  {
    var (v1, created) := NewEntry(v, h, zero, ttl);
    match created
    case Err(e) => (v1, Err(e))
    case Ok(id) =>
      var (v2, value) := InitItem(v1, h.initialize, id);
      (v2, Ok((id, value)))
  }

  // ---------------------------------------------------------------------------
  // Reading and removing elements

  /** `Get`: a missing id is `errNotFound`; a held element has its deadline
      extended and is initialised if it was not yet. */
  function Get<T>(v: Vapor<T>, h: Hooks<T>, id: string): (r: (Vapor<T>, Result<T, VaporError>))
    ensures id !in v.cache.items ==> r == (v, Err(NotFound))
    ensures id in v.cache.items ==>
      var it := v.cache.items[id];
      r.1 == Ok(Init(it.value, h.initialize).value) &&
      r.0.cache.items.Keys == v.cache.items.Keys && r.0.cache.now == v.cache.now &&
      r.0.cache.items[id] == TtlCache.Item(Init(it.value, h.initialize), it.ttl, v.cache.now + it.ttl) &&
      (forall k :: k in v.cache.items && k != id ==> r.0.cache.items[k] == v.cache.items[k])
    ensures r.0.stopped == v.stopped && r.0.calls == v.calls
    ensures Valid(v) ==> Valid(r.0)
  {
    if id !in v.cache.items then (v, Err(NotFound))
    else
      var touched := v.(cache := TtlCache.Touch(v.cache, id));
      var (v1, value) := InitItem(touched, h.initialize, id);
      (v1, Ok(value))
  }

  /** The Finalize calls for evicted items: none when Finalize is nil,
      otherwise one per item, on its initialised value. */
  function Finals<T>(evicted: Items<T>, reason: FinalizeReason, h: Hooks<T>): (r: map<string, Final<T>>)
    ensures h.finalize ==> r.Keys == evicted.Keys
    ensures !h.finalize ==> r == map[]
    ensures forall k :: k in r ==> r[k] == Final(reason, Init(evicted[k].value, h.initialize).value)
  {
    if h.finalize then map k | k in evicted :: Final(reason, Init(evicted[k].value, h.initialize).value)
    else map[]
  }

  /** `Evict`: no effect on a missing id; a held element is removed and
      finalised with reason Deleted. */
  function Evict<T>(v: Vapor<T>, h: Hooks<T>, id: string): (r: (Vapor<T>, Option<Final<T>>))
    ensures id !in v.cache.items ==> r == (v, None)
    ensures id in v.cache.items ==>
      r.0.cache.items.Keys == v.cache.items.Keys - {id} &&
      (forall k :: k in r.0.cache.items ==> r.0.cache.items[k] == v.cache.items[k]) &&
      (r.1.Some? <==> h.finalize) &&
      (h.finalize ==> r.1.value == Final(Deleted, Init(v.cache.items[id].value, h.initialize).value))
    ensures r.0.stopped == v.stopped && r.0.calls == v.calls
    ensures Valid(v) ==> Valid(r.0)
  {
    if id !in v.cache.items then (v, None)
    else
      var e := v.cache.items[id].value;
      (v.(cache := TtlCache.Remove(v.cache, id)),
       if h.finalize then Some(Final(Deleted, Init(e, h.initialize).value)) else None)
  }

  /** Time passes: every element whose deadline has come is removed and
      finalised with reason Expired. */
  function Advance<T>(v: Vapor<T>, h: Hooks<T>, dt: nat): (r: (Vapor<T>, map<string, Final<T>>))
    ensures Valid(r.0) && r.0.cache.now == v.cache.now + dt
    ensures forall k :: k in r.0.cache.items <==>
      k in v.cache.items && !TtlCache.Expired(v.cache.items[k], v.cache.now + dt)
    ensures forall k :: k in r.0.cache.items ==> r.0.cache.items[k] == v.cache.items[k]
    ensures forall k :: k in r.1 <==>
      h.finalize && k in v.cache.items && TtlCache.Expired(v.cache.items[k], v.cache.now + dt)
    ensures forall k :: k in r.1 ==> r.1[k] == Final(Expired, Init(v.cache.items[k].value, h.initialize).value)
    ensures r.0.stopped == v.stopped && r.0.calls == v.calls
  {
    var (c, evicted) := TtlCache.Advance(v.cache, dt);
    (v.(cache := c), Finals(evicted, Expired, h))
  }

  /** What `EvictAfter` reports: the values `f` was called with, and the
      Finalize calls. */
  datatype Drained<T> = Drained(vapor: Vapor<T>, visited: map<string, T>, finals: map<string, Final<T>>)

  /** `EvictAfter`: the vapor stops taking new elements; `f` (when set) is
      called on every live element, initialised, and the element is then
      deleted; elements already expired are evicted as expired. */
  function EvictAfter<T>(v: Vapor<T>, h: Hooks<T>, hasF: bool): (r: Drained<T>)
    ensures r.vapor.stopped && r.vapor.cache.items == map[] && Valid(r.vapor)
    ensures r.vapor.calls == v.calls
    ensures hasF ==> forall k :: k in r.visited <==>
      k in v.cache.items && !TtlCache.Expired(v.cache.items[k], v.cache.now)
    ensures !hasF ==> r.visited == map[]
    ensures forall k :: k in r.visited ==> r.visited[k] == Init(v.cache.items[k].value, h.initialize).value
    ensures h.finalize ==> r.finals.Keys == v.cache.items.Keys
    ensures !h.finalize ==> r.finals == map[]
    ensures forall k :: k in r.finals ==>
      r.finals[k] == Final(if TtlCache.Expired(v.cache.items[k], v.cache.now) then Expired else Deleted,
                           Init(v.cache.items[k].value, h.initialize).value)
  {
    var items := v.cache.items;
    var t := v.cache.now;
    var live := map k | k in items && !TtlCache.Expired(items[k], t) :: items[k];
    var dead := map k | k in items && TtlCache.Expired(items[k], t) :: items[k];
    var visited := if hasF then map k | k in live :: Init(live[k].value, h.initialize).value else map[];
    var finals := Finals(live, Deleted, h) + Finals(dead, Expired, h);
    Drained(Vapor(true, TtlCache.Cache(map[], t), v.calls), visited, finals)
  }

  /** `Close`: every element is deleted and finalised with reason Deleted;
      the stopped flag is left as it was. */
  function Close<T>(v: Vapor<T>, h: Hooks<T>): (r: (Vapor<T>, map<string, Final<T>>))
    ensures r.0.cache.items == map[] && r.0.stopped == v.stopped && r.0.calls == v.calls && Valid(r.0)
    ensures r.1 == Finals(v.cache.items, Deleted, h)
  {
    (v.(cache := TtlCache.Cache(map[], v.cache.now)), Finals(v.cache.items, Deleted, h))
  }

  // ---------------------------------------------------------------------------
  // Properties

  /** A reference for the id `newEntry` picks on a running vapor: the first
      of the next `left` calls of NewID whose id is non-empty and not held. */
  function FirstFree<T>(items: Items<T>, newId: nat -> string, from: nat, left: nat): (r: Option<nat>)
    ensures r.Some? ==> from <= r.value < from + left
    decreases left
  {
    if left == 0 then None
    else if newId(from) != "" && newId(from) !in items then Some(from)
    else FirstFree(items, newId, from + 1, left - 1)
  }

  /** On a vapor that is not stopped, the loop takes exactly the first
      fresh non-empty id among its calls, and runs out when there is none. */
  lemma {:induction false} PickFindsFirstFree<T>(items: Items<T>, newId: nat -> string, from: nat, left: nat)
    ensures PickId(items, false, newId, from, left) ==
      match FirstFree(items, newId, from, left)
      case None => Exhausted
      case Some(n) => Picked(n)
    decreases left
  {
    if left > 0 && (newId(from) == "" || newId(from) in items) {
      PickFindsFirstFree(items, newId, from + 1, left - 1);
    }
  }

  /** So `newEntry` on a running vapor with NewID set succeeds exactly when
      one of its calls gives a fresh non-empty id, and returns the first. */
  lemma NewEntryFindsFirstFree<T>(v: Vapor<T>, h: Hooks<T>, zero: T, ttl: nat)
    requires !v.stopped && h.newId.Some?
    ensures var r := NewEntry(v, h, zero, ttl);
      match FirstFree(v.cache.items, h.newId.value, v.calls, MaxNewIdCalls)
      case None => r.1 == Err(NoID) && r.0.calls == v.calls + MaxNewIdCalls
      case Some(n) => r.1 == Ok(h.newId.value(n)) && r.0.calls == n + 1
  {
    PickFindsFirstFree(v.cache.items, h.newId.value, v.calls, MaxNewIdCalls);
  }

  /** A stopped vapor creates nothing: a non-empty id gives `errStopped`, and
      only a NewID that returns nothing but empty ids gives `errNoID`. */
  lemma StoppedCreatesNothing<T>(v: Vapor<T>, h: Hooks<T>, zero: T, ttl: nat)
    requires v.stopped && h.newId.Some?
    ensures var r := NewEntry(v, h, zero, ttl);
      r.1.Err? && r.0.cache == v.cache &&
      (r.1.error == Stopped <==> exists n :: v.calls <= n < v.calls + MaxNewIdCalls && h.newId.value(n) != "")
  {
    var p := PickId(v.cache.items, true, h.newId.value, v.calls, MaxNewIdCalls);
    if p.StoppedAt? {
      assert h.newId.value(p.at) != "";
    }
  }

  /** After `EvictAfter`, no element is ever created again. */
  lemma EvictAfterStopsCreation<T>(v: Vapor<T>, h: Hooks<T>, hasF: bool, zero: T, ttl: nat)
    ensures var d := EvictAfter(v, h, hasF);
      NewEntry(d.vapor, h, zero, ttl).1.Err? && GetNew(d.vapor, h, zero, ttl).1.Err?
  {
  }

  /** An element read at least once per time-to-live is never evicted by
      time. */
  lemma GetKeepsAlive<T>(v: Vapor<T>, h: Hooks<T>, id: string, dt: nat)
    requires id in v.cache.items && dt < v.cache.items[id].ttl
    ensures var after := Advance(Get(v, h, id).0, h, dt);
      id in after.0.cache.items && id !in after.1
  {
    TtlCache.KeepAlive(v.cache, id, dt);
  }

  /** An element left unread until its deadline is finalised as expired,
      with the value it was initialised to. */
  lemma UnreadExpires<T>(v: Vapor<T>, h: Hooks<T>, id: string, dt: nat)
    requires h.finalize && id in v.cache.items
    requires v.cache.items[id].ttl > 0 && v.cache.items[id].deadline <= v.cache.now + dt
    ensures var after := Advance(v, h, dt);
      id !in after.0.cache.items && id in after.1 && after.1[id].reason == Expired &&
      after.1[id].value == Init(v.cache.items[id].value, h.initialize).value
  {
  }

  /** Finalize sees an element initialised once, not twice: one that was
      already read is finalised with the value it holds. */
  lemma FinalizeSeesInitialised<T>(v: Vapor<T>, h: Hooks<T>, id: string)
    requires h.finalize && id in v.cache.items
    ensures var (v1, value) := InitItem(v, h.initialize, id);
      Evict(v1, h, id).1 == Some(Final(Deleted, value))
  {
    InitOnce(v.cache.items[id].value, h.initialize);
  }

  /** With Finalize set, `Close` finalises every element exactly once. */
  lemma CloseFinalisesAll<T>(v: Vapor<T>, h: Hooks<T>)
    requires h.finalize
    ensures var (v1, finals) := Close(v, h);
      finals.Keys == v.cache.items.Keys &&
      forall k :: k in finals ==> finals[k].reason == Deleted
  {
  }
}
