/**
  The older `Vapor[T]` of internal/rest_impl/vapor.go. It has the same
  entries, hooks and finalisation as internal/vapor/vapor.go, but no
  stopped flag and no `EvictAfter`, and its `GetNew` returns the element
  without its id. Its operations are written out here as that file has them
  and then related to the newer store on a vapor that was never stopped.
 */
module LegacyVapor {
  import opened Wrappers
  import TtlCache
  import Vapor

  datatype LegacyError = NoID | NewIDNil | NotFound

  /** The store and the number of NewID calls so far. */
  datatype Legacy<T> = Legacy(cache: TtlCache.Cache<Vapor.Entry<T>>, calls: nat)

  const MaxNewIdCalls: nat := 1000

  /** The `newEntry` loop over the ids of calls `from`, `from + 1`, ...:
      empty or held ids are skipped, the first other one is taken (`None`
      when the calls run out). */
  function PickId<T>(items: Vapor.Items<T>, newId: nat -> string, from: nat, left: nat): (r: Option<nat>)
    ensures r.Some? ==> from <= r.value < from + left && newId(r.value) != "" && newId(r.value) !in items
    ensures forall n :: from <= n < (if r.Some? then r.value else from + left) ==>
      newId(n) == "" || newId(n) in items
    decreases left
  {
    if left == 0 then None
    else if newId(from) == "" || newId(from) in items then PickId(items, newId, from + 1, left - 1)
    else Some(from)
  }

  /** `newEntry` and `New`: NewID must be set; a returned id is non-empty and
      was not held, and the elements held before stay as they were. */
  function NewEntry<T>(v: Legacy<T>, h: Vapor.Hooks<T>, zero: T, ttl: nat): (r: (Legacy<T>, Result<string, LegacyError>))
    ensures h.newId.None? ==> r == (v, Err(NewIDNil))
    ensures v.calls <= r.0.calls <= v.calls + MaxNewIdCalls
    ensures r.1.Ok? ==>
      r.1.value != "" && r.1.value !in v.cache.items &&
      r.0.cache.items.Keys == v.cache.items.Keys + {r.1.value} &&
      forall k :: k in v.cache.items ==> r.0.cache.items[k] == v.cache.items[k]
    ensures r.1.Err? ==> r.0.cache == v.cache
  {
    match h.newId
    case None => (v, Err(NewIDNil))
    case Some(newId) =>
      match PickId(v.cache.items, newId, v.calls, MaxNewIdCalls)
      case None => (v.(calls := v.calls + MaxNewIdCalls), Err(NoID))
      case Some(n) =>
        (Legacy(TtlCache.Insert(v.cache, newId(n), Vapor.Entry(false, zero), ttl), n + 1), Ok(newId(n)))
  }

  /** `initItem`. */
  function InitItem<T>(v: Legacy<T>, initialize: Option<T -> T>, id: string): (r: (Legacy<T>, T))
    requires id in v.cache.items
    ensures r.1 == Vapor.Init(v.cache.items[id].value, initialize).value
    ensures r.0.cache.items.Keys == v.cache.items.Keys && r.0.calls == v.calls
    ensures r.0.cache.items[id].value.initialised
  {
    var e := Vapor.Init(v.cache.items[id].value, initialize);
    (v.(cache := TtlCache.Replace(v.cache, id, e)), e.value)
  }

  /** `GetNew`: the new element, initialised; its id is not returned. */
  function GetNew<T>(v: Legacy<T>, h: Vapor.Hooks<T>, zero: T, ttl: nat): (r: (Legacy<T>, Result<T, LegacyError>))
    ensures var (v1, created) := NewEntry(v, h, zero, ttl);
      match created
      case Err(e) => r == (v1, Err(e))
      case Ok(id) => r.1 == Ok(Vapor.Init(Vapor.Entry(false, zero), h.initialize).value) &&
                     r.0.cache.items.Keys == v1.cache.items.Keys
  {
    var (v1, created) := NewEntry(v, h, zero, ttl);
    match created
    case Err(e) => (v1, Err(e))
    case Ok(id) =>
      var (v2, value) := InitItem(v1, h.initialize, id);
      (v2, Ok(value))
  }

  /** `Get`: `errNotFound` for a missing id, otherwise the touched,
      initialised element. */
  function Get<T>(v: Legacy<T>, h: Vapor.Hooks<T>, id: string): (r: (Legacy<T>, Result<T, LegacyError>))
    ensures id !in v.cache.items ==> r == (v, Err(NotFound))
    ensures id in v.cache.items ==>
      r.1 == Ok(Vapor.Init(v.cache.items[id].value, h.initialize).value) &&
      r.0.cache.items.Keys == v.cache.items.Keys &&
      r.0.cache.items[id].deadline == v.cache.now + v.cache.items[id].ttl
  {
    if id !in v.cache.items then (v, Err(NotFound))
    else
      var touched := v.(cache := TtlCache.Touch(v.cache, id));
      var (v1, value) := InitItem(touched, h.initialize, id);
      (v1, Ok(value))
  }

  /** `Evict`: a missing id has no effect. */
  function Evict<T>(v: Legacy<T>, h: Vapor.Hooks<T>, id: string): (r: (Legacy<T>, Option<Vapor.Final<T>>))
    ensures id !in v.cache.items ==> r == (v, None)
    ensures id in v.cache.items ==>
      r.0.cache.items.Keys == v.cache.items.Keys - {id} &&
      (r.1.Some? <==> h.finalize) &&
      (h.finalize ==> r.1.value == Vapor.Final(Vapor.Deleted, Vapor.Init(v.cache.items[id].value, h.initialize).value))
  {
    if id !in v.cache.items then (v, None)
    else
      var e := v.cache.items[id].value;
      (v.(cache := TtlCache.Remove(v.cache, id)),
       if h.finalize then Some(Vapor.Final(Vapor.Deleted, Vapor.Init(e, h.initialize).value)) else None)
  }

  /** `Close`: every element is deleted and finalised. */
  function Close<T>(v: Legacy<T>, h: Vapor.Hooks<T>): (r: (Legacy<T>, map<string, Vapor.Final<T>>))
    ensures r.0.cache.items == map[]
    ensures h.finalize ==> r.1.Keys == v.cache.items.Keys
    ensures forall k :: k in r.1 ==> r.1[k].reason == Vapor.Deleted
  {
    (v.(cache := TtlCache.Cache(map[], v.cache.now)), Vapor.Finals(v.cache.items, Vapor.Deleted, h))
  }

  // ---------------------------------------------------------------------------
  // Agreement with the newer store

  /** The newer store in the same state, never stopped. */
  function AsVapor<T>(v: Legacy<T>): Vapor.Vapor<T> {
    Vapor.Vapor(false, v.cache, v.calls)
  }

  function AsVaporError(e: LegacyError): Vapor.VaporError {
    match e
    case NoID => Vapor.NoID
    case NewIDNil => Vapor.NewIDNil
    case NotFound => Vapor.NotFound
  }

  function AsVaporResult<R>(r: Result<R, LegacyError>): Result<R, Vapor.VaporError> {
    match r
    case Ok(x) => Ok(x)
    case Err(e) => Err(AsVaporError(e))
  }

  /** The older loop takes the first fresh non-empty id among its calls,
      as the newer one does on a vapor that is not stopped. */
  lemma {:induction false} PickAgrees<T>(items: Vapor.Items<T>, newId: nat -> string, from: nat, left: nat)
    ensures Vapor.PickId(items, false, newId, from, left) ==
      match PickId(items, newId, from, left)
      case None => Vapor.Exhausted
      case Some(n) => Vapor.Picked(n)
    decreases left
  {
    if left > 0 && (newId(from) == "" || newId(from) in items) {
      PickAgrees(items, newId, from + 1, left - 1);
    }
  }

  /** Without a stop, both stores call NewID as often, take the same id and
      store the same new element. */
  lemma NewEntryAgrees<T>(v: Legacy<T>, h: Vapor.Hooks<T>, zero: T, ttl: nat)
    ensures Vapor.NewEntry(AsVapor(v), h, zero, ttl).0 == AsVapor(NewEntry(v, h, zero, ttl).0)
    ensures Vapor.NewEntry(AsVapor(v), h, zero, ttl).1 == AsVaporResult(NewEntry(v, h, zero, ttl).1)
  {
    if h.newId.Some? {
      PickAgrees(v.cache.items, h.newId.value, v.calls, MaxNewIdCalls);
    }
  }

  /** The older `GetNew` is the newer one without the id, on a vapor that
      was never stopped. */
  lemma GetNewAgrees<T>(v: Legacy<T>, h: Vapor.Hooks<T>, zero: T, ttl: nat)
    ensures var (l, lr) := GetNew(v, h, zero, ttl);
      var (n, nr) := Vapor.GetNew(AsVapor(v), h, zero, ttl);
      n == AsVapor(l) &&
      (lr.Ok? <==> nr.Ok?) &&
      (lr.Ok? ==> lr.value == nr.value.1) &&
      (lr.Err? ==> nr.error == AsVaporError(lr.error))
  {
    NewEntryAgrees(v, h, zero, ttl);
  }

  /** `Get` and `Evict` behave as the newer store's. */
  lemma GetEvictAgree<T>(v: Legacy<T>, h: Vapor.Hooks<T>, id: string)
    ensures var (l, lr) := Get(v, h, id);
      var (n, nr) := Vapor.Get(AsVapor(v), h, id);
      n == AsVapor(l) && nr == AsVaporResult(lr)
    ensures var (l, lf) := Evict(v, h, id);
      var (n, nf) := Vapor.Evict(AsVapor(v), h, id);
      n == AsVapor(l) && nf == lf
  {
  }
}
