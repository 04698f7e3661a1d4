/**
  `OrderedMap` of internal/omap/omap.go: a slice of key/raw-value pairs that
  keeps insertion order. A nil map and an empty one differ (they marshal
  differently), so the nil slice is its own constructor. Raw JSON values are
  text; a nil raw value and an empty one are not told apart.
 */
module OrderedMap {
  import opened Wrappers

  datatype Entry = Entry(key: string, value: string)

  datatype OrderedMap = Nil | Entries(entries: seq<Entry>)

  function Items(om: OrderedMap): seq<Entry> {
    match om
    case Nil => []
    case Entries(es) => es
  }

  function Keys(es: seq<Entry>): (ks: seq<string>)
    ensures |ks| == |es|
    ensures forall i :: 0 <= i < |es| ==> ks[i] == es[i].key
  {
    if |es| == 0 then [] else [es[0].key] + Keys(es[1..])
  }

  predicate DistinctKeys(es: seq<Entry>) {
    forall i, j :: 0 <= i < j < |es| ==> es[i].key != es[j].key
  }

  /** Position of the first entry with key `k`. */
  function Find(es: seq<Entry>, k: string): (r: Option<nat>)
    ensures r.Some? ==> r.value < |es| && es[r.value].key == k &&
                        forall i :: 0 <= i < r.value ==> es[i].key != k
    ensures r.None? ==> forall i :: 0 <= i < |es| ==> es[i].key != k
    decreases |es|
  {
    if |es| == 0 then None
    else if es[0].key == k then Some(0)
    else
      match Find(es[1..], k)
      case None => None
      case Some(i) => Some(i + 1)
  }

  /** `Set`: overwrite the first entry with the key in place, or append. */
  function Set(om: OrderedMap, k: string, v: string): (r: OrderedMap)
    ensures r.Entries?
    // an existing key: same length, same keys in the same order, one value changed
    ensures Find(Items(om), k).Some? ==>
      var i := Find(Items(om), k).value;
      Items(r) == Items(om)[i := Entry(k, v)]
    // an absent key: one entry appended at the end
    ensures Find(Items(om), k).None? ==> Items(r) == Items(om) + [Entry(k, v)]
  {
    var es := Items(om);
    match Find(es, k)
    case Some(i) => Entries(es[i := Entry(k, v)])
    case None => Entries(es + [Entry(k, v)])
  }

  /** `Get`: the value of the first entry with the key, or `("", false)` for
      the nil result when there is none. */
  function Get(om: OrderedMap, k: string): (r: (string, bool))
    ensures r.1 <==> exists i :: 0 <= i < |Items(om)| && Items(om)[i].key == k
    ensures !r.1 ==> r.0 == ""
    ensures r.1 ==> exists i :: 0 <= i < |Items(om)| && Items(om)[i] == Entry(k, r.0) &&
                               forall j :: 0 <= j < i ==> Items(om)[j].key != k
  {
    match Find(Items(om), k)
    case Some(i) => (Items(om)[i].value, true)
    case None => ("", false)
  }

  /** Existing keys keep their positions and the length does not change. */
  lemma SetExistingKeepsOrder(om: OrderedMap, k: string, v: string)
    requires Find(Items(om), k).Some?
    ensures |Items(Set(om, k, v))| == |Items(om)|
    ensures Keys(Items(Set(om, k, v))) == Keys(Items(om))
  {
  }

  /** A `Get` after `Set(k, v)` finds `v`. */
  lemma GetAfterSet(om: OrderedMap, k: string, v: string)
    ensures Get(Set(om, k, v), k) == (v, true)
  {
    var es := Items(om);
    var r := Items(Set(om, k, v));
    match Find(es, k)
    case Some(i) =>
      assert r[i] == Entry(k, v);
      assert Find(r, k) == Some(i) by {
        FindUnique(r, k, i);
      }
    case None =>
      assert r[|es|] == Entry(k, v);
      FindUnique(r, k, |es|);
  }

  lemma FindUnique(es: seq<Entry>, k: string, i: nat)
    requires i < |es| && es[i].key == k
    requires forall j :: 0 <= j < i ==> es[j].key != k
    ensures Find(es, k) == Some(i)
  {
  }

  /** `Set(k, ·)` leaves `Get` of every other key unchanged. */
  lemma SetLeavesOthers(om: OrderedMap, k: string, v: string, other: string)
    requires other != k
    ensures Get(Set(om, k, v), other) == Get(om, other)
  {
    var es := Items(om);
    var r := Items(Set(om, k, v));
    assert forall i :: 0 <= i < |es| ==> (r[i].key == other <==> es[i].key == other);
    match Find(es, other)
    case Some(i) =>
      FindUnique(r, other, i);
    case None =>
      assert forall i :: 0 <= i < |r| ==> r[i].key != other;
  }

  /** `Get` on a key that is absent returns the nil value and false. */
  lemma GetAbsent(om: OrderedMap, k: string)
    requires forall i :: 0 <= i < |Items(om)| ==> Items(om)[i].key != k
    ensures Get(om, k) == ("", false)
  {
  }

  /** Keys stay pairwise distinct under `Set`. */
  lemma SetKeepsKeysDistinct(om: OrderedMap, k: string, v: string)
    requires DistinctKeys(Items(om))
    ensures DistinctKeys(Items(Set(om, k, v)))
  {
  }
}
