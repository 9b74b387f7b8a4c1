/** What the cache means to its clients: optional values by key, and the list of subscribers in
    registration order. The slot pool (CachePool.dfy) refines this view. */
module CacheSpec {
  import opened Options

  datatype Subscriber<+K, +W> = Subscriber(slot: nat, key: K, who: W)

  /** The `KeyChanged` payload together with its addressee. */
  datatype Note<+K, +V, +W> = Note(to: W, key: K, before: Option<V>, after: V)

  datatype Cache<K, V, W> = Cache(values: map<K, V>, subs: seq<Subscriber<K, W>>)

  function Get<K, V, W>(c: Cache<K, V, W>, k: K): Option<V> {
    if k in c.values then Some(c.values[k]) else None
  }

  /** One notification per subscriber of `k`, in registration order. */
  function Notes<K(==), V, W>(subs: seq<Subscriber<K, W>>, k: K, before: Option<V>, after: V): seq<Note<K, V, W>> {
    if subs == [] then []
    else (if subs[0].key == k then [Note(subs[0].who, k, before, after)] else []) + Notes(subs[1..], k, before, after)
  }

  function Changed<K(==), V(==), W>(c: Cache<K, V, W>, k: K, v: V): bool {
    Get(c, k) != Some(v)
  }

  function Set<K(==), V(==), W>(c: Cache<K, V, W>, k: K, v: V): Cache<K, V, W> {
    c.(values := c.values[k := v])
  }

  /** What a write posts: nothing when it compares equal to the stored value. */
  function SetNotes<K(==), V(==), W>(c: Cache<K, V, W>, k: K, v: V): seq<Note<K, V, W>> {
    if Changed(c, k, v) then Notes(c.subs, k, Get(c, k), v) else []
  }

  predicate SlotTaken<K, W>(subs: seq<Subscriber<K, W>>, slot: nat) {
    exists i :: 0 <= i < |subs| && subs[i].slot == slot
  }

  /** The subscriber list without the entry of `slot`; the others keep their order. */
  function Without<K, W>(subs: seq<Subscriber<K, W>>, slot: nat): seq<Subscriber<K, W>> {
    if subs == [] then []
    else if subs[0].slot == slot then subs[1..]
    else [subs[0]] + Without(subs[1..], slot)
  }

  function LowestFreeFrom<K, W>(subs: seq<Subscriber<K, W>>, slot: nat, capacity: nat): (r: nat)
    ensures slot <= capacity ==> slot <= r <= capacity
    decreases capacity - slot
  {
    if slot < capacity && SlotTaken(subs, slot)
    then LowestFreeFrom(subs, slot + 1, capacity)
    else slot
  }

  /** The slot that `find_free_slot` picks: the lowest inactive one. */
  function LowestFree<K, W>(subs: seq<Subscriber<K, W>>, capacity: nat): nat {
    LowestFreeFrom(subs, 0, capacity)
  }

  function Subscribe<K(==), V, W>(c: Cache<K, V, W>, capacity: nat, k: K, who: W): Cache<K, V, W> {
    c.(subs := c.subs + [Subscriber(LowestFree(c.subs, capacity), k, who)])
  }

  function Release<K, V, W>(c: Cache<K, V, W>, slot: nat): Cache<K, V, W> {
    c.(subs := Without(c.subs, slot))
  }
}
