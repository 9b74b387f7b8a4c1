/** The move-only `Subscription` handle, and who owns which slot over all sequences of moves. */
module Subscriptions {
  import opened Options
  import opened CachePools
  import C = CacheSpec

  // ---- Facts about the subscriber list --------------------------------------------------------

  ghost predicate SlotsDiffer<K, W>(subs: seq<C.Subscriber<K, W>>) {
    forall i, j :: 0 <= i < j < |subs| ==> subs[i].slot != subs[j].slot
  }

  /** Releasing `slot` removes its entries only, and keeps the order of the others. */
  lemma {:induction false} WithoutKeeps<K, W>(subs: seq<C.Subscriber<K, W>>, slot: nat, x: C.Subscriber<K, W>)
    requires SlotsDiffer(subs)
    ensures x in C.Without(subs, slot) <==> x in subs && x.slot != slot
    ensures SlotsDiffer(C.Without(subs, slot))
    ensures |C.Without(subs, slot)| <= |subs|
    decreases |subs|
  {
    if subs != [] {
      var rest := C.Without(subs[1..], slot);
      WithoutKeeps(subs[1..], slot, x);
      assert x in subs <==> x == subs[0] || x in subs[1..];
      if subs[0].slot != slot {
        forall i | 0 <= i < |rest| ensures rest[i].slot != subs[0].slot {
          WithoutKeeps(subs[1..], slot, rest[i]);
          assert rest[i] in subs[1..];
        }
      }
    }
  }

  lemma TakenMeansIn<K, W>(subs: seq<C.Subscriber<K, W>>, slot: nat)
    ensures C.SlotTaken(subs, slot) <==> exists x :: x in subs && x.slot == slot
  {
    if x :| x in subs && x.slot == slot {
      var i :| 0 <= i < |subs| && subs[i] == x;
    }
    if C.SlotTaken(subs, slot) {
      var i :| 0 <= i < |subs| && subs[i].slot == slot;
      assert subs[i] in subs;
    }
  }

  lemma ReleaseSpares<K, W>(subs: seq<C.Subscriber<K, W>>, slot: nat, other: nat)
    requires SlotsDiffer(subs) && C.SlotTaken(subs, other) && other != slot
    ensures C.SlotTaken(C.Without(subs, slot), other)
  {
    TakenMeansIn(subs, other);
    var x :| x in subs && x.slot == other;
    WithoutKeeps(subs, slot, x);
    TakenMeansIn(C.Without(subs, slot), other);
  }

  lemma EnumeratedDiffer<K, W>(slots: seq<Slot<K, W>>, order: seq<nat>, subs: seq<C.Subscriber<K, W>>)
    requires Enumerates(slots, order, subs)
    ensures SlotsDiffer(subs)
  {
    assert forall i :: 0 <= i < |order| ==> Holds(slots, order[i], subs[i]);
  }

  lemma PoolSpares<K(!new), V(!new), W(!new)>(pool: CachePool<K, V, W>, slot: nat, other: nat)
    requires pool.Valid() && C.SlotTaken(pool.spec.subs, other) && other != slot
    ensures C.SlotTaken(C.Release(pool.spec, slot).subs, other)
  {
    EnumeratedDiffer(pool.slots[..], pool.order[..pool.active], pool.spec.subs);
    ReleaseSpares(pool.spec.subs, slot, other);
  }

  // ---- The handle -----------------------------------------------------------------------------

  class Subscription<K(==, !new), V(==, !new), W(==, !new)> {
    var pool: CachePool?<K, V, W>
    var index: nat

    /** An inert handle, or one that owns a slot of a live pool. */
    ghost predicate Valid()
      reads this, pool, if pool != null then {pool.slots, pool.order} else {}
    {
      pool != null ==> pool.Valid() && C.SlotTaken(pool.spec.subs, index)
    }

    constructor ()
      ensures pool == null
    {
      pool, index := null, 0;
    }

    constructor Bound(pool: CachePool<K, V, W>, index: nat)
      ensures this.pool == pool && this.index == index
    {
      this.pool, this.index := pool, index;
    }

    /** `reset` and the destructor. */
    method Release()
      requires Valid()
      modifies this`pool, if pool != null then {pool, pool.slots, pool.order} else {}
      ensures pool == null
      ensures old(pool) != null ==> old(pool).Valid() && old(pool).spec == C.Release(old(pool.spec), index)
      ensures old(pool) != null ==> old(pool).sink == old(pool.sink) && old(pool).slots == old(pool.slots) && old(pool).order == old(pool.order)
    {
      if pool != null {
        pool.ReleaseSlot(index);
        pool := null;
      }
    }

    /** Takes over the slot of another handle. */
    method TakeFrom(other: Subscription<K, V, W>)
      requires other != this && pool == null && other.Valid()
      modifies this, other`pool
      ensures Valid() && pool == old(other.pool) && index == old(other.index) && other.pool == null
    {
      pool, index := other.pool, other.index;
      other.pool := null;
    }

    /** Two handles never share a slot, nor two pools their arrays. */
    ghost predicate Apart(other: Subscription<K, V, W>)
      reads this, other, pool, other.pool
    {
      && (pool != null && pool == other.pool ==> index != other.index)
      && (pool != null && other.pool != null && pool != other.pool ==>
            pool.slots != other.pool.slots && pool.order != other.pool.order)
    }

    /** Move assignment: the own slot is released, the other's taken over; onto itself it does nothing. */
    method MoveFrom(other: Subscription<K, V, W>)
      requires Valid() && other.Valid() && (other != this ==> Apart(other))
      modifies this, other`pool, if pool != null && other != this then {pool, pool.slots, pool.order} else {}
      ensures Valid()
      ensures other == this ==> pool == old(pool) && index == old(index)
      ensures other != this ==> pool == old(other.pool) && index == old(other.index) && other.pool == null
      ensures other != this && old(pool) != null ==> old(pool).Valid() && old(pool).spec == C.Release(old(pool.spec), old(index))
      ensures other != this && old(pool) != null ==> old(pool).slots == old(pool.slots) && old(pool).order == old(pool.order)
    {
      if this != other {
        if pool != null && pool == other.pool {
          PoolSpares(pool, index, other.index);
        }
        Release();
        TakeFrom(other);
      }
    }
  }

  // ---- Ownership over all sequences of moves --------------------------------------------------

  /** The pool and every handle in scope; a handle holds a slot or is inert. */
  datatype World<K(==), V, W> = World(cache: C.Cache<K, V, W>, capacity: nat, handles: map<nat, Option<nat>>)

  datatype Op<+K, +W> =
    | Subscribe(h: nat, key: K, who: W)
    | MoveNew(h: nat, from: nat)
    | MoveAssign(h: nat, from: nat)
    | Reset(h: nat)
    | Destroy(h: nat)

  predicate Enabled<K, V, W>(w: World<K, V, W>, op: Op<K, W>) {
    match op
    case Subscribe(h, _, _) => h !in w.handles && |w.cache.subs| < w.capacity
    case MoveNew(h, from) => h !in w.handles && from in w.handles
    case MoveAssign(h, from) => h in w.handles && from in w.handles
    case Reset(h) => h in w.handles
    case Destroy(h) => h in w.handles
  }

  function Dropped<K, V, W>(c: C.Cache<K, V, W>, slot: Option<nat>): C.Cache<K, V, W> {
    match slot
    case Some(s) => C.Release(c, s)
    case None => c
  }

  function Apply<K, V, W>(w: World<K, V, W>, op: Op<K, W>): World<K, V, W>
    requires Enabled(w, op)
  {
    match op
    case Subscribe(h, k, who) =>
      w.(cache := C.Subscribe(w.cache, w.capacity, k, who),
         handles := w.handles[h := Some(C.LowestFree(w.cache.subs, w.capacity))])
    case MoveNew(h, from) => w.(handles := w.handles[h := w.handles[from]][from := None])
    case MoveAssign(h, from) =>
      if h == from then w
      else w.(cache := Dropped(w.cache, w.handles[h]), handles := w.handles[h := w.handles[from]][from := None])
    case Reset(h) => w.(cache := Dropped(w.cache, w.handles[h]), handles := w.handles[h := None])
    case Destroy(h) => w.(cache := Dropped(w.cache, w.handles[h]), handles := w.handles - {h})
  }

  /** Each active slot is owned by exactly one handle, and each handle owns an active slot or nothing. */
  ghost predicate Owned<K, V, W>(w: World<K, V, W>) {
    && SlotsDiffer(w.cache.subs)
    && |w.cache.subs| <= w.capacity
    && (forall h, g :: h in w.handles && g in w.handles && h != g && w.handles[h].Some? ==> w.handles[h] != w.handles[g])
    && (forall s: nat :: C.SlotTaken(w.cache.subs, s) <==> exists h :: h in w.handles && w.handles[h] == Some(s))
  }

  lemma SubscribeOwned<K, V, W>(w: World<K, V, W>, h: nat, k: K, who: W)
    requires Owned(w) && h !in w.handles && |w.cache.subs| < w.capacity
    ensures Owned(Apply(w, Subscribe(h, k, who)))
  {
    var slot := C.LowestFree(w.cache.subs, w.capacity);
    LowestIsFree(w.cache.subs, w.capacity);
    var w' := Apply(w, Subscribe(h, k, who));
    forall s: nat ensures C.SlotTaken(w'.cache.subs, s) <==> C.SlotTaken(w.cache.subs, s) || s == slot {
      TakenAppend(w.cache.subs, C.Subscriber(slot, k, who), s);
    }
    forall s: nat ensures C.SlotTaken(w'.cache.subs, s) <==> exists g :: g in w'.handles && w'.handles[g] == Some(s) {
      if s == slot {
        assert w'.handles[h] == Some(s);
      } else if C.SlotTaken(w.cache.subs, s) {
        var g :| g in w.handles && w.handles[g] == Some(s);
        assert w'.handles[g] == Some(s);
      }
    }
  }

  lemma TakenAppend<K, W>(subs: seq<C.Subscriber<K, W>>, x: C.Subscriber<K, W>, s: nat)
    ensures C.SlotTaken(subs + [x], s) <==> C.SlotTaken(subs, s) || s == x.slot
  {
    if C.SlotTaken(subs, s) {
      var i :| 0 <= i < |subs| && subs[i].slot == s;
      assert (subs + [x])[i].slot == s;
    }
    assert (subs + [x])[|subs|] == x;
  }

  /** Below capacity the slot picked is free: each of the lower ones uses up one subscriber. */
  lemma LowestIsFree<K, W>(subs: seq<C.Subscriber<K, W>>, capacity: nat)
    requires SlotsDiffer(subs) && |subs| < capacity
    ensures C.LowestFree(subs, capacity) < capacity && !C.SlotTaken(subs, C.LowestFree(subs, capacity))
  {
    SearchEnds(subs, 0, capacity);
    if C.LowestFree(subs, capacity) == capacity {
      var order := SlotList(subs);
      forall s | 0 <= s < capacity ensures s in SlotsBelow(order, capacity) {
        assert C.SlotTaken(subs, s);
        var i :| 0 <= i < |subs| && subs[i].slot == s;
        assert order[i] == s;
        BelowKeeps(order, capacity, s);
      }
      BelowNoRepeats(order, capacity);
      DistinctAreFew(SlotsBelow(order, capacity), capacity);
    }
  }

  lemma {:induction false} SearchEnds<K, W>(subs: seq<C.Subscriber<K, W>>, from: nat, capacity: nat)
    requires from <= capacity
    ensures forall s: nat :: from <= s < C.LowestFreeFrom(subs, from, capacity) ==> C.SlotTaken(subs, s)
    ensures C.LowestFreeFrom(subs, from, capacity) < capacity ==> !C.SlotTaken(subs, C.LowestFreeFrom(subs, from, capacity))
    decreases capacity - from
  {
    if from < capacity && C.SlotTaken(subs, from) {
      SearchEnds(subs, from + 1, capacity);
    }
  }

  function SlotList<K, W>(subs: seq<C.Subscriber<K, W>>): (r: seq<nat>)
    ensures |r| == |subs| && forall i :: 0 <= i < |r| ==> r[i] == subs[i].slot
  {
    if subs == [] then [] else [subs[0].slot] + SlotList(subs[1..])
  }

  function SlotsBelow(order: seq<nat>, n: nat): seq<nat> {
    if order == [] then []
    else (if order[0] < n then [order[0]] else []) + SlotsBelow(order[1..], n)
  }

  lemma {:induction false} BelowKeeps(order: seq<nat>, n: nat, s: nat)
    ensures s in SlotsBelow(order, n) <==> s in order && s < n
  {
    if order != [] {
      BelowKeeps(order[1..], n, s);
      assert s in order <==> s == order[0] || s in order[1..];
    }
  }

  lemma {:induction false} BelowNoRepeats(order: seq<nat>, n: nat)
    requires NoRepeats(order)
    ensures NoRepeats(SlotsBelow(order, n)) && |SlotsBelow(order, n)| <= |order|
    ensures forall i :: 0 <= i < |SlotsBelow(order, n)| ==> SlotsBelow(order, n)[i] < n
  {
    if order != [] {
      BelowNoRepeats(order[1..], n);
      var rest := SlotsBelow(order[1..], n);
      forall i | 0 <= i < |rest| ensures rest[i] != order[0] {
        assert rest[i] in rest;
        BelowKeeps(order[1..], n, rest[i]);
      }
    }
  }

  /** Dropping what handle `h` holds. */
  lemma DropOwned<K, V, W>(w: World<K, V, W>, h: nat)
    requires Owned(w) && h in w.handles
    ensures Owned(w.(cache := Dropped(w.cache, w.handles[h]), handles := w.handles[h := None]))
  {
    var w' := w.(cache := Dropped(w.cache, w.handles[h]), handles := w.handles[h := None]);
    DropSlots(w, h);
    forall s: nat ensures C.SlotTaken(w'.cache.subs, s) <==> exists g :: g in w'.handles && w'.handles[g] == Some(s) {
      if C.SlotTaken(w.cache.subs, s) && w.handles[h] != Some(s) {
        var g :| g in w.handles && w.handles[g] == Some(s);
        assert w'.handles[g] == Some(s);
      }
    }
  }

  lemma DropSlots<K, V, W>(w: World<K, V, W>, h: nat)
    requires Owned(w) && h in w.handles
    ensures forall x :: x in Dropped(w.cache, w.handles[h]).subs <==> x in w.cache.subs && w.handles[h] != Some(x.slot)
    ensures forall s: nat :: C.SlotTaken(Dropped(w.cache, w.handles[h]).subs, s) <==> C.SlotTaken(w.cache.subs, s) && w.handles[h] != Some(s)
    ensures SlotsDiffer(Dropped(w.cache, w.handles[h]).subs) && |Dropped(w.cache, w.handles[h]).subs| <= |w.cache.subs|
  {
    var subs' := Dropped(w.cache, w.handles[h]).subs;
    forall x ensures x in subs' <==> x in w.cache.subs && w.handles[h] != Some(x.slot) {
      if w.handles[h].Some? { WithoutKeeps(w.cache.subs, w.handles[h].value, x); }
    }
    if w.handles[h].Some? {
      var i :| 0 <= i < |w.cache.subs| && w.cache.subs[i].slot == w.handles[h].value;
      WithoutKeeps(w.cache.subs, w.handles[h].value, w.cache.subs[i]);
    }
    forall s: nat ensures C.SlotTaken(subs', s) <==> C.SlotTaken(w.cache.subs, s) && w.handles[h] != Some(s) {
      SameTaken(w.cache.subs, subs', w.handles[h], s);
    }
  }

  lemma SameTaken<K, W>(subs: seq<C.Subscriber<K, W>>, subs': seq<C.Subscriber<K, W>>, gone: Option<nat>, s: nat)
    requires forall x :: x in subs' <==> x in subs && gone != Some(x.slot)
    ensures C.SlotTaken(subs', s) <==> C.SlotTaken(subs, s) && gone != Some(s)
  {
    TakenMeansIn(subs', s);
    TakenMeansIn(subs, s);
  }

  /** `release_slot` is only ever called for an active slot: its assertions cannot fail. */
  lemma StepOwned<K, V, W>(w: World<K, V, W>, op: Op<K, W>)
    requires Owned(w) && Enabled(w, op)
    ensures Owned(Apply(w, op))
    ensures op.MoveAssign? || op.Reset? || op.Destroy? ==>
      w.handles[op.h].Some? ==> C.SlotTaken(w.cache.subs, w.handles[op.h].value)
  {
    match op
    case Subscribe(h, k, who) => SubscribeOwned(w, h, k, who);
    case MoveNew(h, from) => Rehandled(w, h, from);
    case MoveAssign(h, from) =>
      if h != from {
        DropOwned(w, h);
        var w1 := w.(cache := Dropped(w.cache, w.handles[h]), handles := w.handles[h := None]);
        Rehandled(w1, h, from);
        assert w1.handles[h := w1.handles[from]][from := None] == w.handles[h := w.handles[from]][from := None];
      }
    case Reset(h) => DropOwned(w, h);
    case Destroy(h) =>
      DropOwned(w, h);
      Forget(w.(cache := Dropped(w.cache, w.handles[h]), handles := w.handles[h := None]), h);
      assert w.handles[h := None] - {h} == w.handles - {h};
  }

  /** The slot of `from` passes to the new or inert handle `h`. */
  lemma Rehandled<K, V, W>(w: World<K, V, W>, h: nat, from: nat)
    requires Owned(w) && from in w.handles && h != from && (h in w.handles ==> w.handles[h] == None)
    ensures Owned(w.(handles := w.handles[h := w.handles[from]][from := None]))
  {
    var w' := w.(handles := w.handles[h := w.handles[from]][from := None]);
    forall s: nat ensures C.SlotTaken(w'.cache.subs, s) <==> exists g :: g in w'.handles && w'.handles[g] == Some(s) {
      if C.SlotTaken(w.cache.subs, s) {
        var g :| g in w.handles && w.handles[g] == Some(s);
        assert w'.handles[if g == from then h else g] == Some(s);
      }
    }
  }

  /** An inert handle goes out of scope. */
  lemma Forget<K, V, W>(w: World<K, V, W>, h: nat)
    requires Owned(w) && h in w.handles && w.handles[h] == None
    ensures Owned(w.(handles := w.handles - {h}))
  {
    var w' := w.(handles := w.handles - {h});
    forall s: nat ensures C.SlotTaken(w'.cache.subs, s) <==> exists g :: g in w'.handles && w'.handles[g] == Some(s) {
      if C.SlotTaken(w.cache.subs, s) {
        var g :| g in w.handles && w.handles[g] == Some(s);
        assert w'.handles[g] == Some(s);
      }
    }
  }

  predicate Allowed<K, V, W>(w: World<K, V, W>, ops: seq<Op<K, W>>)
    decreases |ops|
  {
    ops == [] || (Enabled(w, ops[0]) && Allowed(Apply(w, ops[0]), ops[1..]))
  }

  function After<K, V, W>(w: World<K, V, W>, ops: seq<Op<K, W>>): World<K, V, W>
    requires Allowed(w, ops)
    decreases |ops|
  {
    if ops == [] then w else After(Apply(w, ops[0]), ops[1..])
  }

  /** Over all sequences of subscribing, moving, resetting and destroying handles. */
  lemma {:induction false} OneOwnerEach<K, V, W>(w: World<K, V, W>, ops: seq<Op<K, W>>)
    requires Owned(w) && Allowed(w, ops)
    ensures Owned(After(w, ops))
    decreases |ops|
  {
    if ops != [] {
      StepOwned(w, ops[0]);
      OneOwnerEach(Apply(w, ops[0]), ops[1..]);
    }
  }

  predicate Touches<K, W>(op: Op<K, W>, h: nat) {
    op.h == h || (op.MoveNew? && op.from == h) || (op.MoveAssign? && op.from == h)
  }

  /** Whatever is done to other handles, in whatever order slots are reused, a handle keeps the very
      subscription it holds: the same slot, key and subscriber. */
  lemma {:induction false} NobodyElseReleases<K, V, W>(w: World<K, V, W>, ops: seq<Op<K, W>>, h: nat, x: C.Subscriber<K, W>)
    requires Owned(w) && Allowed(w, ops)
    requires h in w.handles && w.handles[h] == Some(x.slot) && x in w.cache.subs
    requires forall i :: 0 <= i < |ops| ==> !Touches(ops[i], h)
    ensures h in After(w, ops).handles && After(w, ops).handles[h] == Some(x.slot) && x in After(w, ops).cache.subs
    decreases |ops|
  {
    if ops != [] {
      StepOwned(w, ops[0]);
      StepSpares(w, ops[0], h, x);
      NobodyElseReleases(Apply(w, ops[0]), ops[1..], h, x);
    }
  }

  lemma StepSpares<K, V, W>(w: World<K, V, W>, op: Op<K, W>, h: nat, x: C.Subscriber<K, W>)
    requires Owned(w) && Enabled(w, op) && !Touches(op, h)
    requires h in w.handles && w.handles[h] == Some(x.slot) && x in w.cache.subs
    ensures h in Apply(w, op).handles && Apply(w, op).handles[h] == Some(x.slot) && x in Apply(w, op).cache.subs
  {
    if op.h in w.handles {
      DropSlots(w, op.h);
    }
  }
}
