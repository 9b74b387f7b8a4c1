/** The cache as it is built: a fixed pool of slots and an array with the registration order.
    Every operation is the corresponding one of CacheSpec on the list of subscribers it stands for. */
module CachePools {
  import opened Options
  import opened PostSinks
  import C = CacheSpec

  /** A released slot keeps its stale key and subscriber. */
  datatype Slot<+K, +W> = Slot(active: bool, key: Option<K>, who: Option<W>)

  ghost predicate Holds<K, W>(slots: seq<Slot<K, W>>, s: nat, x: C.Subscriber<K, W>) {
    s < |slots| && x.slot == s && slots[s] == Slot(true, Some(x.key), Some(x.who))
  }

  ghost predicate NoRepeats(order: seq<nat>) {
    forall i, j :: 0 <= i < j < |order| ==> order[i] != order[j]
  }

  /** `order` lists the active slots once each, and `subs` is what they hold. */
  ghost predicate Enumerates<K, W>(slots: seq<Slot<K, W>>, order: seq<nat>, subs: seq<C.Subscriber<K, W>>) {
    && |subs| == |order|
    && (forall i :: 0 <= i < |order| ==> Holds(slots, order[i], subs[i]))
    && NoRepeats(order)
    && (forall s :: 0 <= s < |slots| && slots[s].active ==> s in order)
  }

  /** Pigeonhole: a list of distinct numbers below `n` that has all of them has at least `n` entries. */
  lemma {:induction false} DistinctAreFew(order: seq<nat>, n: nat)
    requires forall i :: 0 <= i < |order| ==> order[i] < n
    requires NoRepeats(order)
    requires forall s :: 0 <= s < n ==> s in order
    ensures n <= |order|
  {
    if n > 0 {
      assert n - 1 in order;
      var pos :| 0 <= pos < |order| && order[pos] == n - 1;
      var rest := order[..pos] + order[pos + 1..];
      forall s | 0 <= s < n - 1 ensures s in rest {
        assert s in order;
        var i :| 0 <= i < |order| && order[i] == s;
        assert s == if i < pos then rest[i] else rest[i - 1];
      }
      DistinctAreFew(rest, n - 1);
    }
  }

  /** Below capacity some slot is free. */
  lemma FreeSlotExists<K, W>(slots: seq<Slot<K, W>>, order: seq<nat>, subs: seq<C.Subscriber<K, W>>)
    requires Enumerates(slots, order, subs) && |order| < |slots|
    ensures exists s :: 0 <= s < |slots| && !slots[s].active
  {
    if forall s :: 0 <= s < |slots| ==> slots[s].active {
      DistinctAreFew(order, |slots|);
    }
  }

  /** A slot is taken in the list exactly when it is active in the pool. */
  lemma ActiveIsTaken<K, W>(slots: seq<Slot<K, W>>, order: seq<nat>, subs: seq<C.Subscriber<K, W>>, s: nat)
    requires Enumerates(slots, order, subs) && s < |slots|
    ensures slots[s].active <==> C.SlotTaken(subs, s)
  {
    if slots[s].active {
      var i :| 0 <= i < |order| && order[i] == s;
      assert subs[i].slot == s;
    }
  }

  /** The first inactive slot is the one the specification picks. */
  lemma {:induction false} FirstFree<K, W>(slots: seq<Slot<K, W>>, order: seq<nat>, subs: seq<C.Subscriber<K, W>>, from: nat, s: nat)
    requires Enumerates(slots, order, subs) && from <= s < |slots| && !slots[s].active
    requires forall r :: from <= r < s ==> slots[r].active
    ensures C.LowestFreeFrom(subs, from, |slots|) == s
    decreases s - from
  {
    ActiveIsTaken(slots, order, subs, from);
    if from < s {
      FirstFree(slots, order, subs, from + 1, s);
    }
  }

  lemma Registered<K, W>(slots: seq<Slot<K, W>>, order: seq<nat>, subs: seq<C.Subscriber<K, W>>, s: nat, k: K, w: W)
    requires Enumerates(slots, order, subs) && s < |slots| && !slots[s].active
    ensures Enumerates(slots[s := Slot(true, Some(k), Some(w))], order + [s], subs + [C.Subscriber(s, k, w)])
  {
    assert forall i :: 0 <= i < |order| ==> order[i] != s;
  }

  /** Where `slot` stands in the registration order. */
  lemma {:induction false} WithoutAt<K, W>(subs: seq<C.Subscriber<K, W>>, slot: nat, pos: nat)
    requires pos < |subs| && subs[pos].slot == slot && forall i :: 0 <= i < pos ==> subs[i].slot != slot
    ensures C.Without(subs, slot) == subs[..pos] + subs[pos + 1..]
  {
    if pos > 0 {
      WithoutAt(subs[1..], slot, pos - 1);
      assert subs[..pos] == [subs[0]] + subs[1..][..pos - 1];
      assert subs[1..][pos..] == subs[pos + 1..];
    }
  }

  function Skip(i: nat, pos: nat): nat {
    if i < pos then i else i + 1
  }

  lemma RemovedAt<X>(xs: seq<X>, pos: nat)
    requires pos < |xs|
    ensures |xs[..pos] + xs[pos + 1..]| == |xs| - 1
    ensures forall i :: 0 <= i < |xs| - 1 ==> (xs[..pos] + xs[pos + 1..])[i] == xs[Skip(i, pos)]
  {
  }

  lemma StillListed(order: seq<nat>, pos: nat, s: nat)
    requires pos < |order| && s in order && s != order[pos]
    ensures s in order[..pos] + order[pos + 1..]
  {
    var i :| 0 <= i < |order| && order[i] == s;
    var rest := order[..pos] + order[pos + 1..];
    assert s == if i < pos then rest[i] else rest[i - 1];
  }

  lemma Unregistered<K, W>(slots: seq<Slot<K, W>>, order: seq<nat>, subs: seq<C.Subscriber<K, W>>, pos: nat)
    requires Enumerates(slots, order, subs) && pos < |order|
    ensures Enumerates(slots[order[pos] := slots[order[pos]].(active := false)],
                       order[..pos] + order[pos + 1..], C.Without(subs, order[pos]))
  {
    assert forall i :: 0 <= i < |order| ==> Holds(slots, order[i], subs[i]);
    WithoutAt(subs, order[pos], pos);
    RemovedAt(order, pos);
    RemovedAt(subs, pos);
    var slots' := slots[order[pos] := slots[order[pos]].(active := false)];
    var order', subs' := order[..pos] + order[pos + 1..], subs[..pos] + subs[pos + 1..];
    forall i | 0 <= i < |order'| ensures Holds(slots', order'[i], subs'[i]) {
      assert Holds(slots, order[Skip(i, pos)], subs[Skip(i, pos)]);
    }
    forall s | 0 <= s < |slots'| && slots'[s].active ensures s in order' {
      StillListed(order, pos, s);
    }
  }

  lemma Regroup<X>(a: seq<X>, b: seq<X>, c: seq<X>)
    ensures a + (b + c) == a + b + c
  {
  }

  lemma {:induction false} NotesAppend<K, V, W>(subs: seq<C.Subscriber<K, W>>, x: C.Subscriber<K, W>, k: K, before: Option<V>, after: V)
    ensures C.Notes(subs + [x], k, before, after)
         == C.Notes(subs, k, before, after) + C.Notes([x], k, before, after)
  {
    if subs == [] {
      assert subs + [x] == [x];
    } else {
      var head := if subs[0].key == k then [C.Note(subs[0].who, k, before, after)] else [];
      assert (subs + [x])[0] == subs[0] && (subs + [x])[1..] == subs[1..] + [x];
      NotesAppend(subs[1..], x, k, before, after);
      Regroup(head, C.Notes(subs[1..], k, before, after), C.Notes([x], k, before, after));
    }
  }

  class CachePool<K(==, !new), V(==, !new), W(==, !new)> {
    const capacity: nat
    var values: map<K, V>
    var slots: array<Slot<K, W>>
    var order: array<nat>
    var active: nat
    var sink: PostSink?<C.Note<K, V, W>>
    ghost var spec: C.Cache<K, V, W>

    ghost predicate Valid()
      reads this, slots, order
    {
      && slots.Length == order.Length == (if capacity == 0 then 1 else capacity)
      && active <= capacity
      && values == spec.values
      && Enumerates(slots[..], order[..active], spec.subs)
    }

    constructor (capacity: nat)
      ensures Valid() && fresh(slots) && fresh(order) && sink == null
      ensures this.capacity == capacity && spec == C.Cache(map[], [])
    {
      this.capacity := capacity;
      var n := if capacity == 0 then 1 else capacity;
      values, active, sink := map[], 0, null;
      slots := new Slot<K, W>[n](_ => Slot(false, None, None));
      order := new nat[n](_ => 0);
      spec := C.Cache(map[], []);
    }

    method BindPost(s: PostSink<C.Note<K, V, W>>)
      requires Valid()
      modifies this`sink
      ensures Valid() && sink == s
    {
      sink := s;
    }

    method Get(k: K) returns (v: Option<V>)
      requires Valid()
      ensures v == C.Get(spec, k)
    {
      v := if k in values then Some(values[k]) else None;
    }

    method SubscriberCount() returns (n: nat)
      requires Valid()
      ensures n == |spec.subs|
    {
      n := active;
    }

    /** The assertion behind the loop cannot be reached. */
    method FindFreeSlot() returns (s: nat)
      requires Valid() && active < capacity
      ensures s < capacity && !slots[s].active && s == C.LowestFree(spec.subs, capacity)
    {
      FreeSlotExists(slots[..], order[..active], spec.subs);
      s := 0;
      while slots[s].active
        invariant 0 <= s < slots.Length
        invariant forall r :: 0 <= r < s ==> slots[r].active
        invariant exists r :: s <= r < slots.Length && !slots[r].active
        decreases slots.Length - s
      {
        s := s + 1;
      }
      FirstFree(slots[..], order[..active], spec.subs, 0, s);
    }

    /** Exceeding the capacity is a fault. Returns the index that the `Subscription` handle carries. */
    method Subscribe(k: K, who: W) returns (s: nat)
      requires Valid() && |spec.subs| < capacity
      modifies this`active, this`spec, slots, order
      ensures Valid() && spec == C.Subscribe(old(spec), capacity, k, who)
      ensures s < capacity && !C.SlotTaken(old(spec).subs, s) && C.SlotTaken(spec.subs, s)
      ensures s == C.LowestFree(old(spec).subs, capacity)
    {
      s := FindFreeSlot();
      ActiveIsTaken(slots[..], order[..active], spec.subs, s);
      Registered(slots[..], order[..active], spec.subs, s, k, who);
      ghost var slots0, order0 := slots[..], order[..active];
      slots[s] := Slot(true, Some(k), Some(who));
      order[active] := s;
      active := active + 1;
      spec := C.Subscribe(spec, capacity, k, who);
      assert slots[..] == slots0[s := Slot(true, Some(k), Some(who))];
      assert order[..active] == order0 + [s];
      assert spec.subs[active - 1].slot == s;
    }

    /** Releasing an inactive slot is a fault. The order of the others is kept. */
    method ReleaseSlot(s: nat)
      requires Valid() && C.SlotTaken(spec.subs, s)
      modifies this`active, this`spec, slots, order
      ensures Valid() && spec == C.Release(old(spec), s)
    {
      ghost var slots0, order0 := slots[..], order[..active];
      var pos := FindInOrder(s);
      Unregistered(slots0, order0, spec.subs, pos);
      slots[s] := slots[s].(active := false);
      ShiftLeft(pos);
      active := active - 1;
      spec := C.Release(spec, s);
      assert slots[..] == slots0[s := slots0[s].(active := false)];
    }

    method FindInOrder(s: nat) returns (pos: nat)
      requires Valid() && C.SlotTaken(spec.subs, s)
      ensures pos < active && order[pos] == s && s < slots.Length
    {
      pos := 0;
      while order[pos] != s
        invariant 0 <= pos < active
        invariant forall i :: 0 <= i < pos ==> order[i] != s
        invariant exists i :: 0 <= i < active && spec.subs[i].slot == s
        decreases active - pos
      {
        pos := pos + 1;
      }
    }

    method ShiftLeft(pos: nat)
      requires pos < active <= order.Length
      modifies order
      ensures order[..active - 1] == old(order[..active])[..pos] + old(order[..active])[pos + 1..]
    {
      var i := pos + 1;
      while i < active
        invariant pos + 1 <= i <= active
        invariant forall j :: 0 <= j < pos ==> order[j] == old(order[j])
        invariant forall j :: pos < j < i ==> order[j - 1] == old(order[j])
        invariant forall j :: i <= j < order.Length ==> order[j] == old(order[j])
      {
        order[i - 1] := order[i];
        i := i + 1;
      }
      assert order[..active - 1] == old(order[..active])[..pos] + old(order[..active])[pos + 1..];
    }

    /** Writes that compare equal are silent; the others fan out. An unbound sink is a fault, unless
        nobody subscribes to the key. */
    method Set(k: K, v: V)
      requires Valid() && (sink == null ==> C.Get(spec, k) == Some(v) || C.Notes(spec.subs, k, C.Get(spec, k), v) == [])
      modifies this`values, this`spec, sink
      ensures Valid() && spec == C.Set(old(spec), k, v)
      ensures sink != null ==> sink.stopped == old(sink.stopped)
      ensures sink != null && (sink.stopped || C.Get(old(spec), k) == Some(v)) ==> sink.queue == old(sink.queue)
      ensures sink != null && !sink.stopped && C.Get(old(spec), k) != Some(v) ==>
        sink.queue == old(sink.queue) + C.Notes(old(spec.subs), k, C.Get(old(spec), k), v)
    {
      if k in values && values[k] == v {
        assert spec.values[k := v] == spec.values;
        return;
      }
      var before := if k in values then Some(values[k]) else None;
      values := values[k := v];
      spec := C.Set(spec, k, v);
      Fanout(k, before, v);
    }

    /** Posts to the `i`-th subscriber if it wants `k`. */
    method NotifyOne(i: nat, k: K, before: Option<V>, v: V)
      requires Valid() && i < active && (sink == null ==> C.Notes(spec.subs, k, before, v) == [])
      modifies sink
      ensures sink != null ==> sink.stopped == old(sink.stopped)
      ensures sink != null ==>
        sink.queue == if sink.stopped then old(sink.queue) else old(sink.queue) + C.Notes([spec.subs[i]], k, before, v)
    {
      var s := order[i];
      assert slots[..][order[..active][i]] == Slot(true, Some(spec.subs[i].key), Some(spec.subs[i].who));
      if slots[s].key == Some(k) {
        FanoutReaches(spec.subs, i, k, before, v);
        sink.Post(C.Note(slots[s].who.value, k, before, v));
      }
    }

    method Fanout(k: K, before: Option<V>, v: V)
      requires Valid() && (sink == null ==> C.Notes(spec.subs, k, before, v) == [])
      modifies sink
      ensures sink != null ==> sink.stopped == old(sink.stopped)
      ensures sink != null ==>
        sink.queue == if sink.stopped then old(sink.queue) else old(sink.queue) + C.Notes(spec.subs, k, before, v)
    {
      var snapshot := active;
      ghost var subs := spec.subs;
      ghost var notes := [];
      var i := 0;
      while i < snapshot
        invariant i <= snapshot == |subs| && subs == spec.subs && snapshot == active
        invariant notes == C.Notes(subs[..i], k, before, v)
        invariant sink != null ==> sink.stopped == old(sink.stopped)
        invariant sink != null ==> sink.queue == if sink.stopped then old(sink.queue) else old(sink.queue) + notes
        modifies sink
      {
        ghost var next := C.Notes([subs[i]], k, before, v);
        NotesStep(subs, i, k, before, v);
        NotifyOne(i, k, before, v);
        if sink != null { Regroup(old(sink.queue), notes, next); }
        notes := notes + next;
        i := i + 1;
      }
      assert subs[..i] == subs;
    }
  }

  lemma NotesStep<K, V, W>(subs: seq<C.Subscriber<K, W>>, i: nat, k: K, before: Option<V>, v: V)
    requires i < |subs|
    ensures C.Notes(subs[..i + 1], k, before, v) == C.Notes(subs[..i], k, before, v) + C.Notes([subs[i]], k, before, v)
  {
    assert subs[..i + 1] == subs[..i] + [subs[i]];
    NotesAppend(subs[..i], subs[i], k, before, v);
  }

  lemma {:induction false} FanoutReaches<K, V, W>(subs: seq<C.Subscriber<K, W>>, i: nat, k: K, before: Option<V>, v: V)
    requires i < |subs| && subs[i].key == k
    ensures C.Notes(subs, k, before, v) != []
  {
    if i > 0 {
      FanoutReaches(subs[1..], i - 1, k, before, v);
    }
  }
}
