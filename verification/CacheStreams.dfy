/** What one subscription receives over any sequence of writes, subscriptions and releases. */
module CacheStreams {
  import opened Options
  import opened Subscriptions
  import C = CacheSpec

  datatype Op<+K, +V, +W> = Write(key: K, value: V) | Join(key: K, who: W) | Leave(slot: nat)

  /** A notification and the slot of the subscription it was posted for. */
  datatype Delivery<+K, +V, +W> = Delivery(slot: nat, note: C.Note<K, V, W>)

  /** Subscribing needs a free slot, releasing a taken one. */
  predicate Enabled<K, V, W>(c: C.Cache<K, V, W>, capacity: nat, op: Op<K, V, W>) {
    match op
    case Write(_, _) => true
    case Join(_, _) => |c.subs| < capacity
    case Leave(s) => C.SlotTaken(c.subs, s)
  }

  function Apply<K(==), V(==), W>(c: C.Cache<K, V, W>, capacity: nat, op: Op<K, V, W>): C.Cache<K, V, W> {
    match op
    case Write(k, v) => C.Set(c, k, v)
    case Join(k, w) => C.Subscribe(c, capacity, k, w)
    case Leave(s) => C.Release(c, s)
  }

  predicate Allowed<K(==), V(==), W>(c: C.Cache<K, V, W>, capacity: nat, ops: seq<Op<K, V, W>>)
    decreases |ops|
  {
    ops == [] || (Enabled(c, capacity, ops[0]) && Allowed(Apply(c, capacity, ops[0]), capacity, ops[1..]))
  }

  function After<K(==), V(==), W>(c: C.Cache<K, V, W>, capacity: nat, ops: seq<Op<K, V, W>>): C.Cache<K, V, W>
    decreases |ops|
  {
    if ops == [] then c else After(Apply(c, capacity, ops[0]), capacity, ops[1..])
  }

  // ---- Deliveries -----------------------------------------------------------------------------

  function Addressed<K(==), V, W>(subs: seq<C.Subscriber<K, W>>, k: K, before: Option<V>, after: V): seq<Delivery<K, V, W>> {
    if subs == [] then []
    else (if subs[0].key == k then [Delivery(subs[0].slot, C.Note(subs[0].who, k, before, after))] else [])
         + Addressed(subs[1..], k, before, after)
  }

  function Letters<K, V, W>(ds: seq<Delivery<K, V, W>>): seq<C.Note<K, V, W>> {
    if ds == [] then [] else [ds[0].note] + Letters(ds[1..])
  }

  /** Stripped of the addresses, the deliveries of a write are what the cache posts. */
  lemma {:induction false} AddressedIsNotes<K, V, W>(subs: seq<C.Subscriber<K, W>>, k: K, before: Option<V>, after: V)
    ensures Letters(Addressed(subs, k, before, after)) == C.Notes(subs, k, before, after)
  {
    if subs != [] {
      AddressedIsNotes(subs[1..], k, before, after);
      var rest := Addressed(subs[1..], k, before, after);
      if subs[0].key == k {
        assert ([Delivery(subs[0].slot, C.Note(subs[0].who, k, before, after))] + rest)[1..] == rest;
      } else {
        assert [] + rest == rest;
      }
    }
  }

  function Posted<K(==), V(==), W>(c: C.Cache<K, V, W>, op: Op<K, V, W>): seq<Delivery<K, V, W>> {
    if op.Write? && C.Changed(c, op.key, op.value) then Addressed(c.subs, op.key, C.Get(c, op.key), op.value) else []
  }

  /** The deliveries of a write, changing or not, are what the cache posts for it. */
  lemma WritePosts<K, V, W>(c: C.Cache<K, V, W>, k: K, v: V)
    ensures Letters(Posted(c, Write(k, v))) == C.SetNotes(c, k, v)
  {
    AddressedIsNotes(c.subs, k, C.Get(c, k), v);
  }

  /** Everything posted for the subscription in `slot`. */
  function Mailbox<K, V, W>(ds: seq<Delivery<K, V, W>>, slot: nat): seq<C.Note<K, V, W>> {
    if ds == [] then [] else (if ds[0].slot == slot then [ds[0].note] else []) + Mailbox(ds[1..], slot)
  }

  function Received<K(==), V(==), W>(c: C.Cache<K, V, W>, capacity: nat, ops: seq<Op<K, V, W>>, slot: nat): seq<C.Note<K, V, W>>
    decreases |ops|
  {
    if ops == [] then []
    else Mailbox(Posted(c, ops[0]), slot) + Received(Apply(c, capacity, ops[0]), capacity, ops[1..], slot)
  }

  /** A subscription to `k` gets one note for a change of `k`, others none. */
  lemma {:induction false} OneNote<K, V, W>(subs: seq<C.Subscriber<K, W>>, x: C.Subscriber<K, W>, k: K, before: Option<V>, after: V)
    requires SlotsDiffer(subs)
    ensures x in subs ==>
      Mailbox(Addressed(subs, k, before, after), x.slot) == if x.key == k then [C.Note(x.who, k, before, after)] else []
    ensures (forall y :: y in subs ==> y.slot != x.slot) ==> Mailbox(Addressed(subs, k, before, after), x.slot) == []
  {
    if subs != [] {
      var rest := subs[1..];
      OneNote(rest, x, k, before, after);
      if subs[0].key == k {
        var d := Delivery(subs[0].slot, C.Note(subs[0].who, k, before, after));
        assert ([d] + Addressed(rest, k, before, after))[1..] == Addressed(rest, k, before, after);
      } else {
        assert [] + Addressed(rest, k, before, after) == Addressed(rest, k, before, after);
      }
      if x == subs[0] {
        forall y | y in rest ensures y.slot != x.slot {
          var i :| 0 <= i < |rest| && rest[i] == y;
          assert subs[i + 1] == y;
        }
      } else if x in subs {
        assert x in rest;
        var i :| 0 <= i < |rest| && rest[i] == x;
        assert subs[i + 1] == x;
      }
    }
  }

  // ---- Changes --------------------------------------------------------------------------------

  datatype Change<+V> = Change(before: Option<V>, after: V)

  /** The real changes of key `k`, oldest first. */
  function Changes<K(==), V(==), W>(c: C.Cache<K, V, W>, capacity: nat, ops: seq<Op<K, V, W>>, k: K): seq<Change<V>>
    decreases |ops|
  {
    if ops == [] then []
    else (if ops[0].Write? && ops[0].key == k && C.Changed(c, k, ops[0].value)
          then [Change(C.Get(c, k), ops[0].value)] else [])
         + Changes(Apply(c, capacity, ops[0]), capacity, ops[1..], k)
  }

  /** Each change starts from the value the one before it ended with, and is a change. */
  predicate Chain<V(==)>(from: Option<V>, changes: seq<Change<V>>, to: Option<V>)
    decreases |changes|
  {
    if changes == [] then from == to
    else changes[0].before == from && Some(changes[0].after) != from && Chain(Some(changes[0].after), changes[1..], to)
  }

  lemma {:induction false} ChangesChain<K, V, W>(c: C.Cache<K, V, W>, capacity: nat, ops: seq<Op<K, V, W>>, k: K)
    ensures Chain(C.Get(c, k), Changes(c, capacity, ops, k), C.Get(After(c, capacity, ops), k))
    decreases |ops|
  {
    if ops != [] {
      var c' := Apply(c, capacity, ops[0]);
      ChangesChain(c', capacity, ops[1..], k);
      var rest := Changes(c', capacity, ops[1..], k);
      if ops[0].Write? && ops[0].key == k && C.Changed(c, k, ops[0].value) {
        assert ([Change(C.Get(c, k), ops[0].value)] + rest)[1..] == rest;
      } else {
        assert [] + rest == rest;
        assert C.Get(c', k) == C.Get(c, k);
      }
    }
  }

  function AsNotes<K, V, W>(changes: seq<Change<V>>, k: K, who: W): seq<C.Note<K, V, W>> {
    if changes == [] then [] else [C.Note(who, k, changes[0].before, changes[0].after)] + AsNotes(changes[1..], k, who)
  }

  // ---- The stream of a subscription -----------------------------------------------------------

  lemma OpKeeps<K, V, W>(c: C.Cache<K, V, W>, capacity: nat, op: Op<K, V, W>, x: C.Subscriber<K, W>)
    requires SlotsDiffer(c.subs) && Enabled(c, capacity, op)
    ensures SlotsDiffer(Apply(c, capacity, op).subs)
    ensures x in c.subs && op != Leave(x.slot) ==> x in Apply(c, capacity, op).subs
  {
    match op
    case Write(_, _) =>
    case Join(k, w) =>
      LowestIsFree(c.subs, capacity);
      var s := C.LowestFree(c.subs, capacity);
      assert forall i :: 0 <= i < |c.subs| ==> c.subs[i].slot != s;
    case Leave(s) => WithoutKeeps(c.subs, s, x);
  }

  /** While it is held, a subscription to K receives exactly the real changes of K, each once, in
      order, addressed to its subscriber, and nothing about other keys. */
  lemma {:induction false} StreamIsChanges<K, V, W>(c: C.Cache<K, V, W>, capacity: nat, ops: seq<Op<K, V, W>>, x: C.Subscriber<K, W>)
    requires SlotsDiffer(c.subs) && x in c.subs && Allowed(c, capacity, ops)
    requires forall i :: 0 <= i < |ops| ==> ops[i] != Leave(x.slot)
    ensures Received(c, capacity, ops, x.slot) == AsNotes(Changes(c, capacity, ops, x.key), x.key, x.who)
    decreases |ops|
  {
    if ops != [] {
      var op := ops[0];
      var c' := Apply(c, capacity, op);
      OpKeeps(c, capacity, op, x);
      StreamIsChanges(c', capacity, ops[1..], x);
      if op.Write? && C.Changed(c, op.key, op.value) {
        OneNote(c.subs, x, op.key, C.Get(c, op.key), op.value);
      }
      AsNotesHead(c, capacity, ops, x);
    }
  }

  lemma AsNotesHead<K, V, W>(c: C.Cache<K, V, W>, capacity: nat, ops: seq<Op<K, V, W>>, x: C.Subscriber<K, W>)
    requires ops != []
    ensures AsNotes(Changes(c, capacity, ops, x.key), x.key, x.who)
         == (if ops[0].Write? && ops[0].key == x.key && C.Changed(c, x.key, ops[0].value)
             then [C.Note(x.who, x.key, C.Get(c, x.key), ops[0].value)] else [])
            + AsNotes(Changes(Apply(c, capacity, ops[0]), capacity, ops[1..], x.key), x.key, x.who)
  {
    var rest := Changes(Apply(c, capacity, ops[0]), capacity, ops[1..], x.key);
    if ops[0].Write? && ops[0].key == x.key && C.Changed(c, x.key, ops[0].value) {
      assert ([Change(C.Get(c, x.key), ops[0].value)] + rest)[1..] == rest;
    } else {
      assert [] + rest == rest;
    }
  }

  function Final<V>(start: Option<V>, changes: seq<Change<V>>): Option<V> {
    if changes == [] then start else Some(changes[|changes| - 1].after)
  }

  lemma {:induction false} ChainEnds<V>(from: Option<V>, changes: seq<Change<V>>, to: Option<V>)
    requires Chain(from, changes, to)
    decreases |changes|
    ensures Final(from, changes) == to
  {
    if changes != [] {
      ChainEnds(Some(changes[0].after), changes[1..], to);
    }
  }

  /** Replaying what it received brings a subscriber from the value it found to the value stored now. */
  lemma ReplayMatchesCache<K, V, W>(c: C.Cache<K, V, W>, capacity: nat, ops: seq<Op<K, V, W>>, x: C.Subscriber<K, W>)
    requires SlotsDiffer(c.subs) && x in c.subs && Allowed(c, capacity, ops)
    requires forall i :: 0 <= i < |ops| ==> ops[i] != Leave(x.slot)
    ensures exists changes: seq<Change<V>> ::
      && Received(c, capacity, ops, x.slot) == AsNotes(changes, x.key, x.who)
      && Chain(C.Get(c, x.key), changes, C.Get(After(c, capacity, ops), x.key))
      && Final(C.Get(c, x.key), changes) == C.Get(After(c, capacity, ops), x.key)
  {
    var changes := Changes(c, capacity, ops, x.key);
    StreamIsChanges(c, capacity, ops, x);
    ChangesChain(c, capacity, ops, x.key);
    ChainEnds(C.Get(c, x.key), changes, C.Get(After(c, capacity, ops), x.key));
  }
}
