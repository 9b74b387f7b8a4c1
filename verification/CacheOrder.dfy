/** The order in which the notes of one change are posted: that in which their receivers subscribed. */
module CacheOrder {
  import opened Options
  import opened CacheStreams
  import C = CacheSpec

  /** `x` is subscribed, and only members of `earlier` are ahead of it. */
  ghost predicate Behind<K, W>(subs: seq<C.Subscriber<K, W>>, x: C.Subscriber<K, W>, earlier: seq<C.Subscriber<K, W>>, j: nat) {
    j < |subs| && subs[j] == x && forall m :: 0 <= m < j ==> subs[m] in earlier
  }

  lemma {:induction false} WithoutStaysBehind<K, W>(subs: seq<C.Subscriber<K, W>>, x: C.Subscriber<K, W>,
    earlier: seq<C.Subscriber<K, W>>, j: nat, slot: nat) returns (i: nat)
    requires Behind(subs, x, earlier, j) && x.slot != slot
    ensures Behind(C.Without(subs, slot), x, earlier, i)
    decreases |subs|
  {
    if subs[0].slot == slot {
      i := j - 1;
      assert forall m :: 0 <= m < i ==> subs[1..][m] == subs[m + 1];
    } else if j == 0 {
      i := 0;
    } else {
      assert forall m :: 0 <= m < j - 1 ==> subs[1..][m] == subs[m + 1];
      i := WithoutStaysBehind(subs[1..], x, earlier, j - 1, slot);
      i := i + 1;
    }
  }

  lemma OpStaysBehind<K, V, W>(c: C.Cache<K, V, W>, capacity: nat, op: Op<K, V, W>, x: C.Subscriber<K, W>,
    earlier: seq<C.Subscriber<K, W>>, j: nat) returns (i: nat)
    requires Behind(c.subs, x, earlier, j) && op != Leave(x.slot)
    ensures Behind(Apply(c, capacity, op).subs, x, earlier, i)
  {
    i := j;
    if op.Leave? {
      i := WithoutStaysBehind(c.subs, x, earlier, j, op.slot);
    }
  }

  /** Nobody who subscribes later, into whatever slot, gets ahead of a subscription that is held. */
  lemma {:induction false} StaysBehind<K, V, W>(c: C.Cache<K, V, W>, capacity: nat, ops: seq<Op<K, V, W>>, x: C.Subscriber<K, W>,
    earlier: seq<C.Subscriber<K, W>>, j: nat) returns (i: nat)
    requires Behind(c.subs, x, earlier, j)
    requires forall m :: 0 <= m < |ops| ==> ops[m] != Leave(x.slot)
    ensures Behind(After(c, capacity, ops).subs, x, earlier, i)
    decreases |ops|
  {
    i := j;
    if ops != [] {
      i := OpStaysBehind(c, capacity, ops[0], x, earlier, j);
      i := StaysBehind(Apply(c, capacity, ops[0]), capacity, ops[1..], x, earlier, i);
    }
  }

  /** How many of the first `i` subscribers get a note. */
  function Place<K(==), W>(subs: seq<C.Subscriber<K, W>>, k: K, i: nat): nat
    requires i <= |subs|
    decreases i
  {
    if i == 0 then 0 else (if subs[0].key == k then 1 else 0) + Place(subs[1..], k, i - 1)
  }

  lemma {:induction false} NoteAtPlace<K, V, W>(subs: seq<C.Subscriber<K, W>>, k: K, before: Option<V>, after: V, i: nat)
    requires i < |subs| && subs[i].key == k
    ensures var ds := Addressed(subs, k, before, after);
            Place(subs, k, i) < |ds| && ds[Place(subs, k, i)] == Delivery(subs[i].slot, C.Note(subs[i].who, k, before, after))
    decreases i
  {
    if i > 0 {
      NoteAtPlace(subs[1..], k, before, after, i - 1);
    }
  }

  lemma {:induction false} PlacesInOrder<K, W>(subs: seq<C.Subscriber<K, W>>, k: K, i: nat, j: nat)
    requires i < j <= |subs| && subs[i].key == k
    ensures Place(subs, k, i) < Place(subs, k, j)
    decreases i
  {
    if i > 0 {
      PlacesInOrder(subs[1..], k, i - 1, j - 1);
    }
  }

  /** `first` and `second` are told of the change from `before` to `after`, in this order. */
  ghost predicate ToldInOrder<K, V, W>(ds: seq<Delivery<K, V, W>>, first: C.Subscriber<K, W>, second: C.Subscriber<K, W>,
    before: Option<V>, after: V, p: nat, q: nat)
  {
    && p < q < |ds|
    && ds[p] == Delivery(first.slot, C.Note(first.who, first.key, before, after))
    && ds[q] == Delivery(second.slot, C.Note(second.who, second.key, before, after))
  }

  /** Over all sequences of operations: of two subscriptions to a key, the one that was there before the other
      was made is told first of every change, whichever slots they use. */
  lemma NotesInOrderOfSubscribing<K, V, W>(c: C.Cache<K, V, W>, capacity: nat, ops: seq<Op<K, V, W>>,
    x: C.Subscriber<K, W>, y: C.Subscriber<K, W>, v: V) returns (p: nat, q: nat)
    requires x in c.subs && y !in c.subs && y in After(c, capacity, ops).subs && x.key == y.key
    requires forall m :: 0 <= m < |ops| ==> ops[m] != Leave(x.slot)
    requires C.Changed(After(c, capacity, ops), x.key, v)
    ensures var c' := After(c, capacity, ops);
            ToldInOrder(Posted(c', Write(x.key, v)), x, y, C.Get(c', x.key), v, p, q)
  {
    var c' := After(c, capacity, ops);
    var at: nat :| at < |c.subs| && c.subs[at] == x;
    var i := StaysBehind(c, capacity, ops, x, c.subs, at);
    var j: nat :| j < |c'.subs| && c'.subs[j] == y;
    assert i < j;
    NoteAtPlace(c'.subs, x.key, C.Get(c', x.key), v, i);
    NoteAtPlace(c'.subs, x.key, C.Get(c', x.key), v, j);
    PlacesInOrder(c'.subs, x.key, i, j);
    p, q := Place(c'.subs, x.key, i), Place(c'.subs, x.key, j);
  }
}
