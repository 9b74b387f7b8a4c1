/** Handles in use: declaring, moving, resetting and destroying objects of the class `Subscription` does
    to the pool and the handles what the operations of `Subscriptions` say, over every program of them. */
module HandleScopes {
  import opened Options
  import opened CachePools
  import opened Subscriptions
  import C = CacheSpec

  class Scope<K(==, !new), V(==, !new), W(==, !new)> {
    const pool: CachePool<K, V, W>
    var handles: map<nat, Subscription<K, V, W>>

    constructor (pool: CachePool<K, V, W>)
      requires pool.Valid() && pool.spec.subs == []
      ensures Valid() && Owned(Stands()) && this.pool == pool && handles == map[]
    {
      this.pool, handles := pool, map[];
    }

    ghost function Holding(h: nat): Option<nat>
      requires h in handles
      reads this, handles[h]
    {
      if handles[h].pool == null then None else Some(handles[h].index)
    }

    ghost function Holdings(): map<nat, Option<nat>>
      reads this, handles.Values
    {
      map h | h in handles :: Holding(h)
    }

    /** The pool and the handles as values. */
    ghost function Stands(): World<K, V, W>
      reads this, pool, handles.Values
    {
      World(pool.spec, pool.capacity, Holdings())
    }

    /** Different handles are different objects, and all of this pool. */
    ghost predicate Wired()
      reads this, handles.Values
    {
      && (forall h :: h in handles ==> handles[h].pool == null || handles[h].pool == pool)
      && (forall h, g :: h in handles && g in handles && h != g ==> handles[h] != handles[g])
    }

    ghost predicate Valid()
      reads this, pool, pool.slots, pool.order, handles.Values
    {
      pool.Valid() && Wired()
    }

    /** A new object gets a name. */
    method Name(h: nat, handle: Subscription<K, V, W>)
      requires Wired() && h !in handles && handle !in handles.Values && (handle.pool == null || handle.pool == pool)
      modifies this`handles
      ensures Wired() && handles == old(handles)[h := handle]
      ensures Holdings() == old(Holdings())[h := if handle.pool == null then None else Some(handle.index)]
    {
      handles := handles[h := handle];
    }

    /** A handle is constructed for a slot. */
    method Bind(h: nat, slot: nat)
      requires Wired() && h !in handles
      modifies this`handles
      ensures Wired() && Holdings() == old(Holdings())[h := Some(slot)]
      ensures fresh(handles.Values - old(handles.Values))
    {
      var handle := new Subscription<K, V, W>.Bound(pool, slot);
      Name(h, handle);
    }

    /** A handle is declared with the slot it is given. */
    method Declare(h: nat, key: K, who: W)
      requires Valid() && h !in handles && |pool.spec.subs| < pool.capacity
      modifies this`handles, pool, pool.slots, pool.order
      ensures Valid() && pool.spec == C.Subscribe(old(pool.spec), pool.capacity, key, who)
      ensures Holdings() == old(Holdings())[h := Some(C.LowestFree(old(pool.spec).subs, pool.capacity))]
      ensures fresh(handles.Values - old(handles.Values)) && pool.slots == old(pool.slots) && pool.order == old(pool.order)
    {
      var slot := pool.Subscribe(key, who);
      Bind(h, slot);
    }

    /** The first half of move construction: the new handle is inert. */
    method DeclareInert(h: nat)
      requires Wired() && h !in handles
      modifies this`handles
      ensures Wired() && Holdings() == old(Holdings())[h := None] && h in handles && handles[h].pool == null
      ensures fresh(handles[h]) && handles == old(handles)[h := handles[h]]
    {
      var handle := new Subscription<K, V, W>();
      Name(h, handle);
    }

    /** Move construction. */
    method MoveNewHandle(h: nat, from: nat)
      requires Wired() && h !in handles && from in handles && handles[from].Valid()
      modifies this`handles, handles[from]
      ensures Wired() && Holdings() == old(Holdings())[h := old(Holding(from))][from := None]
      ensures fresh(handles.Values - old(handles.Values))
    {
      DeclareInert(h);
      TakeOver(h, from);
    }

    /** The second half: an inert handle takes over what another one holds. */
    method TakeOver(h: nat, from: nat)
      requires Wired() && h in handles && from in handles && h != from
      requires handles[h].pool == null && handles[from].Valid()
      modifies handles[h], handles[from]
      ensures Wired() && Holdings() == old(Holdings())[h := old(Holding(from))][from := None]
    {
      handles[h].TakeFrom(handles[from]);
    }

    /** `reset`. */
    method ResetHandle(h: nat)
      requires Valid() && h in handles && handles[h].Valid()
      modifies handles[h], pool, pool.slots, pool.order
      ensures Valid() && pool.spec == Dropped(old(pool.spec), old(Holding(h)))
      ensures Holdings() == old(Holdings())[h := None]
      ensures pool.slots == old(pool.slots) && pool.order == old(pool.order)
    {
      handles[h].Release();
    }

    /** The destructor. */
    method DestroyHandle(h: nat)
      requires Valid() && h in handles && handles[h].Valid()
      modifies this`handles, handles[h], pool, pool.slots, pool.order
      ensures Valid() && pool.spec == Dropped(old(pool.spec), old(Holding(h)))
      ensures Holdings() == old(Holdings()) - {h} && handles.Values <= old(handles.Values)
      ensures pool.slots == old(pool.slots) && pool.order == old(pool.order)
    {
      ResetHandle(h);
      Forget(h);
    }

    method Forget(h: nat)
      requires Wired() && h in handles
      modifies this`handles
      ensures Wired() && Holdings() == old(Holdings()) - {h} && handles.Values <= old(handles.Values)
    {
      handles := handles - {h};
    }

    /** Move assignment. */
    method AssignHandle(h: nat, from: nat)
      requires Valid() && h in handles && from in handles && h != from
      requires handles[h].Valid() && handles[from].Valid() && handles[h].Apart(handles[from])
      modifies handles[h], handles[from], pool, pool.slots, pool.order
      ensures Valid() && pool.spec == Dropped(old(pool.spec), old(Holding(h)))
      ensures Holdings() == old(Holdings())[h := old(Holding(from))][from := None]
      ensures pool.slots == old(pool.slots) && pool.order == old(pool.order)
    {
      handles[h].MoveFrom(handles[from]);
    }

    // ---- Programs -----------------------------------------------------------------------------

    /** A handle of a well-owned scope meets the preconditions of its methods. */
    lemma HandleValid(h: nat)
      requires Valid() && Owned(Stands()) && h in handles
      ensures handles[h].Valid()
    {
      if handles[h].pool != null {
        assert Stands().handles[h] == Some(handles[h].index);
      }
    }

    lemma HandlesApart(h: nat, g: nat)
      requires Valid() && Owned(Stands()) && h in handles && g in handles && h != g
      ensures handles[h].Apart(handles[g])
    {
      if handles[h].pool != null && handles[h].pool == handles[g].pool {
        assert Stands().handles[h] == Some(handles[h].index) && Stands().handles[g] == Some(handles[g].index);
      }
    }

    /** One statement: the objects do what the operation says. */
    method Execute(op: Op<K, W>)
      requires Valid() && Owned(Stands()) && Enabled(Stands(), op)
      modifies this`handles, handles.Values, pool, pool.slots, pool.order
      ensures Valid() && Stands() == Apply(old(Stands()), op)
      ensures fresh(handles.Values - old(handles.Values)) && pool.slots == old(pool.slots) && pool.order == old(pool.order)
    {
      match op
      case Subscribe(h, key, who) =>
        Declare(h, key, who);
      case MoveNew(h, from) =>
        HandleValid(from);
        MoveNewHandle(h, from);
      case MoveAssign(h, from) =>
        if h != from {
          HandleValid(h);
          HandleValid(from);
          HandlesApart(h, from);
          AssignHandle(h, from);
        }
      case Reset(h) =>
        HandleValid(h);
        ResetHandle(h);
      case Destroy(h) =>
        HandleValid(h);
        DestroyHandle(h);
    }

    /** Every program of such statements leaves pool and objects as the operations say: each active slot
        owned by exactly one handle. */
    method ExecuteAll(ops: seq<Op<K, W>>)
      requires Valid() && Owned(Stands()) && Allowed(Stands(), ops)
      modifies this`handles, handles.Values, pool, pool.slots, pool.order
      ensures Valid() && Owned(Stands()) && Stands() == After(old(Stands()), ops)
    {
      var rest := ops;
      while rest != []
        invariant Valid() && Owned(Stands()) && Allowed(Stands(), rest)
        invariant After(Stands(), rest) == After(old(Stands()), ops)
        invariant fresh(handles.Values - old(handles.Values)) && pool.slots == old(pool.slots) && pool.order == old(pool.order)
        decreases |rest|
      {
        StepOwned(Stands(), rest[0]);
        Execute(rest[0]);
        rest := rest[1..];
      }
    }
  }
}
