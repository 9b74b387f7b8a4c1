/** What becomes of every timer ever armed, over all sequences of operations on the service. */
module TimerLedger {
  import T = TimerSpec

  datatype Op<+E> =
    | Arm(now: int, delay: int, envelope: E)
    | Cancel(k: nat)
    | Fire(now: int, batch: seq<nat>)
    | Clear

  /** The timers, and for those gone how they went. `fired` is in posting order. */
  datatype Ledger<+E> = Ledger(timers: T.Timers<E>, fired: seq<nat>, cancelled: set<nat>, cleared: set<nat>)

  function Start<E>(): Ledger<E> {
    Ledger(T.Timers(map[], 1), [], {}, {})
  }

  ghost predicate Enabled<E>(l: Ledger<E>, op: Op<E>) {
    match op
    case Arm(_, delay, _) => delay >= 0
    case Fire(now, batch) => T.IsBatch(l.timers, now, batch)
    case _ => true
  }

  function Apply<E>(l: Ledger<E>, op: Op<E>): Ledger<E> {
    match op
    case Arm(now, delay, e) => l.(timers := T.Arm(l.timers, now, delay, e))
    case Cancel(k) =>
      l.(timers := T.Cancel(l.timers, k), cancelled := if k in l.timers.live then l.cancelled + {k} else l.cancelled)
    case Fire(now, batch) => l.(timers := T.AfterFire(l.timers, now), fired := l.fired + batch)
    case Clear => l.(timers := T.Clear(l.timers), cleared := l.cleared + l.timers.live.Keys)
  }

  ghost predicate Allowed<E>(l: Ledger<E>, ops: seq<Op<E>>)
    decreases |ops|
  {
    ops == [] || (Enabled(l, ops[0]) && Allowed(Apply(l, ops[0]), ops[1..]))
  }

  function After<E>(l: Ledger<E>, ops: seq<Op<E>>): Ledger<E>
    decreases |ops|
  {
    if ops == [] then l else After(Apply(l, ops[0]), ops[1..])
  }

  // ---- One fate -------------------------------------------------------------------------------

  datatype Fate = Unknown | Live | Fired | Cancelled | Cleared

  function FateOf<E>(l: Ledger<E>, k: nat): Fate {
    if k in l.timers.live then Live
    else if k in l.fired then Fired
    else if k in l.cancelled then Cancelled
    else if k in l.cleared then Cleared
    else Unknown
  }

  function Count(b: bool): nat {
    if b then 1 else 0
  }

  function Fates<E>(l: Ledger<E>, k: nat): nat {
    Count(k in l.timers.live) + Count(k in l.fired) + Count(k in l.cancelled) + Count(k in l.cleared)
  }

  ghost predicate OneFateEach<E>(l: Ledger<E>) {
    && 1 <= l.timers.next
    && (forall k: nat :: Fates(l, k) == Count(1 <= k < l.timers.next))
    && (forall i, j :: 0 <= i < j < |l.fired| ==> l.fired[i] != l.fired[j])
  }

  lemma FireFates<E>(l: Ledger<E>, now: int, batch: seq<nat>)
    requires OneFateEach(l) && T.IsBatch(l.timers, now, batch)
    ensures OneFateEach(Apply(l, Fire(now, batch)))
  {
    var l' := Apply(l, Fire(now, batch));
    forall k: nat ensures Fates(l', k) == Count(1 <= k < l'.timers.next) {
      assert Fates(l, k) == Count(1 <= k < l.timers.next);
      assert k in l'.fired <==> k in l.fired || k in batch;
      assert k in batch <==> k in T.DueBy(l.timers, now);
    }
    forall i, j | 0 <= i < j < |l'.fired| ensures l'.fired[i] != l'.fired[j] {
      if i < |l.fired| <= j {
        assert l'.fired[i] in l.fired && l'.fired[j] in batch;
        assert Fates(l, l'.fired[j]) <= 1;
        assert l'.fired[j] in T.DueBy(l.timers, now);
      }
    }
  }

  lemma StepFates<E>(l: Ledger<E>, op: Op<E>)
    requires OneFateEach(l) && Enabled(l, op)
    ensures OneFateEach(Apply(l, op))
  {
    if op.Fire? {
      FireFates(l, op.now, op.batch);
    } else {
      var l' := Apply(l, op);
      forall k: nat ensures Fates(l', k) == Count(1 <= k < l'.timers.next) {
        assert Fates(l, k) == Count(1 <= k < l.timers.next);
      }
    }
  }

  lemma {:induction false} RunFates<E>(l: Ledger<E>, ops: seq<Op<E>>)
    requires OneFateEach(l) && Allowed(l, ops)
    ensures OneFateEach(After(l, ops))
    decreases |ops|
  {
    if ops != [] {
      StepFates(l, ops[0]);
      RunFates(Apply(l, ops[0]), ops[1..]);
    }
  }

  /** In every run every timer armed is live, or was fired once, cancelled or cleared; nothing else was. */
  lemma ExactlyOneFate<E>(ops: seq<Op<E>>, k: nat)
    requires Allowed(Start<E>(), ops)
    ensures Fates(After(Start<E>(), ops), k) == (if 1 <= k < After(Start<E>(), ops).timers.next then 1 else 0)
    ensures forall i, j :: 0 <= i < j < |After(Start<E>(), ops).fired| ==>
      After(Start<E>(), ops).fired[i] != After(Start<E>(), ops).fired[j]
  {
    RunFates(Start<E>(), ops);
  }

  // ---- Fates are final ------------------------------------------------------------------------

  lemma FateStep<E>(l: Ledger<E>, op: Op<E>, k: nat)
    requires OneFateEach(l) && Enabled(l, op) && 1 <= k < l.timers.next
    ensures l.timers.next <= Apply(l, op).timers.next
    ensures FateOf(l, k) != Live ==> FateOf(Apply(l, op), k) == FateOf(l, k)
    ensures FateOf(l, k) == Live && FateOf(Apply(l, op), k) == Live ==>
      Apply(l, op).timers.live[k] == l.timers.live[k]
  {
    assert Fates(l, k) == 1;
    if op.Fire? {
      assert k in op.batch <==> k in T.DueBy(l.timers, op.now);
    }
  }

  /** A timer that has fired, or was cancelled or cleared, stays so. */
  lemma {:induction false} FateIsFinal<E>(l: Ledger<E>, ops: seq<Op<E>>, k: nat)
    requires OneFateEach(l) && Allowed(l, ops) && 1 <= k < l.timers.next && FateOf(l, k) != Live
    ensures FateOf(After(l, ops), k) == FateOf(l, k)
    decreases |ops|
  {
    if ops != [] {
      FateStep(l, ops[0], k);
      StepFates(l, ops[0]);
      FateIsFinal(Apply(l, ops[0]), ops[1..], k);
    }
  }

  /** So a cancel that comes after firing, another cancel or a clear changes nothing, however late. */
  lemma LateCancelIsNoOp<E>(l: Ledger<E>, ops: seq<Op<E>>, k: nat)
    requires OneFateEach(l) && Allowed(l, ops) && 1 <= k < l.timers.next && FateOf(l, k) != Live
    ensures Apply(After(l, ops), Cancel(k)) == After(l, ops)
  {
    FateIsFinal(l, ops, k);
    RunFates(l, ops);
    var l' := After(l, ops);
    assert l'.timers.live - {k} == l'.timers.live;
  }

  lemma {:induction false} NewIsLater<E>(l: Ledger<E>, ops: seq<Op<E>>, j: nat)
    requires OneFateEach(l) && Allowed(l, ops)
    requires j in After(l, ops).timers.live && j !in l.timers.live
    ensures j >= l.timers.next
    decreases |ops|
  {
    if ops != [] {
      StepFates(l, ops[0]);
      var l1 := Apply(l, ops[0]);
      if j !in l1.timers.live {
        NewIsLater(l1, ops[1..], j);
      }
    }
  }

  /** A handle from before, used after any number of clears and restarts, cancels no timer armed since. */
  lemma OldHandleIsHarmless<E>(l: Ledger<E>, ops: seq<Op<E>>, k: nat)
    requires OneFateEach(l) && Allowed(l, ops) && k < l.timers.next
    ensures forall j :: j in After(l, ops).timers.live && j !in l.timers.live ==>
      && j in Apply(After(l, ops), Cancel(k)).timers.live
      && Apply(After(l, ops), Cancel(k)).timers.live[j] == After(l, ops).timers.live[j]
  {
    forall j | j in After(l, ops).timers.live && j !in l.timers.live ensures j != k {
      NewIsLater(l, ops, j);
    }
  }

  /** Clearing does not hand out a number twice: the next timer's number was never used before. */
  lemma ClearNeverReuses<E>(ops: seq<Op<E>>, now: int, delay: int, e: E)
    requires Allowed(Start<E>(), ops)
    ensures FateOf(After(Start<E>(), ops), After(Start<E>(), ops).timers.next) == Unknown
    ensures FateOf(Apply(After(Start<E>(), ops), Arm(now, delay, e)), After(Start<E>(), ops).timers.next) == Live
  {
    RunFates(Start<E>(), ops);
    var l := After(Start<E>(), ops);
    assert Fates(l, l.timers.next) == 0;
  }
}
