/** The queue that `post`, `stop` and `run` share behaves like one whose operations are atomic: every
    interleaving of their steps is a run of that queue, in which each call takes effect once. */
module Linearization {
  import opened Concurrency

  // ---- The atomic queue -----------------------------------------------------------------------

  /** What is queued, whether stop was called, and what was taken from the front so far. */
  datatype Shared = Shared(queue: seq<Item>, stopped: bool, taken: seq<Item>)

  datatype Op = Put(item: Item) | Take | Close

  predicate Possible(q: Shared, op: Op) {
    op.Take? ==> q.queue != []
  }

  function Perform(q: Shared, op: Op): Shared
    requires Possible(q, op)
  {
    match op
    case Put(x) => if q.stopped then q else q.(queue := q.queue + [x])
    case Take => q.(queue := q.queue[1..], taken := q.taken + [q.queue[0]])
    case Close => q.(stopped := true)
  }

  predicate AllPossible(q: Shared, ops: seq<Op>)
    decreases |ops|
  {
    ops == [] || (Possible(q, ops[0]) && AllPossible(Perform(q, ops[0]), ops[1..]))
  }

  function PerformAll(q: Shared, ops: seq<Op>): Shared
    requires AllPossible(q, ops)
    decreases |ops|
  {
    if ops == [] then q else PerformAll(Perform(q, ops[0]), ops[1..])
  }

  lemma {:induction false} PerformBoth(q: Shared, a: seq<Op>, b: seq<Op>)
    requires AllPossible(q, a) && AllPossible(PerformAll(q, a), b)
    ensures AllPossible(q, a + b) && PerformAll(q, a + b) == PerformAll(PerformAll(q, a), b)
    decreases |a|
  {
    if a == [] {
      assert a + b == b;
    } else {
      PerformBoth(Perform(q, a[0]), a[1..], b);
      assert (a + b)[1..] == a[1..] + b;
    }
  }

  // ---- Where calls take effect ----------------------------------------------------------------

  /** What the threads and the loop have made of the queue. */
  function View(s: State): Shared {
    Shared(s.queue, s.stop, s.dispatched + InFlight(s.loop))
  }

  /** The operations that take effect in a step: a post at the push or at the read of the flag that turns
      it away, a stop when the flag is set, a pop when the front is removed. */
  function Effect(s: State, a: Action): seq<Op> {
    match a
    case Begin(t, c) => if c.Post? && s.stop then [Put(Item(t, c.envelope))] else []
    case Recheck(t) => if PcOf(s, t).Locked? then [Put(Item(t, PcOf(s, t).envelope))] else [Close]
    case PopFront(_) => if s.queue != [] then [Take] else []
    case _ => []
  }

  function Effects(s: State, run: seq<Action>): seq<Op>
    requires Allowed(s, run)
    decreases |run|
  {
    if run == [] then [] else Effect(s, run[0]) + Effects(Apply(s, run[0]), run[1..])
  }

  /** To everybody else a step is nothing or one of the three operations. */
  lemma StepsAreAtomic(s: State, a: Action)
    requires Enabled(s, a)
    ensures AllPossible(View(s), Effect(s, a))
    ensures View(Apply(s, a)) == PerformAll(View(s), Effect(s, a))
  {
    if Effect(s, a) != [] {
      assert Effect(s, a)[1..] == [];
    }
  }

  /** Every interleaving is a run of the atomic queue, to the same contents. */
  lemma {:induction false} RunsAreAtomic(s: State, run: seq<Action>)
    requires Allowed(s, run)
    ensures AllPossible(View(s), Effects(s, run))
    ensures View(After(s, run)) == PerformAll(View(s), Effects(s, run))
    decreases |run|
  {
    if run != [] {
      StepsAreAtomic(s, run[0]);
      RunsAreAtomic(Apply(s, run[0]), run[1..]);
      PerformBoth(View(s), Effect(s, run[0]), Effects(Apply(s, run[0]), run[1..]));
    }
  }

  // ---- Each call once, in program order -------------------------------------------------------

  /** What `thread` has put, accepted or not. */
  function PutBy(ops: seq<Op>, thread: nat): seq<Envelope>
    decreases |ops|
  {
    if ops == [] then []
    else (if ops[0].Put? && ops[0].item.thread == thread then [ops[0].item.envelope] else []) + PutBy(ops[1..], thread)
  }

  lemma Regroup<X>(a: seq<X>, b: seq<X>, c: seq<X>)
    ensures a + (b + c) == (a + b) + c
  {
  }

  lemma {:induction false} PutByBoth(a: seq<Op>, b: seq<Op>, thread: nat)
    ensures PutBy(a + b, thread) == PutBy(a, thread) + PutBy(b, thread)
    decreases |a|
  {
    if a == [] {
      assert a + b == b;
    } else {
      var x := if a[0].Put? && a[0].item.thread == thread then [a[0].item.envelope] else [];
      PutByBoth(a[1..], b, thread);
      Regroup(x, PutBy(a[1..], thread), PutBy(b, thread));
      assert (a + b)[0] == a[0] && (a + b)[1..] == a[1..] + b;
    }
  }

  lemma PutByOne(op: Op, thread: nat)
    ensures PutBy([op], thread)
         == if op.Put? && op.item.thread == thread then [op.item.envelope] else []
  {
    assert [op][1..] == [];
  }

  /** What `t` posted is what took effect, `done`, and what it has in hand. */
  predicate InHand(s: State, t: nat, done: seq<Envelope>) {
    done + Unpushed(PcOf(s, t)) == Issued(s, t)
  }

  lemma BeginTakesEffect(s: State, u: nat, c: Call, t: nat, done: seq<Envelope>)
    requires Enabled(s, Begin(u, c)) && InHand(s, t, done)
    ensures InHand(DoBegin(s, u, c), t, done + PutBy(Effect(s, Begin(u, c)), t))
  {
    var s', put := DoBegin(s, u, c), PutBy(Effect(s, Begin(u, c)), t);
    if c.Post? && s.stop {
      PutByOne(Put(Item(u, c.envelope)), t);
    } else {
      assert done + put == done;
    }
    if c.Post? && t == u {
      assert Unpushed(PcOf(s, t)) == [] && done == Issued(s, t);
      assert Issued(s', t) == done + [c.envelope];
    } else {
      assert Issued(s', t) == Issued(s, t) && Unpushed(PcOf(s', t)) == Unpushed(PcOf(s, t)) && put == [];
    }
  }

  lemma RecheckTakesEffect(s: State, a: Action, t: nat, done: seq<Envelope>)
    requires a.Recheck? && Enabled(s, a) && InHand(s, t, done)
    ensures InHand(Apply(s, a), t, done + PutBy(Effect(s, a), t))
  {
    PutByOne(Effect(s, a)[0], t);
  }

  lemma OtherStepsPutNothing(s: State, a: Action, t: nat, done: seq<Envelope>)
    requires !a.Begin? && !a.Recheck? && Enabled(s, a) && InHand(s, t, done)
    ensures InHand(Apply(s, a), t, done + PutBy(Effect(s, a), t))
  {
    UnchangedFields(s, a, t);
    if Effect(s, a) != [] {
      PutByOne(Effect(s, a)[0], t);
    }
    assert done + [] == done;
  }

  lemma StepTakesEffect(s: State, a: Action, t: nat, done: seq<Envelope>)
    requires Enabled(s, a) && InHand(s, t, done)
    ensures InHand(Apply(s, a), t, done + PutBy(Effect(s, a), t))
  {
    if a.Begin? {
      BeginTakesEffect(s, a.thread, a.call, t, done);
    } else if a.Recheck? {
      RecheckTakesEffect(s, a, t, done);
    } else {
      OtherStepsPutNothing(s, a, t, done);
    }
  }

  lemma {:induction false} TakesEffect(s: State, run: seq<Action>, t: nat, done: seq<Envelope>)
    requires Allowed(s, run) && InHand(s, t, done)
    ensures InHand(After(s, run), t, done + PutBy(Effects(s, run), t))
    decreases |run|
  {
    if run == [] {
      assert done + [] == done;
    } else {
      var here, rest := Effect(s, run[0]), Effects(Apply(s, run[0]), run[1..]);
      StepTakesEffect(s, run[0], t, done);
      TakesEffect(Apply(s, run[0]), run[1..], t, done + PutBy(here, t));
      PutByBoth(here, rest, t);
      Regroup(done, PutBy(here, t), PutBy(rest, t));
    }
  }

  /** The atomic queue sees the posts of each thread in the order in which it made them, each once; only
      the one under way may still be missing. */
  lemma CallsTakeEffectOnce(run: seq<Action>, t: nat)
    requires Allowed(START, run)
    ensures PutBy(Effects(START, run), t) + Unpushed(PcOf(After(START, run), t)) == Issued(After(START, run), t)
  {
    TakesEffect(START, run, t, []);
    assert [] + PutBy(Effects(START, run), t) == PutBy(Effects(START, run), t);
  }
}
