/** The rounds of `run` under a steady clock in which raw transitions arrive before the firing, and time
    passes before it too: the loop wakes, fires, drains and checks for stop. However such a round goes, it
    ends in the reference's state. `PipelineInbox` has runs of any shape. */
module PipelineRounds {
  import opened PipelineModel
  import opened PipelineInvariant
  import opened PipelineReference
  import opened PipelineDraining
  import opened PipelineTheorems
  import opened PipelineClient
  import opened PipelineSteady
  import T = TimerSpec

  function Ticks(ds: seq<int>): seq<Action> {
    if ds == [] then [] else [Tick(ds[0])] + Ticks(ds[1..])
  }

  function Sum(ds: seq<int>): int {
    if ds == [] then 0 else ds[0] + Sum(ds[1..])
  }

  /** Firing a batch and posting it. */
  function Firings(batch: seq<nat>): seq<Action> {
    [FireDue(batch)] + (Times(PostFired, |batch|) + [FiringDone])
  }

  /** A drain of `n` dispatches, and the check. */
  function Drains(n: nat): seq<Action> {
    Times(DispatchFront, n) + [DrainDone, CheckStop]
  }

  // ---- Its parts ------------------------------------------------------------------------------

  lemma {:induction false} PostingsRun(s: Sys)
    requires s.pos.RunFiring? && !s.stopped
    ensures Allowed(s, Times(PostFired, |s.pos.todo|))
    ensures After(s, Times(PostFired, |s.pos.todo|)) == s.(queue := s.queue + s.pos.todo, pos := RunFiring([]))
    decreases |s.pos.todo|
  {
    var todo := s.pos.todo;
    if todo == [] {
      assert s.queue + [] == s.queue;
    } else {
      PostingsRun(PostHead(s));
      Cons(s, PostFired, Times(PostFired, |todo| - 1));
      assert s.queue + [todo[0]] + todo[1..] == s.queue + todo;
    }
  }

  lemma FiringsRun(s: Sys, batch: seq<nat>)
    requires !s.stopped && Allowed(s, Firings(batch))
    ensures s.pos == RunWait && T.IsBatch(s.timers, s.now, batch)
    ensures After(s, Firings(batch)) == Woken(s, batch)
  {
    Cons(s, FireDue(batch), Times(PostFired, |batch|) + [FiringDone]);
    var s1 := Fire(s, s.now, batch, false);
    PostingsRun(s1);
    AfterSplit(s1, Times(PostFired, |batch|), [FiringDone]);
    JustOne(After(s1, Times(PostFired, |batch|)), FiringDone);
  }

  lemma DrainCloses(d: Sys)
    requires Allowed(d, [DrainDone, CheckStop])
    ensures d.queue == []
    ensures d.pos == RunDrain && !d.stopped ==> After(d, [DrainDone, CheckStop]) == d.(pos := RunWait)
  {
    assert [DrainDone, CheckStop] == [DrainDone] + [CheckStop];
    Cons(d, DrainDone, [CheckStop]);
    JustOne(Apply(d, DrainDone), CheckStop);
  }

  lemma DrainsRun(s: Sys, n: nat)
    requires Inv(s) && s.pos == RunDrain && !s.stopped && Allowed(s, Drains(n))
    requires Drain(s).pos == RunDrain && !Drain(s).stopped
    ensures After(s, Drains(n)) == Drain(s).(pos := RunWait)
  {
    AfterSplit(s, Times(DispatchFront, n), [DrainDone, CheckStop]);
    var d := After(s, Times(DispatchFront, n));
    DrainCloses(d);
    TimesAll(DispatchFront, n);
    DispatchesRun(s, Times(DispatchFront, n));
    assert d == Drain(s);
  }

  // ---- The whole of it ------------------------------------------------------------------------

  ghost predicate Prefix(s: Sys, run: seq<Action>, a: seq<Action>, t: Sys, rest: seq<Action>) {
    run == a + rest && Allowed(s, run) && Allowed(s, a) && After(s, a) == t
  }

  /** After a first part of `run` the state is `t`, and `rest` is still to come. */
  ghost predicate Leads(s: Sys, run: seq<Action>, t: Sys, rest: seq<Action>) {
    exists a: seq<Action> :: Prefix(s, run, a, t, rest)
  }

  lemma LeadsOn(s: Sys, run: seq<Action>, t: Sys, rest: seq<Action>, u: Sys, more: seq<Action>)
    requires Leads(s, run, t, rest) && Leads(t, rest, u, more)
    ensures Leads(s, run, u, more)
  {
    var a: seq<Action> :| Prefix(s, run, a, t, rest);
    var b: seq<Action> :| Prefix(t, rest, b, u, more);
    AfterSplit(s, a, b);
    assert a + (b + more) == (a + b) + more;
    assert Prefix(s, run, a + b, u, more);
  }

  lemma LeadsTo(s: Sys, run: seq<Action>, t: Sys, rest: seq<Action>)
    requires Inv(s) && Leads(s, run, t, rest)
    ensures Inv(t) && Allowed(t, rest) && After(s, run) == After(t, rest)
  {
    var a: seq<Action> :| Prefix(s, run, a, t, rest);
    AfterSplit(s, a, rest);
    AfterInv(s, a);
  }

  lemma FirstPart(s: Sys, a: seq<Action>, rest: seq<Action>)
    requires Allowed(s, a + rest)
    ensures Allowed(s, a) && Leads(s, a + rest, After(s, a), rest)
  {
    AfterSplit(s, a, rest);
    assert Prefix(s, a + rest, a, After(s, a), rest);
  }

  lemma PostsFirst(s: Sys, bs: seq<bool>, rest: seq<Action>)
    requires !s.stopped && s.queue == [] && Allowed(s, Posts(bs) + rest)
    ensures Leads(s, Posts(bs) + rest, s.(queue := Raws(bs)), rest)
  {
    FirstPart(s, Posts(bs), rest);
    PostsRun(s, bs);
    assert s.queue + Raws(bs) == Raws(bs);
  }

  lemma FiringsFirst(s: Sys, batch: seq<nat>, rest: seq<Action>)
    requires !s.stopped && Allowed(s, Firings(batch) + rest)
    ensures T.IsBatch(s.timers, s.now, batch) && Leads(s, Firings(batch) + rest, Woken(s, batch), rest)
  {
    FirstPart(s, Firings(batch), rest);
    FiringsRun(s, batch);
  }

  lemma ThenFirings(s: Sys, run: seq<Action>, t: Sys, batch: seq<nat>, rest: seq<Action>)
    requires Inv(s) && Leads(s, run, t, Firings(batch) + rest) && !t.stopped
    ensures T.IsBatch(t.timers, t.now, batch) && Leads(s, run, Woken(t, batch), rest)
  {
    LeadsTo(s, run, t, Firings(batch) + rest);
    FiringsFirst(t, batch, rest);
    LeadsOn(s, run, t, Firings(batch) + rest, Woken(t, batch), rest);
  }

  // ---- A round without the ticks --------------------------------------------------------------

  /** The part of a round that begins when the loop wakes. */
  function Waking(bs: seq<bool>, batch: seq<nat>, n: nat): seq<Action> {
    Posts(bs) + (Firings(batch) + Drains(n))
  }

  /** The state in which its drain begins. */
  function Begun(s: Sys, bs: seq<bool>, batch: seq<nat>): Sys
    requires forall k :: k in batch ==> k in s.timers.live
  {
    Woken(s.(queue := Raws(bs)), batch)
  }

  lemma WakingBegins(s: Sys, bs: seq<bool>, batch: seq<nat>, n: nat)
    requires Inv(s) && !s.stopped && s.queue == [] && Allowed(s, Waking(bs, batch, n))
    ensures T.IsBatch(s.timers, s.now, batch)
    ensures Leads(s, Waking(bs, batch, n), Begun(s, bs, batch), Drains(n))
  {
    PostsFirst(s, bs, Firings(batch) + Drains(n));
    ThenFirings(s, Waking(bs, batch, n), s.(queue := Raws(bs)), batch, Drains(n));
  }

  lemma RoundEnds(w: Sys, n: nat, b: Button)
    requires Inv(w) && w.pos == RunDrain && !w.stopped && !w.manual && Allowed(w, Drains(n))
    requires View(Drain(w)) == b && SameFrame(w, Drain(w)) && Inv(Drain(w))
    ensures Resting(After(w, Drains(n)), b)
  {
    DrainsRun(w, n);
    ReachesRest(w, b);
  }

  lemma BegunWait(s: Sys, batch: seq<nat>)
    requires s.queue == [] && forall k :: k in batch ==> k in s.timers.live
    ensures Begun(s, [], batch) == Woken(s, batch)
  {
    assert s.(queue := Raws([])) == s;
  }

  lemma WokenNow(s: Sys, batch: seq<nat>)
    requires s.queue == [] && forall k :: k in batch ==> k in s.timers.live
    ensures var w := Woken(s, batch);
            && View(w) == View(s) && w.queue == Collected(s, batch)
            && w.manual == s.manual && w.stopped == s.stopped && w.pos == RunDrain
  {
    assert [] + Collected(s, batch) == Collected(s, batch);
    ViewFrame(s, Woken(s, batch));
  }

  lemma BatchExpires(s: Sys, b: Button, batch: seq<nat>)
    requires Resting(s, b) && T.IsBatch(s.timers, s.now, batch)
    ensures OnlyExpiries(Collected(s, batch)) && Expiries(b, Collected(s, batch)) == Passed(b, 0)
  {
    OnlyTimers(s, batch);
    assert s.now == s.now + 0;
    FiredMeansPassed(s, 0, batch);
    assert b.(now := s.now + 0) == b;
  }

  lemma WaitBegun(s: Sys, b: Button, batch: seq<nat>)
    requires Resting(s, b) && T.IsBatch(s.timers, s.now, batch)
    ensures var w := Begun(s, [], batch);
            && w.pos == RunDrain && !w.stopped && !w.manual && OnlyExpiries(w.queue)
            && Expiries(View(w), w.queue) == Passed(b, 0)
  {
    BegunWait(s, batch);
    WokenNow(s, batch);
    BatchExpires(s, b, batch);
  }

  lemma WaitEnds(w: Sys, n: nat, b: Button)
    requires Inv(w) && w.pos == RunDrain && !w.stopped && !w.manual && Allowed(w, Drains(n))
    requires OnlyExpiries(w.queue) && Expiries(View(w), w.queue) == b
    ensures Resting(After(w, Drains(n)), b)
  {
    DrainExpiries(w);
    RoundEnds(w, n, b);
  }

  lemma WakingWait(s: Sys, b: Button, batch: seq<nat>, n: nat)
    requires Resting(s, b) && Allowed(s, Waking([], batch, n))
    ensures Resting(After(s, Waking([], batch, n)), Passed(b, 0))
  {
    WakingBegins(s, [], batch, n);
    WaitBegun(s, b, batch);
    LeadsTo(s, Waking([], batch, n), Begun(s, [], batch), Drains(n));
    WaitEnds(Begun(s, [], batch), n, Passed(b, 0));
  }

  lemma FirstIsDue(s: Sys, batch: seq<nat>)
    requires T.IsBatch(s.timers, s.now, batch) && batch != []
    ensures !T.IsBatch(s.timers, s.now, [])
  {
    assert batch[0] in batch;
  }

  lemma BatchIsEmpty(s: Sys, b: Button, batch: seq<nat>)
    requires Resting(s, b) && InTime(b) && T.IsBatch(s.timers, s.now, batch)
    ensures batch == []
  {
    NothingDue(s);
    if batch != [] { FirstIsDue(s, batch); }
  }

  lemma ReadBegun(s: Sys, b: Button, bs: seq<bool>)
    requires Resting(s, b)
    ensures var w := Begun(s, bs, []);
            w.pos == RunDrain && !w.stopped && !w.manual && w.queue == Raws(bs) && View(w) == b
  {
    assert Raws(bs) + [] == Raws(bs);
    ViewFrame(s, Begun(s, bs, []));
  }

  lemma ReadEnds(w: Sys, n: nat, bs: seq<bool>)
    requires Inv(w) && w.pos == RunDrain && !w.stopped && !w.manual && w.queue == Raws(bs) && Allowed(w, Drains(n))
    ensures Resting(After(w, Drains(n)), Readings(View(w), bs))
  {
    DrainReadings(w, bs);
    RoundEnds(w, n, Readings(View(w), bs));
  }

  lemma WakingRead(s: Sys, b: Button, bs: seq<bool>, batch: seq<nat>, n: nat)
    requires Resting(s, b) && InTime(b) && Allowed(s, Waking(bs, batch, n))
    ensures Resting(After(s, Waking(bs, batch, n)), Readings(b, bs))
  {
    WakingBegins(s, bs, batch, n);
    BatchIsEmpty(s, b, batch);
    ReadBegun(s, b, bs);
    LeadsTo(s, Waking(bs, batch, n), Begun(s, bs, []), Drains(n));
    ReadEnds(Begun(s, bs, []), n, bs);
  }

  // ---- The ticks before it --------------------------------------------------------------------

  function Later(s: Sys, d: int): Sys {
    s.(now := s.now + d)
  }

  lemma OneTick(s: Sys, b: Button, d: int)
    requires Resting(s, b) && d >= 0
    ensures Reaches(s, Later(s, d)) && Resting(Later(s, d), b.(now := b.now + d))
  {
    ReachesOne(s, Tick(d));
    ReachedInv(s, Later(s, d));
    ViewFrame(s, Later(s, d));
  }

  lemma TickFirst(s: Sys, d: int, rest: seq<Action>)
    requires Allowed(s, [Tick(d)] + rest)
    ensures d >= 0 && Allowed(Later(s, d), rest) && After(s, [Tick(d)] + rest) == After(Later(s, d), rest)
  {
    Cons(s, Tick(d), rest);
  }

  lemma TicksHead(ds: seq<int>, rest: seq<Action>)
    requires ds != []
    ensures Ticks(ds) + rest == [Tick(ds[0])] + (Ticks(ds[1..]) + rest)
  {
  }

  lemma TicksStep(s: Sys, b: Button, ds: seq<int>, rest: seq<Action>)
    requires ds != [] && Resting(s, b) && Allowed(s, Ticks(ds) + rest)
    ensures var t := Later(s, ds[0]);
            && Resting(t, b.(now := b.now + ds[0])) && Allowed(t, Ticks(ds[1..]) + rest)
            && After(s, Ticks(ds) + rest) == After(t, Ticks(ds[1..]) + rest)
  {
    TicksHead(ds, rest);
    TickFirst(s, ds[0], Ticks(ds[1..]) + rest);
    OneTick(s, b, ds[0]);
  }

  lemma LaterSum(s: Sys, b: Button, ds: seq<int>)
    ensures ds == [] ==> Later(s, Sum(ds)) == s && b.(now := b.now + Sum(ds)) == b
    ensures ds != [] ==> Later(Later(s, ds[0]), Sum(ds[1..])) == Later(s, Sum(ds))
    ensures ds != [] ==> var c := b.(now := b.now + ds[0]); c.(now := c.now + Sum(ds[1..])) == b.(now := b.now + Sum(ds))
  {
  }

  lemma {:induction false} TicksRest(s: Sys, b: Button, ds: seq<int>, rest: seq<Action>)
    requires Resting(s, b) && Allowed(s, Ticks(ds) + rest)
    ensures Resting(Later(s, Sum(ds)), b.(now := b.now + Sum(ds)))
    ensures Allowed(Later(s, Sum(ds)), rest) && After(s, Ticks(ds) + rest) == After(Later(s, Sum(ds)), rest)
    decreases |ds|
  {
    LaterSum(s, b, ds);
    if ds == [] {
      assert Ticks(ds) + rest == rest;
    } else {
      TicksStep(s, b, ds, rest);
      TicksRest(Later(s, ds[0]), b.(now := b.now + ds[0]), ds[1..], rest);
    }
  }

  /** A round of `run`: ticks, raw transitions, the firing of a batch, `n` dispatches and the check. */
  function Round(ds: seq<int>, bs: seq<bool>, batch: seq<nat>, n: nat): seq<Action> {
    Ticks(ds) + Waking(bs, batch, n)
  }

  lemma PassedLater(b: Button, d: int)
    ensures Passed(b.(now := b.now + d), 0) == Passed(b, d)
  {
  }

  /** Every round in which nothing arrives is a wait of the reference. */
  lemma EveryWaitRound(s: Sys, b: Button, ds: seq<int>, batch: seq<nat>, n: nat)
    requires Resting(s, b) && Allowed(s, Round(ds, [], batch, n))
    ensures Resting(After(s, Round(ds, [], batch, n)), Passed(b, Sum(ds)))
  {
    var d := Sum(ds);
    assert Round(ds, [], batch, n) == Ticks(ds) + Waking([], batch, n);
    TicksRest(s, b, ds, Waking([], batch, n));
    WakingWait(Later(s, d), b.(now := b.now + d), batch, n);
    PassedLater(b, d);
  }

  /** Every round in which raw transitions arrive before anything is overdue is a burst of the reference,
      at the time of the round. */
  lemma EveryReadRound(s: Sys, b: Button, ds: seq<int>, bs: seq<bool>, batch: seq<nat>, n: nat)
    requires Resting(s, b) && Allowed(s, Round(ds, bs, batch, n)) && InTime(b.(now := b.now + Sum(ds)))
    ensures Resting(After(s, Round(ds, bs, batch, n)), Readings(b.(now := b.now + Sum(ds)), bs))
  {
    TicksRest(s, b, ds, Waking(bs, batch, n));
    WakingRead(Later(s, Sum(ds)), b.(now := b.now + Sum(ds)), bs, batch, n);
  }
}
