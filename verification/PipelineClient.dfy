/** A single-threaded client of the pipeline, as in the integration tests: post a burst or advance the
    manual clock, then call `run_one`. Each such call changes the pipeline as it changes the button. */
module PipelineClient {
  import opened Options
  import opened PipelineModel
  import opened PipelineInvariant
  import opened PipelineSteps
  import opened PipelineDraining
  import opened PipelineReference
  import opened PipelineTheorems
  import T = TimerSpec

  // ---- Sequences of actions -------------------------------------------------------------------

  function Posts(bs: seq<bool>): seq<Action> {
    if bs == [] then [] else [ExternalPost(bs[0])] + Posts(bs[1..])
  }

  function Times(a: Action, n: nat): seq<Action> {
    if n == 0 then [] else [a] + Times(a, n - 1)
  }

  lemma {:induction false} AfterSplit(s: Sys, a: seq<Action>, b: seq<Action>)
    ensures Allowed(s, a + b) <==> Allowed(s, a) && Allowed(After(s, a), b)
    ensures Allowed(s, a + b) ==> After(s, a + b) == After(After(s, a), b)
    decreases |a|
  {
    if a == [] {
      assert a + b == b;
    } else {
      assert (a + b)[1..] == a[1..] + b;
      if Enabled(s, a[0]) {
        AfterSplit(Apply(s, a[0]), a[1..], b);
      }
    }
  }

  lemma Cons(s: Sys, a: Action, rest: seq<Action>)
    ensures Allowed(s, [a] + rest) <==> Enabled(s, a) && Allowed(Apply(s, a), rest)
    ensures Allowed(s, [a] + rest) ==> After(s, [a] + rest) == After(Apply(s, a), rest)
  {
    assert ([a] + rest)[1..] == rest;
  }

  lemma JustOne(s: Sys, a: Action)
    ensures Allowed(s, [a]) <==> Enabled(s, a)
    ensures Allowed(s, [a]) ==> After(s, [a]) == Apply(s, a)
  {
    Cons(s, a, []);
    assert [a] + [] == [a];
  }

  lemma {:induction false} PostsRun(s: Sys, bs: seq<bool>)
    requires !s.stopped
    ensures Allowed(s, Posts(bs)) && After(s, Posts(bs)) == s.(queue := s.queue + Raws(bs))
    decreases |bs|
  {
    if bs == [] {
      assert s.queue + [] == s.queue;
    } else {
      var s1 := s.(queue := s.queue + [RawTransition(bs[0])]);
      assert s1.queue + Raws(bs[1..]) == s.queue + Raws(bs);
      assert Apply(s, ExternalPost(bs[0])) == s1;
      PostsRun(s1, bs[1..]);
      Cons(s, ExternalPost(bs[0]), Posts(bs[1..]));
    }
  }

  lemma {:induction false} FiresRun(s: Sys)
    requires s.pos.ManualFiring? && !s.stopped
    ensures Allowed(s, Times(PostFired, |s.pos.todo|))
    ensures After(s, Times(PostFired, |s.pos.todo|)) == s.(queue := s.queue + s.pos.todo, pos := ManualFiring([]))
    decreases |s.pos.todo|
  {
    var todo := s.pos.todo;
    if todo == [] {
      assert s.queue + [] == s.queue;
    } else {
      FiresRun(PostHead(s));
      assert Times(PostFired, |todo|)[1..] == Times(PostFired, |todo| - 1);
      assert s.queue + [todo[0]] + todo[1..] == s.queue + todo;
    }
  }

  lemma DispatchCons(s: Sys, n: nat)
    requires n > 0 && s.queue != [] && Draining(s.pos)
    ensures Allowed(s, Times(DispatchFront, n)) <==> Allowed(Dispatch(s), Times(DispatchFront, n - 1))
    ensures Allowed(s, Times(DispatchFront, n)) ==>
      After(s, Times(DispatchFront, n)) == After(Dispatch(s), Times(DispatchFront, n - 1))
  {
    Cons(s, DispatchFront, Times(DispatchFront, n - 1));
  }

  /** Dispatching until the queue is empty is the drain, however many dispatches it takes. */
  lemma {:induction false} DispatchesRun(s: Sys, run: seq<Action>)
    requires Inv(s) && Draining(s.pos) && Allowed(s, run)
    requires forall i :: 0 <= i < |run| ==> run[i] == DispatchFront
    requires After(s, run).queue == []
    ensures After(s, run) == Drain(s)
    decreases |run|
  {
    if run == [] {
      DrainNothing(s);
    } else {
      DrainStep(s);
      DispatchesRun(Dispatch(s), run[1..]);
    }
  }

  lemma {:induction false} TimesAll(a: Action, n: nat)
    ensures |Times(a, n)| == n && forall i :: 0 <= i < n ==> Times(a, n)[i] == a
  {
    if n > 0 {
      TimesAll(a, n - 1);
    }
  }

  lemma DrainNothing(s: Sys)
    requires Inv(s) && Draining(s.pos) && s.queue == []
    ensures Drain(s) == s
  {
  }

  lemma {:induction false} DispatchesExist(s: Sys) returns (n: nat)
    requires Inv(s) && Draining(s.pos)
    ensures Allowed(s, Times(DispatchFront, n)) && After(s, Times(DispatchFront, n)).queue == []
    decreases Weights(s.queue)
  {
    n := 0;
    if s.queue != [] {
      DrainStep(s);
      DispatchLighter(s);
      var m := DispatchesExist(Dispatch(s));
      n := m + 1;
      DispatchCons(s, n);
    }
  }

  // ---- Serving a stimulus ---------------------------------------------------------------------

  function RunOne(n: nat): seq<Action> {
    [CallRunOne] + (Times(DispatchFront, n) + [DrainDone])
  }

  function AdvanceAll(delta: int, batch: seq<nat>): seq<Action> {
    [Advance(delta, batch)] + (Times(PostFired, |batch|) + [FiringDone])
  }

  /** `run` is what the client and the loop do for `x`. */
  ghost predicate ServesOne(s: Sys, x: Stimulus, run: seq<Action>) {
    Allowed(s, run) &&
    match x
    case Burst(bs) => exists n :: run == Posts(bs) + RunOne(n)
    case Wait(d) => exists n, batch :: run == AdvanceAll(d, batch) + RunOne(n)
  }

  lemma RunOneParts(s: Sys, s1: Sys, n: nat)
    requires s1 == s.(pos := OneDrain) && Allowed(s, RunOne(n))
    ensures s.pos == Outside && Allowed(s1, Times(DispatchFront, n))
    ensures var d := After(s1, Times(DispatchFront, n));
            Enabled(d, DrainDone) && After(s, RunOne(n)) == Apply(d, DrainDone)
  {
    var dispatches := Times(DispatchFront, n);
    Cons(s, CallRunOne, dispatches + [DrainDone]);
    AfterSplit(s1, dispatches, [DrainDone]);
    JustOne(After(s1, dispatches), DrainDone);
  }

  lemma RunOneIsDrain(s: Sys, n: nat)
    requires Inv(s.(pos := OneDrain)) && Allowed(s, RunOne(n))
    ensures After(s, RunOne(n)) == Drain(s.(pos := OneDrain)).(pos := Outside)
  {
    var s1 := s.(pos := OneDrain);
    RunOneParts(s, s1, n);
    TimesAll(DispatchFront, n);
    DispatchesRun(s1, Times(DispatchFront, n));
    DrainPos(s1);
  }

  lemma {:induction false} DrainPos(s: Sys)
    requires Inv(s) && Draining(s.pos)
    ensures Drain(s).pos == s.pos && Inv(Drain(s))
    decreases Weights(s.queue)
  {
    if s.queue != [] {
      DrainStep(s);
      DispatchLighter(s);
      DrainPos(Dispatch(s));
    }
  }

  lemma AdvanceIsFire(s: Sys, d: int, batch: seq<nat>)
    requires !s.stopped && Allowed(s, AdvanceAll(d, batch))
    ensures Enabled(s, Advance(d, batch))
    ensures After(s, AdvanceAll(d, batch))
         == Fire(s, s.now + d, batch, true).(queue := s.queue + Collected(s, batch), pos := Outside)
  {
    var s1 := Apply(s, Advance(d, batch));
    assert AdvanceAll(d, batch)[1..] == Times(PostFired, |batch|) + [FiringDone];
    AfterSplit(s1, Times(PostFired, |batch|), [FiringDone]);
    FiresRun(s1);
    var s2 := After(s1, Times(PostFired, |batch|));
    assert After(s2, [FiringDone]) == Apply(s2, FiringDone);
  }

  lemma PosUnseen(s: Sys, p: Position)
    ensures View(s.(pos := p)) == View(s)
  {
  }

  lemma CallInv(s: Sys)
    requires Inv(s) && s.pos == Outside
    ensures Inv(s.(pos := OneDrain)) && View(s.(pos := OneDrain)) == View(s)
  {
    MoveInv(s, OneDrain);
    PosUnseen(s, OneDrain);
  }

  lemma ReturnInv(s: Sys)
    requires Inv(s) && s.pos == OneDrain && s.queue == []
    ensures Inv(s.(pos := Outside)) && View(s.(pos := Outside)) == View(s)
  {
    MoveInv(s, Outside);
    PosUnseen(s, Outside);
  }

  lemma PostsInv(s: Sys, bs: seq<bool>)
    requires Inv(s) && !s.stopped
    ensures Inv(s.(queue := s.queue + Raws(bs)))
  {
    PostsRun(s, bs);
    AfterInv(s, Posts(bs));
  }

  /** `run_one` on a quiet pipeline with something queued. */
  lemma RunOneQuiet(s: Sys, n: nat, r: Button)
    requires Inv(s) && s.manual && !s.stopped && s.pos == Outside && Allowed(s, RunOne(n))
    requires var t := s.(pos := OneDrain);
             Inv(t) ==> View(Drain(t)) == r && SameFrame(t, Drain(t)) && Inv(Drain(t))
    ensures Quiet(After(s, RunOne(n))) && View(After(s, RunOne(n))) == r
  {
    CallInv(s);
    RunOneIsDrain(s, n);
    ReturnInv(Drain(s.(pos := OneDrain)));
  }

  lemma BurstServed(s: Sys, bs: seq<bool>, n: nat)
    requires Quiet(s) && Allowed(s, Posts(bs) + RunOne(n))
    ensures Quiet(After(s, Posts(bs) + RunOne(n)))
    ensures View(After(s, Posts(bs) + RunOne(n))) == Readings(View(s), bs)
  {
    AfterSplit(s, Posts(bs), RunOne(n));
    PostsRun(s, bs);
    PostsInv(s, bs);
    var s1 := s.(queue := s.queue + Raws(bs));
    assert s1.queue == Raws(bs);
    CallInv(s1);
    QueueUnseen(s, s1.queue);
    DrainReadings(s1.(pos := OneDrain), bs);
    RunOneQuiet(s1, n, Readings(View(s), bs));
  }

  /** The state just before `run_one` when the clock was advanced by `d`. */
  function Advanced(s: Sys, d: int, batch: seq<nat>): Sys
    requires forall k :: k in batch ==> k in s.timers.live
  {
    Fire(s, s.now + d, batch, true).(queue := Collected(s, batch), pos := Outside)
  }

  lemma FiredUnlock(s: Sys, d: int, batch: seq<nat>)
    requires Still(s) && T.IsBatch(s.timers, s.now + d, batch)
    ensures Count(Collected(s, batch), DebounceExpired)
         == B(s.deb.state == CoolingDown && View(s).lockedUntil.Some? && View(s).lockedUntil.value <= s.now + d)
  {
    Owners(s);
    Armament(s);
    FireCount(s, s.now + d, batch, DebounceExpired, s.deb.timer);
  }

  lemma FiredGestures(s: Sys, d: int, batch: seq<nat>)
    requires Still(s) && T.IsBatch(s.timers, s.now + d, batch)
    ensures Count(Collected(s, batch), LongPressExpired)
         == B(s.cls.state == Pressed && s.hist.entered + LONG_PRESS_THRESHOLD <= s.now + d)
    ensures Count(Collected(s, batch), DoubleClickExpired)
         == B(s.cls.state == AwaitingSecondClick && s.hist.entered + DOUBLE_CLICK_WINDOW <= s.now + d)
  {
    Owners(s);
    Armament(s);
    FireCount(s, s.now + d, batch, LongPressExpired, if s.cls.state == Pressed then s.cls.timer else None);
    FireCount(s, s.now + d, batch, DoubleClickExpired, if s.cls.state == AwaitingSecondClick then s.cls.timer else None);
  }

  /** What `advance` collects is exactly what the reference lets expire. */
  lemma FiredMeansPassed(s: Sys, d: int, batch: seq<nat>)
    requires Still(s) && T.IsBatch(s.timers, s.now + d, batch)
    ensures Expiries(View(s).(now := s.now + d), Collected(s, batch)) == Passed(View(s), d)
  {
    FiredUnlock(s, d, batch);
    FiredGestures(s, d, batch);
  }

  /** In a still pipeline every owned timer is armed, with the due time the view shows. */
  lemma Armament(s: Sys)
    requires Still(s)
    ensures s.deb.state == CoolingDown ==>
      IsArmed(s, s.deb.timer) && View(s).lockedUntil == Some(s.timers.live[s.deb.timer.value].due)
    ensures s.cls.state == Pressed ==>
      IsArmed(s, s.cls.timer) && View(s).phase == Down(s.timers.live[s.cls.timer.value].due)
    ensures s.cls.state == AwaitingSecondClick ==>
      IsArmed(s, s.cls.timer) && View(s).phase == Between(s.timers.live[s.cls.timer.value].due)
  {
    assert Pending(s, DebounceExpired) == Pending(s, LongPressExpired) == Pending(s, DoubleClickExpired) == 0;
    if s.deb.state == CoolingDown {
      assert OwnedTimer(s, s.deb.timer.value, s.timers.live[s.deb.timer.value]);
    }
    if s.cls.timer.Some? {
      assert OwnedTimer(s, s.cls.timer.value, s.timers.live[s.cls.timer.value]);
    }
  }

  lemma OnlyTimers(s: Sys, batch: seq<nat>)
    requires Resources(s) && forall k :: k in batch ==> k in s.timers.live
    ensures OnlyExpiries(Collected(s, batch))
  {
    forall i | 0 <= i < |batch| ensures IsTimer(Collected(s, batch)[i]) {
      assert batch[i] in batch;
      assert OwnedTimer(s, batch[i], s.timers.live[batch[i]]);
    }
  }

  lemma AdvancedRun(s: Sys, d: int, batch: seq<nat>)
    requires !s.stopped && s.queue == [] && Allowed(s, AdvanceAll(d, batch))
    ensures Enabled(s, Advance(d, batch)) && T.IsBatch(s.timers, s.now + d, batch)
    ensures After(s, AdvanceAll(d, batch)) == Advanced(s, d, batch)
  {
    AdvanceIsFire(s, d, batch);
    assert s.queue + Collected(s, batch) == Collected(s, batch);
  }

  lemma AdvancedView(s: Sys, d: int, batch: seq<nat>)
    requires forall k :: k in batch ==> k in s.timers.live
    ensures View(Advanced(s, d, batch)) == View(s).(now := s.now + d)
    ensures Advanced(s, d, batch).manual == s.manual && Advanced(s, d, batch).stopped == s.stopped
  {
  }

  lemma AdvancedInv(s: Sys, d: int, batch: seq<nat>)
    requires Quiet(s) && Allowed(s, AdvanceAll(d, batch))
    ensures T.IsBatch(s.timers, s.now + d, batch)
    ensures After(s, AdvanceAll(d, batch)) == Advanced(s, d, batch) && Inv(Advanced(s, d, batch))
  {
    AdvancedRun(s, d, batch);
    AfterInv(s, AdvanceAll(d, batch));
  }

  /** `run_one` after an advance. */
  lemma ExpiriesServed(s: Sys, n: nat)
    requires Inv(s) && s.manual && !s.stopped && s.pos == Outside && OnlyExpiries(s.queue) && Allowed(s, RunOne(n))
    ensures Quiet(After(s, RunOne(n))) && View(After(s, RunOne(n))) == Expiries(View(s), s.queue)
  {
    CallInv(s);
    DrainExpiries(s.(pos := OneDrain));
    RunOneQuiet(s, n, Expiries(View(s), s.queue));
  }

  lemma WaitServed(s: Sys, d: int, batch: seq<nat>, n: nat)
    requires Quiet(s) && Allowed(s, AdvanceAll(d, batch) + RunOne(n))
    ensures Quiet(After(s, AdvanceAll(d, batch) + RunOne(n)))
    ensures View(After(s, AdvanceAll(d, batch) + RunOne(n))) == Passed(View(s), d)
  {
    AfterSplit(s, AdvanceAll(d, batch), RunOne(n));
    AdvancedInv(s, d, batch);
    AdvancedView(s, d, batch);
    OnlyTimers(s, batch);
    FiredMeansPassed(s, d, batch);
    ExpiriesServed(Advanced(s, d, batch), n);
  }

  lemma ServedOne(s: Sys, x: Stimulus, run: seq<Action>)
    requires Quiet(s) && ServesOne(s, x, run)
    ensures Quiet(After(s, run)) && View(After(s, run)) == Respond(View(s), x)
  {
    match x
    case Burst(bs) =>
      var n :| run == Posts(bs) + RunOne(n);
      BurstServed(s, bs, n);
    case Wait(d) =>
      var n, batch :| run == AdvanceAll(d, batch) + RunOne(n);
      WaitServed(s, d, batch, n);
  }
}
