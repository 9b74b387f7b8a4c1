/** The pipeline under a steady clock, where `run` waits, fires and drains. Between rounds of the loop it
    is the reference button too. */
module PipelineSteady {
  import opened PipelineModel
  import opened PipelineInvariant
  import opened PipelineDraining
  import opened PipelineReference
  import opened PipelineTheorems
  import opened PipelineClient
  import opened PipelineSessions
  import T = TimerSpec

  /** Some actions lead from `s` to `t`. */
  ghost predicate Reaches(s: Sys, t: Sys) {
    exists run: seq<Action> :: Allowed(s, run) && After(s, run) == t
  }

  lemma ReachesSelf(s: Sys)
    ensures Reaches(s, s)
  {
    assert Allowed(s, []) && After(s, []) == s;
  }

  lemma ReachesOne(s: Sys, a: Action)
    requires Enabled(s, a)
    ensures Reaches(s, Apply(s, a))
  {
    Cons(s, a, []);
    assert Allowed(s, [a] + []) && After(s, [a] + []) == Apply(s, a);
  }

  lemma ReachesOver(s: Sys, t: Sys, u: Sys)
    requires Reaches(s, t) && Reaches(t, u)
    ensures Reaches(s, u)
  {
    var a :| Allowed(s, a) && After(s, a) == t;
    var b :| Allowed(t, b) && After(t, b) == u;
    AfterSplit(s, a, b);
    assert Allowed(s, a + b) && After(s, a + b) == u;
  }

  lemma ReachedInv(s: Sys, t: Sys)
    requires Inv(s) && Reaches(s, t)
    ensures Inv(t) && t.manual == s.manual
  {
    var run :| Allowed(s, run) && After(s, run) == t;
    AfterInv(s, run);
  }

  // ---- A round of the loop --------------------------------------------------------------------

  lemma {:induction false} ReachesDrained(s: Sys)
    requires Inv(s) && Draining(s.pos)
    ensures Reaches(s, Drain(s))
    decreases Weights(s.queue)
  {
    if s.queue == [] {
      ReachesSelf(s);
    } else {
      DrainStep(s);
      DispatchLighter(s);
      ReachesOne(s, DispatchFront);
      ReachesDrained(Dispatch(s));
      ReachesOver(s, Dispatch(s), Drain(Dispatch(s)));
    }
  }

  lemma {:induction false} ReachesPosted(s: Sys)
    requires s.pos.RunFiring? && !s.stopped
    ensures Reaches(s, s.(queue := s.queue + s.pos.todo, pos := RunDrain))
    decreases |s.pos.todo|
  {
    var todo := s.pos.todo;
    if todo == [] {
      assert s.queue + todo == s.queue;
      ReachesOne(s, FiringDone);
    } else {
      var s1 := PostHead(s);
      ReachesOne(s, PostFired);
      ReachesPosted(s1);
      assert s.queue + [todo[0]] + todo[1..] == s.queue + todo;
      ReachesOver(s, s1, s.(queue := s.queue + todo, pos := RunDrain));
    }
  }

  /** What is due has been fired and queued behind what was there. */
  function Woken(s: Sys, batch: seq<nat>): Sys
    requires forall k :: k in batch ==> k in s.timers.live
  {
    s.(timers := T.AfterFire(s.timers, s.now), queue := s.queue + Collected(s, batch), pos := RunDrain,
       hist := s.hist.(fired := s.now))
  }

  lemma ReachesWoken(s: Sys, batch: seq<nat>)
    requires Inv(s) && s.pos == RunWait && !s.stopped && T.IsBatch(s.timers, s.now, batch)
    ensures Reaches(s, Woken(s, batch)) && Inv(Woken(s, batch))
  {
    var s1 := Fire(s, s.now, batch, false);
    ReachesOne(s, FireDue(batch));
    ReachesPosted(s1);
    ReachesOver(s, s1, Woken(s, batch));
    ReachedInv(s, Woken(s, batch));
  }

  /** Between rounds, nothing queued: the loop waits, and the pipeline stands for `b`. */
  ghost predicate Resting(s: Sys, b: Button) {
    Inv(s) && !s.manual && !s.stopped && s.pos == RunWait && s.queue == [] && View(s) == b
  }

  /** The end of a round that has drained to `b`. */
  lemma ReachesRest(s: Sys, b: Button)
    requires Inv(s) && s.pos == RunDrain && !s.stopped && !s.manual
    requires View(Drain(s)) == b && SameFrame(s, Drain(s)) && Inv(Drain(s))
    ensures Reaches(s, Drain(s).(pos := RunWait)) && Resting(Drain(s).(pos := RunWait), b)
  {
    var d := Drain(s);
    var c := d.(pos := RunCheck);
    var w := d.(pos := RunWait);
    ReachesDrained(s);
    ReachesOne(d, DrainDone);
    ReachesOver(s, d, c);
    ReachesOne(c, CheckStop);
    ReachesOver(s, c, w);
    ReachedInv(s, w);
    PosUnseen(d, RunWait);
  }

  lemma WaitWakes(s: Sys, d: int, batch: seq<nat>)
    requires Inv(s) && s.pos == RunWait && !s.stopped && !s.manual && d >= 0 && T.IsBatch(s.timers, s.now + d, batch)
    ensures Reaches(s, Woken(s.(now := s.now + d), batch)) && Inv(Woken(s.(now := s.now + d), batch))
  {
    var s1 := s.(now := s.now + d);
    ReachesOne(s, Tick(d));
    ReachedInv(s, s1);
    ReachesWoken(s1, batch);
    ReachesOver(s, s1, Woken(s1, batch));
  }

  lemma ViewFrame(s: Sys, t: Sys)
    requires t.deb == s.deb && t.cls == s.cls
    requires t.hist.commits == s.hist.commits && t.hist.sent == s.hist.sent && t.hist.entered == s.hist.entered
    ensures View(t) == View(s).(now := t.now)
  {
  }

  lemma WokenView(s: Sys, d: int, batch: seq<nat>)
    requires s.queue == [] && forall k :: k in batch ==> k in s.timers.live
    ensures var w := Woken(s.(now := s.now + d), batch);
            && View(w) == View(s).(now := s.now + d) && w.queue == Collected(s, batch)
            && w.manual == s.manual && w.stopped == s.stopped && w.pos == RunDrain
  {
    assert [] + Collected(s, batch) == Collected(s, batch);
    ViewFrame(s, Woken(s.(now := s.now + d), batch));
  }

  lemma ExpiriesRest(w: Sys, b: Button)
    requires Inv(w) && w.pos == RunDrain && !w.stopped && !w.manual
    requires OnlyExpiries(w.queue) && Expiries(View(w), w.queue) == b
    ensures Reaches(w, Drain(w).(pos := RunWait)) && Resting(Drain(w).(pos := RunWait), b)
  {
    DrainExpiries(w);
    ReachesRest(w, b);
  }

  /** A wait: time passes, the loop wakes, fires and drains. */
  lemma WaitRound(s: Sys, b: Button, d: int) returns (t: Sys)
    requires Resting(s, b) && d >= 0
    ensures Reaches(s, t) && Resting(t, Passed(b, d))
  {
    var batch := BatchExists(s, s.now + d);
    var w := Woken(s.(now := s.now + d), batch);
    WaitWakes(s, d, batch);
    WokenView(s, d, batch);
    OnlyTimers(s, batch);
    FiredMeansPassed(s, d, batch);
    ExpiriesRest(w, Passed(b, d));
    t := Drain(w).(pos := RunWait);
    ReachesOver(s, w, t);
  }

  lemma NothingDue(s: Sys)
    requires Still(s)
    requires View(s).lockedUntil.Some? ==> View(s).lockedUntil.value > s.now
    requires View(s).phase.Down? || View(s).phase.Between? ==> View(s).phase.deadline > s.now
    ensures T.IsBatch(s.timers, s.now, [])
  {
    Armament(s);
    Owned(s);
    assert T.DueBy(s.timers, s.now) == {};
  }

  /** Nothing is overdue for the button. */
  predicate InTime(b: Button) {
    && (b.lockedUntil.Some? ==> b.lockedUntil.value > b.now)
    && (b.phase.Down? || b.phase.Between? ==> b.phase.deadline > b.now)
  }

  /** A raw transition has woken the loop, and `d` later it is about to be dispatched. */
  function AboutTo(s: Sys, x: bool, d: int): Sys {
    s.(now := s.now + d, queue := [RawTransition(x)], pos := RunDrain, hist := s.hist.(fired := s.now))
  }

  lemma WokenByNothing(s: Sys)
    requires T.IsBatch(s.timers, s.now, [])
    ensures Woken(s, []) == s.(pos := RunDrain, hist := s.hist.(fired := s.now))
  {
    assert s.queue + Collected(s, []) == s.queue;
    assert T.DueBy(s.timers, s.now) == {} by {
      assert forall k :: k in T.DueBy(s.timers, s.now) ==> k in [];
    }
    assert T.AfterFire(s.timers, s.now).live == s.timers.live;
  }

  lemma ReachesDrainOf(s: Sys, x: bool)
    requires Inv(s) && s.pos == RunWait && !s.stopped && s.queue == [] && T.IsBatch(s.timers, s.now, [])
    ensures Reaches(s, AboutTo(s, x, 0)) && Inv(AboutTo(s, x, 0))
  {
    var s1 := s.(queue := [RawTransition(x)]);
    assert s.queue + [RawTransition(x)] == s1.queue;
    ReachesOne(s, ExternalPost(x));
    ReachedInv(s, s1);
    ReachesWoken(s1, []);
    WokenByNothing(s1);
    ReachesOver(s, s1, AboutTo(s, x, 0));
  }

  lemma AboutToView(s: Sys, x: bool, d: int)
    ensures View(AboutTo(s, x, d)) == View(s).(now := s.now + d)
  {
    ViewFrame(s, AboutTo(s, x, d));
  }

  lemma ReachesAboutTo(s: Sys, b: Button, x: bool, d: int)
    requires Resting(s, b) && InTime(b) && d >= 0
    ensures Reaches(s, AboutTo(s, x, d)) && Inv(AboutTo(s, x, d))
    ensures View(AboutTo(s, x, d)) == b.(now := s.now + d)
  {
    NothingDue(s);
    ReachesDrainOf(s, x);
    ReachesOne(AboutTo(s, x, 0), Tick(d));
    ReachesOver(s, AboutTo(s, x, 0), AboutTo(s, x, d));
    ReachedInv(s, AboutTo(s, x, d));
    AboutToView(s, x, d);
  }

  lemma ReadingsOne(b: Button, x: bool)
    ensures Raws([x]) == [RawTransition(x)] && Readings(b, [x]) == Reading(b, x)
  {
    assert [x][1..] == [];
  }

  /** A raw transition, dispatched at once. */
  lemma ReadRound(s: Sys, b: Button, x: bool) returns (t: Sys)
    requires Resting(s, b) && InTime(b)
    ensures Reaches(s, t) && Resting(t, Reading(b, x))
  {
    ReachesAboutTo(s, b, x, 0);
    var a := AboutTo(s, x, 0);
    ReadingsOne(b, x);
    DrainReadings(a, [x]);
    ReachesRest(a, Reading(b, x));
    t := Drain(a).(pos := RunWait);
    ReachesOver(s, a, t);
  }
}
