/** Where more than the theorems say would be false: advancing the manual clock during a drain sends a
    stale gesture, so the rule that it is advanced only between calls of `run_one` cannot be dropped;
    and under a steady clock a double click can come late. */
module PipelineCounterexamples {
  import opened Options
  import opened PipelineModel
  import opened PipelineInvariant
  import opened PipelineDraining
  import opened PipelineStale
  import opened PipelineReference
  import opened PipelineTheorems
  import opened PipelineSteady
  import opened PipelineHazard
  import opened PipelineRounds
  import opened PipelineWindow
  import opened PipelineDispatch
  import T = TimerSpec

  /** After the advance, `k` dispatches lead to a LongPress that the classifier sends although it has left
      Pressed for AwaitingSecondClick, and stays there. */
  ghost predicate SendsStale(s: Sys, delta: int, batch: seq<nat>, k: nat) {
    && T.IsBatch(s.timers, s.now + delta, batch)
    && FoundBeyond(AdvanceMidDrain(s, delta, batch), k)
    && var t := After(AdvanceMidDrain(s, delta, batch), Dispatches(k));
    && t.queue[0] == LongPressExpired && t.cls.state == AwaitingSecondClick && SendsLongPress(t)
  }

  predicate SendsLongPress(s: Sys) {
    && s.queue != [] && Dispatch(s).cls == s.cls
    && |Dispatch(s).hist.sent| == |s.hist.sent| + 1 && Dispatch(s).hist.sent[|s.hist.sent|].gesture == LongPress
  }

  /** So it goes whenever a change is queued in Pressed and the long-press timer falls due. */
  lemma StaleLongPress(s: Sys, delta: int, batch: seq<nat>) returns (k: nat)
    requires Inv(s) && Draining(s.pos) && !s.stopped && delta >= 0 && T.IsBatch(s.timers, s.now + delta, batch)
    requires s.cls.state == Pressed && Notes(s.queue) != [] && GestureDue(s, s.now + delta)
    ensures SendsStale(s, delta, batch, k)
  {
    var t := AdvanceMidDrain(s, delta, batch);
    assert OwnedTimer(s, s.cls.timer.value, s.timers.live[s.cls.timer.value]);
    StaleIsFound(s, delta, batch);
    k :| FoundBeyond(t, k) && After(t, Dispatches(k)).queue[0] == s.timers.live[s.cls.timer.value].envelope;
    BeyondSends(After(t, Dispatches(k)));
  }

  /** The manual clock, advanced during a drain of a reachable state, makes the classifier send a
      LongPress after it has left Pressed. */
  lemma MidDrainAdvanceIsUnsafe(now: int, capacity: nat)
    requires capacity >= 1
    ensures exists r: Run, batch: seq<nat>, k: nat ::
      Legal(r) && r.manual && Final(r).pos == OneDrain && SendsStale(Final(r), 2, batch, k)
  {
    var r, batch := ReleaseExists(now, capacity);
    assert Final(r).cls.timer.value in batch;
    NoNotes(Final(r).queue);
    var k := StaleLongPress(Final(r), 2, batch);
  }

  /** The window has closed, the loop is draining, and the second press it is about to dispatch is still
      taken for a double click. */
  ghost predicate TakesLatePress(s: Sys) {
    && Inv(s) && s.pos == RunDrain && s.queue == [RawTransition(true)]
    && View(s).phase.Between? && View(s).phase.deadline < s.now
    && View(Drain(s)).phase == DownAgain
  }

  lemma LateReading(now: int, deadline: int)
    ensures Readings(Button(now, false, None, Between(deadline), []), [true]).phase == DownAgain
  {
    ReadingsOne(Button(now, false, None, Between(deadline), []), true);
  }

  lemma LatePhase(s: Sys, deadline: int)
    requires Inv(s) && s.pos == RunDrain && !s.stopped && s.queue == [RawTransition(true)]
    requires View(s) == Button(s.now, false, None, Between(deadline), [])
    ensures View(Drain(s)).phase == DownAgain
  {
    var b := Button(s.now, false, None, Between(deadline), []);
    ReadingsOne(b, true);
    LateReading(s.now, deadline);
    DrainReadings(s, [true]);
    assert View(Drain(s)) == Readings(b, [true]);
  }

  lemma LatePressTaken(s: Sys, deadline: int)
    requires Inv(s) && s.pos == RunDrain && !s.stopped && s.queue == [RawTransition(true)] && deadline < s.now
    requires View(s) == Button(s.now, false, None, Between(deadline), [])
    ensures TakesLatePress(s)
  {
    LatePhase(s, deadline);
  }

  lemma RunExists(now: int, capacity: nat, s: Sys) returns (r: Run)
    requires capacity >= 1 && Reaches(Start(now, false, capacity), s)
    ensures Legal(r) && !r.manual && Final(r) == s
  {
    var run :| Allowed(Start(now, false, capacity), run) && After(Start(now, false, capacity), run) == s;
    r := Run(now, false, capacity, run);
  }

  /** Under a steady clock a second press counts however long after the window it is dispatched, if the
      drain in between takes that long. `PipelineWindow.SecondPress` has the bound that does hold. */
  lemma LateDoubleClick(now: int, capacity: nat, late: int)
    requires capacity >= 1 && late > 0
    ensures exists r: Run ::
      Legal(r) && !r.manual && TakesLatePress(Final(r)) && View(Final(r)).phase.deadline + late == Final(r).now
  {
    var s := WindowOpens(now, capacity);
    var a := AboutTo(s, true, 295 + late);
    ReachesAboutTo(s, Button(now + 10, false, None, Between(now + 305), []), true, 295 + late);
    ReachesOver(Start(now, false, capacity), s, a);
    LatePressTaken(a, now + 305);
    var r := RunExists(now, capacity, a);
  }

  lemma PressAccepted(s: Sys, deadline: int)
    requires Resources(s) && Mirrors(s) && s.queue == [RawTransition(true)]
    requires View(s) == Button(s.now, false, None, Between(deadline), [])
    ensures Accepts(s, s.queue[0])
  {
  }

  lemma WindowShown(s: Sys, deadline: int)
    requires Timing(s) && View(s).phase == Between(deadline)
    ensures s.cls.state == AwaitingSecondClick && WindowEnd(s) == deadline
  {
  }

  /** The press is committed, and its change comes up with the window as the view shows it. */
  lemma PressCommitted(s: Sys, deadline: int)
    requires Inv(s) && s.pos == RunDrain && !s.stopped && s.queue == [RawTransition(true)]
    requires View(s) == Button(s.now, false, None, Between(deadline), [])
    ensures SecondPressComes(Dispatch(s)) && WindowEnd(Dispatch(s)) == deadline
    ensures Dispatch(s).now == s.now && Dispatch(s).hist.fired == s.hist.fired
  {
    PressAccepted(s, deadline);
    WindowShown(s, deadline);
    CommitEffect(s);
  }

  /** The last moment of the open window. */
  lemma WindowCloses(now: int, capacity: nat) returns (s: Sys)
    requires capacity >= 1
    ensures Reaches(Start(now, false, capacity), s)
    ensures Resting(s, Button(now + 304, false, None, Between(now + 305), []))
  {
    var t := WindowOpens(now, capacity);
    OneTick(t, Button(now + 10, false, None, Between(now + 305), []), 294);
    s := Later(t, 294);
    ReachesOver(Start(now, false, capacity), t, s);
  }

  /** There the timers are fired, with nothing due. */
  lemma FiredBeforeClose(now: int, capacity: nat, delay: int) returns (a: Sys)
    requires capacity >= 1 && delay >= 0
    ensures Reaches(Start(now, false, capacity), a) && Inv(a)
    ensures a.pos == RunDrain && !a.stopped && a.queue == [RawTransition(true)]
    ensures View(a) == Button(a.now, false, None, Between(now + 305), [])
    ensures a.hist.fired == now + 304 && a.now == now + 304 + delay
  {
    var s := WindowCloses(now, capacity);
    ReachesAboutTo(s, Button(now + 304, false, None, Between(now + 305), []), true, delay);
    a := AboutTo(s, true, delay);
    ReachesOver(Start(now, false, capacity), s, a);
  }

  lemma ReachesDispatch(s: Sys, t: Sys)
    requires Reaches(s, t) && Draining(t.pos) && t.queue != []
    ensures Reaches(s, Dispatch(t))
  {
    ReachesOne(t, DispatchFront);
    ReachesOver(s, t, Dispatch(t));
  }

  /** The second press comes up `delay` after that firing. */
  lemma PressComes(now: int, capacity: nat, delay: int) returns (s: Sys)
    requires capacity >= 1 && delay >= 0
    ensures Reaches(Start(now, false, capacity), s) && SecondPressComes(s)
    ensures WindowEnd(s) == s.hist.fired + 1 && s.now == s.hist.fired + delay
  {
    var a := FiredBeforeClose(now, capacity, delay);
    PressCommitted(a, now + 305);
    ReachesDispatch(Start(now, false, capacity), a);
    s := Dispatch(a);
  }

  /** The bound of `PipelineWindow.SecondPress` is tight: for every time since the last firing there is a
      run whose second press comes that time less one after the end of the window. */
  lemma LatenessIsTight(now: int, capacity: nat, delay: int)
    requires capacity >= 1 && delay >= 0
    ensures exists r: Run ::
      && Legal(r) && !r.manual && SecondPressComes(Final(r)) && SinceFiring(0, r.actions) == delay
      && Final(r).now - WindowEnd(Final(r)) == delay - 1
  {
    var s := PressComes(now, capacity, delay);
    var r := RunExists(now, capacity, s);
    ClockSinceFiring(r);
  }
}
