/** The double-click window and the time since timers were last fired. A second press is taken for a
    double click whenever it is dispatched before the expiry; the expiry is queued only by firing. */
module PipelineWindow {
  import opened PipelineModel
  import opened PipelineInvariant
  import opened PipelineDispatch
  import opened PipelineTheorems

  // ---- Time since the last firing -------------------------------------------------------------

  /** How the time since the last firing grows: ticks add to it, firing resets it. */
  function Since(elapsed: int, a: Action): int {
    match a
    case Tick(d) => elapsed + d
    case Advance(_, _) => 0
    case FireDue(_) => 0
    case _ => elapsed
  }

  /** The ticks of a run after its last firing, or since the start. */
  function SinceFiring(elapsed: int, run: seq<Action>): int
    decreases |run|
  {
    if run == [] then elapsed else SinceFiring(Since(elapsed, run[0]), run[1..])
  }

  ghost predicate Elapsed(s: Sys, elapsed: int) {
    s.now == s.hist.fired + elapsed
  }

  /** A dispatch takes no time and fires nothing. */
  lemma DispatchTakesNoTime(s: Sys)
    requires Inv(s) && s.queue != [] && Draining(s.pos)
    ensures Dispatch(s).now == s.now && Dispatch(s).hist.fired == s.hist.fired
  {
    Front(s);
    match s.queue[0]
    case RawTransition(_) => if Accepts(s, s.queue[0]) { CommitEffect(s); } else { IgnoredEffect(s); }
    case DebounceExpired => SettleEffect(s);
    case Send(_) => ShowEffect(s);
    case _ =>
      SendingEffect(s);
      var d := ClassifierHandle(s.cls.state, s.queue[0]);
      if d.Transition? { MoveEffect(s, d.next); }
  }

  lemma ElapsedStep(s: Sys, a: Action, elapsed: int)
    requires Inv(s) && Enabled(s, a) && Elapsed(s, elapsed)
    ensures Elapsed(Apply(s, a), Since(elapsed, a))
  {
    if a.DispatchFront? {
      DispatchTakesNoTime(s);
    }
  }

  lemma {:induction false} ElapsedRun(s: Sys, run: seq<Action>, elapsed: int)
    requires Inv(s) && Allowed(s, run) && Elapsed(s, elapsed)
    ensures Elapsed(After(s, run), SinceFiring(elapsed, run))
    decreases |run|
  {
    if run != [] {
      ElapsedStep(s, run[0], elapsed);
      ActionInv(s, run[0]);
      ElapsedRun(Apply(s, run[0]), run[1..], Since(elapsed, run[0]));
    }
  }

  /** In every run the clock shows the time of the last firing plus the ticks since. */
  lemma ClockSinceFiring(r: Run)
    requires Legal(r)
    ensures Final(r).now == Final(r).hist.fired + SinceFiring(0, r.actions)
  {
    StartInv(r.now, r.manual, r.capacity);
    StartEffect(r.now, r.manual, r.capacity);
    ElapsedRun(Start(r.now, r.manual, r.capacity), r.actions, 0);
  }

  lemma {:induction false} ManualHasNoTicks(s: Sys, run: seq<Action>)
    requires Inv(s) && s.manual && Allowed(s, run)
    ensures SinceFiring(0, run) == 0
    decreases |run|
  {
    if run != [] {
      ActionInv(s, run[0]);
      ManualHasNoTicks(Apply(s, run[0]), run[1..]);
    }
  }

  // ---- The second press -----------------------------------------------------------------------

  /** A press is about to be dispatched in AwaitingSecondClick. */
  ghost predicate SecondPressComes(s: Sys) {
    && Draining(s.pos) && s.queue != [] && s.queue[0].KeyChanged? && s.queue[0].note.after == Bit(true)
    && s.cls.state == AwaitingSecondClick
  }

  function WindowEnd(s: Sys): int {
    s.hist.awaited + DOUBLE_CLICK_WINDOW
  }

  lemma SecondPressEffect(s: Sys)
    requires Inv(s) && SecondPressComes(s)
    ensures Dispatch(s).cls.state == SecondPressed
    ensures Dispatch(s).hist.entered == s.now && Dispatch(s).hist.awaited == s.hist.awaited
    ensures Dispatch(s).hist.asOf == s.hist.fired
  {
    Front(s);
    MoveEffect(s, SecondPressed);
  }

  lemma WindowOpenAtFiring(s: Sys)
    requires Inv(s) && SecondPressComes(s)
    ensures s.hist.fired < WindowEnd(s)
  {
    Front(s);
    var k := s.cls.timer.value;
    assert OwnedTimer(s, k, s.timers.live[k]);
  }

  /** For every run, whatever else is queued: a second press is taken, however late it is dispatched. The
      window was open when timers were last fired, so it is late by less than the time since, and
      `PipelineCounterexamples.LatenessIsTight` shows that no better can be said. It is dispatched within the window exactly if the ticks since the last firing are fewer than what was
      then left of the window; under the manual clock there are none. */
  lemma SecondPress(r: Run)
    requires Legal(r) && SecondPressComes(Final(r))
    ensures Dispatch(Final(r)).cls.state == SecondPressed && Dispatch(Final(r)).hist.entered == Final(r).now
    ensures Final(r).hist.fired < WindowEnd(Final(r))
    ensures Final(r).now - WindowEnd(Final(r)) < SinceFiring(0, r.actions)
    ensures Final(r).now < WindowEnd(Final(r))
       <==> SinceFiring(0, r.actions) < WindowEnd(Final(r)) - Final(r).hist.fired
    ensures r.manual ==> SinceFiring(0, r.actions) == 0 && Final(r).now < WindowEnd(Final(r))
  {
    Reached(r);
    ClockSinceFiring(r);
    SecondPressEffect(Final(r));
    WindowOpenAtFiring(Final(r));
    if r.manual {
      StartInv(r.now, r.manual, r.capacity);
      ManualHasNoTicks(Start(r.now, r.manual, r.capacity), r.actions);
    }
  }
}
