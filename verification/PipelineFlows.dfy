/** The three modules of the pipeline run flows: handling an envelope does, event by event and in that
    order, what the flow machine logs for the directive of the state's handler. Entering a state takes
    the resources of its locals, leaving it gives them back. */
module PipelineFlows {
  import opened Options
  import opened FlowSpec
  import opened PipelineModel
  import opened PipelineInvariant
  import C = CacheSpec
  import M = FlowMachine
  import T = TimerSpec

  /** What an active flow logs for `e` when the handler of `state` answers `d`. */
  function Logged<S>(state: S, initial: S, e: Envelope, d: Directive<S>): seq<M.Event<S, Envelope>> {
    M.Step(M.Machine(state, true, false, [d], [], []), initial, M.Message(e)).trace
  }

  lemma LoggedIs<S>(state: S, initial: S, e: Envelope, d: Directive<S>)
    requires d.Stay? || d.Transition?
    ensures Logged(state, initial, e, d)
         == [M.Handle(state, M.Message(e))] + if d.Transition? then [M.Destruct(state), M.Construct(d.next)] else []
  {
  }

  lemma {:induction false} PostNotesFrame(s: Sys, notes: seq<Note>)
    ensures var s' := PostNotes(s, notes); s'.deb == s.deb && s'.cls == s.cls && s'.ui == s.ui && s'.timers == s.timers
    decreases |notes|
  {
    if notes != [] {
      PostNotesFrame(Post(s, KeyChanged(notes[0])), notes[1..]);
    }
  }

  // ---- Debouncer ------------------------------------------------------------------------------

  /** `Settled` has no locals, those of `CoolingDown` hold a timer. */
  function DebouncerEffect(s: Sys, e: Envelope, event: M.Event<DebState, Envelope>): Sys {
    match event
    case Handle(_, _) => DebouncerHandle(s, e).0
    case Destruct(state) => if state == CoolingDown then CancelTimer(s, s.deb.timer) else s
    case Construct(state) =>
      if state == CoolingDown
      then s.(deb := DebouncerFlow(CoolingDown, Some(s.timers.next)),
              timers := T.Arm(s.timers, s.now, DEBOUNCE_WINDOW, DebounceExpired))
      else s.(deb := DebouncerFlow(Settled, None))
    case Callback => s
  }

  function DebouncerReplay(s: Sys, e: Envelope, events: seq<M.Event<DebState, Envelope>>): Sys
    decreases |events|
  {
    if events == [] then s else DebouncerReplay(DebouncerEffect(s, e, events[0]), e, events[1..])
  }

  lemma DebouncerReplayOne(s: Sys, e: Envelope, a: M.Event<DebState, Envelope>)
    ensures DebouncerReplay(s, e, [a]) == DebouncerEffect(s, e, a)
  {
  }

  lemma DebouncerReplayThree(s: Sys, e: Envelope, a: M.Event<DebState, Envelope>, b: M.Event<DebState, Envelope>,
    c: M.Event<DebState, Envelope>)
    ensures DebouncerReplay(s, e, [a, b, c])
         == DebouncerEffect(DebouncerEffect(DebouncerEffect(s, e, a), e, b), e, c)
  {
    assert [a, b, c][1..] == [b, c] && [b, c][1..] == [c];
    DebouncerReplayOne(DebouncerEffect(DebouncerEffect(s, e, a), e, b), e, c);
  }

  lemma DebouncerFrame(s: Sys, e: Envelope)
    ensures DebouncerHandle(s, e).0.deb == s.deb
  {
    if e.RawTransition? {
      var k, v := ButtonKey, Bit(e.pressed);
      PostNotesFrame(s.(cache := C.Set(s.cache, k, v)), C.SetNotes(s.cache, k, v));
    }
  }

  lemma DebouncerIsFlow(s: Sys, e: Envelope)
    requires Resources(s)
    ensures DebouncerStep(s, e) == DebouncerReplay(s, e, Logged(s.deb.state, Settled, e, DebouncerHandle(s, e).1))
  {
    var d := DebouncerHandle(s, e).1;
    LoggedIs(s.deb.state, Settled, e, d);
    DebouncerFrame(s, e);
    if d.Transition? {
      var h := M.Handle(s.deb.state, M.Message(e));
      DebouncerReplayThree(s, e, h, M.Destruct(s.deb.state), M.Construct(d.next));
      assert [h] + [M.Destruct(s.deb.state), M.Construct(d.next)] == [h, M.Destruct(s.deb.state), M.Construct(d.next)];
    } else {
      DebouncerReplayOne(s, e, M.Handle(s.deb.state, M.Message(e)));
    }
  }

  // ---- ClickClassifier ------------------------------------------------------------------------

  predicate Timed(state: ClsState) {
    state == Pressed || state == AwaitingSecondClick
  }

  /** The locals of every state hold a subscription, those of two of them a timer besides. Members are
      constructed in the order of their declaration and destructed in the reverse one. */
  function ClassifierEffect(s: Sys, event: M.Event<ClsState, Envelope>): Sys {
    match event
    case Handle(_, _) => s
    case Destruct(state) =>
      var s1 := if Timed(state) && s.cls.timer.Some? then s.(timers := T.Cancel(s.timers, s.cls.timer.value)) else s;
      s1.(cache := if s.cls.sub.Some? then C.Release(s.cache, s.cls.sub.value) else s.cache,
          cls := ClassifierFlow(state, None, None))
    case Construct(state) =>
      var s1 := SubscribeClassifier(s.(cls := ClassifierFlow(state, None, None), hist := Entering(s, state)));
      if state == Pressed then ArmClassifier(s1, LONG_PRESS_THRESHOLD, LongPressExpired)
      else if state == AwaitingSecondClick then ArmClassifier(s1, DOUBLE_CLICK_WINDOW, DoubleClickExpired)
      else s1
    case Callback => s
  }

  function Entering(s: Sys, state: ClsState): History {
    s.hist.(entered := s.now, awaited := if state == AwaitingSecondClick then s.now else s.hist.awaited, asOf := s.hist.fired)
  }

  function ClassifierReplay(s: Sys, events: seq<M.Event<ClsState, Envelope>>): Sys
    decreases |events|
  {
    if events == [] then s else ClassifierReplay(ClassifierEffect(s, events[0]), events[1..])
  }

  lemma ClassifierReplayThree(s: Sys, a: M.Event<ClsState, Envelope>, b: M.Event<ClsState, Envelope>, c: M.Event<ClsState, Envelope>)
    ensures ClassifierReplay(s, [a, b, c]) == ClassifierEffect(ClassifierEffect(ClassifierEffect(s, a), b), c)
  {
    assert [a, b, c][1..] == [b, c] && [b, c][1..] == [c];
    ClassifierReplayOne(ClassifierEffect(ClassifierEffect(s, a), b), c);
  }

  lemma ClassifierReplayOne(s: Sys, a: M.Event<ClsState, Envelope>)
    ensures ClassifierReplay(s, [a]) == ClassifierEffect(s, a)
  {
  }

  /** The part of `ClickClassifier::handle` before the flow steps: a change is seen, a gesture sent. */
  function Before(s: Sys, e: Envelope): Sys {
    ClassifierSends(if ButtonChange(e) then s.(hist := s.hist.(seen := Some(e.note.after))) else s, e)
  }

  lemma BeforeFrame(s: Sys, e: Envelope)
    ensures Before(s, e).cls == s.cls
  {
  }

  lemma ExitIsDestruct(s: Sys, state: ClsState)
    requires state == s.cls.state && (s.cls.timer.Some? ==> Timed(state))
    ensures ClassifierExit(s) == ClassifierEffect(s, M.Destruct(state))
  {
  }

  lemma EnterIsConstruct(s: Sys, state: ClsState)
    ensures ClassifierEnter(s, state) == ClassifierEffect(s, M.Construct(state))
  {
  }

  lemma ClassifierStepIs(s: Sys, e: Envelope)
    ensures ClassifierStep(s, e)
         == (var d := ClassifierHandle(s.cls.state, e);
             if d.Transition? then ClassifierEnter(ClassifierExit(Before(s, e)), d.next) else Before(s, e))
  {
    BeforeFrame(s, e);
  }

  lemma ClassifierIsFlow(s: Sys, e: Envelope)
    requires Resources(s)
    ensures ClassifierStep(s, e)
         == ClassifierReplay(Before(s, e), Logged(s.cls.state, Idle, e, ClassifierHandle(s.cls.state, e)))
  {
    var d := ClassifierHandle(s.cls.state, e);
    var h := M.Handle(s.cls.state, M.Message(e));
    ClassifierStepIs(s, e);
    LoggedIs(s.cls.state, Idle, e, d);
    if d.Transition? {
      BeforeFrame(s, e);
      ExitIsDestruct(Before(s, e), s.cls.state);
      EnterIsConstruct(ClassifierExit(Before(s, e)), d.next);
      ClassifierReplayThree(Before(s, e), h, M.Destruct(s.cls.state), M.Construct(d.next));
      assert [h] + [M.Destruct(s.cls.state), M.Construct(d.next)] == [h, M.Destruct(s.cls.state), M.Construct(d.next)];
    } else {
      ClassifierReplayOne(Before(s, e), h);
    }
  }

  // ---- UiController ---------------------------------------------------------------------------

  /** Entering a state publishes its mode. */
  function UiEffect(s: Sys, e: Envelope, event: M.Event<UiMode, Envelope>): Sys {
    match event
    case Handle(_, _) => if e.Send? then s.(hist := s.hist.(handled := s.hist.handled + [e.gesture])) else s
    case Destruct(_) => s
    case Construct(state) => SetKey(s.(ui := state), UiModeKey, Mode(state))
    case Callback => s
  }

  function UiReplay(s: Sys, e: Envelope, events: seq<M.Event<UiMode, Envelope>>): Sys
    decreases |events|
  {
    if events == [] then s else UiReplay(UiEffect(s, e, events[0]), e, events[1..])
  }

  lemma UiReplayThree(s: Sys, e: Envelope, a: M.Event<UiMode, Envelope>, b: M.Event<UiMode, Envelope>, c: M.Event<UiMode, Envelope>)
    ensures UiReplay(s, e, [a, b, c]) == UiEffect(UiEffect(UiEffect(s, e, a), e, b), e, c)
  {
    assert [a, b, c][1..] == [b, c] && [b, c][1..] == [c];
    UiReplayOne(UiEffect(UiEffect(s, e, a), e, b), e, c);
  }

  lemma UiReplayOne(s: Sys, e: Envelope, a: M.Event<UiMode, Envelope>)
    ensures UiReplay(s, e, [a]) == UiEffect(s, e, a)
  {
  }

  lemma UiIsFlow(s: Sys, e: Envelope)
    ensures UiStep(s, e) == UiReplay(s, e, Logged(s.ui, UiIdle, e, UiHandle(s.ui, e)))
  {
    var d := UiHandle(s.ui, e);
    var h := M.Handle(s.ui, M.Message(e));
    var next := if d.Transition? then d.next else s.ui;
    LoggedIs(s.ui, UiIdle, e, d);
    UiReplayOne(s, e, h);
    UiReplayThree(s, e, h, M.Destruct(s.ui), M.Construct(next));
    assert [h] + [M.Destruct(s.ui), M.Construct(next)] == [h, M.Destruct(s.ui), M.Construct(next)];
    assert [h] + [] == [h];
  }
}
