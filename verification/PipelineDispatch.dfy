/** Every dispatch keeps the invariant, one lemma family per kind of envelope. */
module PipelineDispatch {
  import opened Options
  import opened PipelineModel
  import opened PipelineInvariant
  import C = CacheSpec
  import T = TimerSpec

  function Pop(s: Sys): Sys
    requires s.queue != []
  {
    s.(queue := s.queue[1..])
  }

  lemma {:induction false} CountAbsent(q: seq<Envelope>, e: Envelope)
    requires forall i :: 0 <= i < |q| ==> q[i] != e
    ensures Count(q, e) == 0
  {
    if q != [] {
      CountAbsent(q[1..], e);
    }
  }

  /** What the invariant says of the envelope at the front. */
  ghost predicate FrontOk(s: Sys)
    requires s.queue != []
  {
    var e := s.queue[0];
    && (e.DebounceExpired? ==> s.deb.state == CoolingDown && !IsArmed(s, s.deb.timer))
    && (e.LongPressExpired? ==> s.cls.state == Pressed && !IsArmed(s, s.cls.timer))
    && (e.DoubleClickExpired? ==> s.cls.state == AwaitingSecondClick && !IsArmed(s, s.cls.timer))
    && (e.KeyChanged? ==>
          && ButtonChange(e) && e.note.to == ClickClassifier
          && (e.note.after == Bit(true) || e.note.after == Bit(false))
          && (e.note.after == Bit(true) ==> s.cls.state == Idle || s.cls.state == AwaitingSecondClick)
          && (e.note.after == Bit(false) ==> s.cls.state != AwaitingSecondClick)
          && (s.cls.state == AwaitingSecondClick ==> IsArmed(s, s.cls.timer)))
  }

  lemma FrontCounts(s: Sys)
    requires s.queue != [] && TimerCounts(s)
    ensures s.queue[0].DebounceExpired? ==> s.deb.state == CoolingDown && !IsArmed(s, s.deb.timer)
    ensures s.queue[0].LongPressExpired? ==> s.cls.state == Pressed && !IsArmed(s, s.cls.timer)
    ensures s.queue[0].DoubleClickExpired? ==> s.cls.state == AwaitingSecondClick && !IsArmed(s, s.cls.timer)
  {
    assert Pending(s, s.queue[0]) >= 1;
  }

  /** Behind a `KeyChanged` no timer envelope is left. */
  lemma NothingBehind(s: Sys, e: Envelope)
    requires s.queue != [] && QueueShape(s) && Draining(s.pos) && s.queue[0].KeyChanged? && IsTimer(e)
    ensures Pending(s, e) == 0
  {
    assert forall j :: 0 < j < |s.queue| ==> !IsTimer(s.queue[j]);
    CountAbsent(s.queue, e);
  }

  lemma Front(s: Sys)
    requires s.queue != [] && TimerCounts(s) && QueueShape(s) && InSync(s) && Mirrors(s) && Draining(s.pos)
    ensures FrontOk(s)
  {
    FrontCounts(s);
    if s.queue[0].KeyChanged? {
      NothingBehind(s, DoubleClickExpired);
      assert Notes(s.queue)[0] == s.queue[0].note;
    }
  }

  // ---- An envelope without effect -------------------------------------------------------------

  /** Being in sync depends on the queue through its changes only. */
  lemma SyncUnchanged(s: Sys, t: Sys)
    requires InSync(s) && Notes(t.queue) == Notes(s.queue) && C.Get(t.cache, ButtonKey) == C.Get(s.cache, ButtonKey)
    requires t.cls.state == s.cls.state && t.hist.seen == s.hist.seen && t.hist.sent == s.hist.sent && t.stopped == s.stopped
    requires Notes(s.queue) != [] ==> IsArmed(t, t.deb.timer)
    ensures InSync(t)
  {
  }

  lemma PopViews(q: seq<Envelope>)
    requires q != [] && !q[0].Send?
    ensures Notes(q[1..]) == if q[0].KeyChanged? then Notes(q)[1..] else Notes(q)
    ensures Gestures(q[1..]) == Gestures(q)
  {
  }

  lemma PopShape(s: Sys)
    requires s.queue != [] && !s.queue[0].KeyChanged? && !s.queue[0].Send? && QueueShape(s)
    ensures QueueShape(Pop(s))
  {
    PopViews(s.queue);
  }

  lemma PopRawCounts(s: Sys)
    requires s.queue != [] && s.queue[0].RawTransition? && TimerCounts(s)
    ensures TimerCounts(Pop(s))
  {
    PopViews(s.queue);
    assert Pending(Pop(s), DebounceExpired) == Pending(s, DebounceExpired);
    assert Pending(Pop(s), LongPressExpired) == Pending(s, LongPressExpired);
    assert Pending(Pop(s), DoubleClickExpired) == Pending(s, DoubleClickExpired);
  }

  /** Dropping the front is harmless for a raw transition. */
  lemma PopRaw(s: Sys)
    requires s.queue != [] && s.queue[0].RawTransition?
    requires TimerCounts(s) && QueueShape(s) && InSync(s) && Conserved(s)
    ensures TimerCounts(Pop(s)) && QueueShape(Pop(s))
    ensures InSync(Pop(s)) && Conserved(Pop(s))
  {
    PopViews(s.queue);
    PopRawCounts(s);
    PopShape(s);
    SyncUnchanged(s, Pop(s));
  }

  // ---- Commit ---------------------------------------------------------------------------------

  /** Settled accepts the edge `b`. */
  function CommitEdge(s: Sys, b: bool): Sys
    requires s.queue != []
  {
    var note := C.Note(ClickClassifier, ButtonKey, C.Get(s.cache, ButtonKey), Bit(b));
    s.(queue := if s.stopped then s.queue[1..] else s.queue[1..] + [KeyChanged(note)],
       cache := C.Set(s.cache, ButtonKey, Bit(b)),
       timers := T.Arm(s.timers, s.now, DEBOUNCE_WINDOW, DebounceExpired),
       deb := DebouncerFlow(CoolingDown, Some(s.timers.next)),
       hist := s.hist.(commits := s.hist.commits + [Commit(b, s.now)]))
  }

  predicate Accepts(s: Sys, e: Envelope) {
    s.deb.state == Settled && e.RawTransition? && Bit(e.pressed) != C.Get(s.cache, ButtonKey).GetOr(Bit(false))
  }

  lemma CommitEffect(s: Sys)
    requires s.queue != [] && Resources(s) && Accepts(s, s.queue[0])
    ensures Dispatch(s) == CommitEdge(s, s.queue[0].pressed)
  {
    CommitButton(Pop(s), Bit(s.queue[0].pressed));
  }

  lemma CommitResources(s: Sys, b: bool)
    requires s.queue != [] && Resources(s) && s.deb.state == Settled
    ensures Resources(CommitEdge(s, b))
  {
    var s' := CommitEdge(s, b);
    forall k | k in s'.timers.live ensures OwnedTimer(s', k, s'.timers.live[k]) {
      if k != s.timers.next {
        assert OwnedTimer(s, k, s.timers.live[k]);
      }
    }
  }

  lemma CommitCounts(s: Sys, b: bool)
    requires s.queue != [] && s.queue[0].RawTransition? && s.deb.state == Settled && Notes(s.queue) == []
    requires Resources(s) && TimerCounts(s)
    ensures TimerCounts(CommitEdge(s, b))
  {
    var s' := CommitEdge(s, b);
    if !s.stopped {
      var e := s'.queue[|s'.queue| - 1];
      CountAppend(s.queue[1..], e, DebounceExpired);
      CountAppend(s.queue[1..], e, LongPressExpired);
      CountAppend(s.queue[1..], e, DoubleClickExpired);
    }
    assert Pending(s', DebounceExpired) == Pending(s, DebounceExpired);
    assert Pending(s', LongPressExpired) == Pending(s, LongPressExpired);
    assert Pending(s', DoubleClickExpired) == Pending(s, DoubleClickExpired);
    assert IsArmed(s', s'.cls.timer) == IsArmed(s, s.cls.timer);
  }

  /** In Settled no `KeyChanged` is queued. */
  lemma SettledMeansNoNote(s: Sys)
    requires Resources(s) && InSync(s) && s.deb.state == Settled
    ensures Notes(s.queue) == []
  {
  }

  lemma CommitViews(s: Sys, b: bool)
    requires s.queue != [] && s.queue[0].RawTransition? && Notes(s.queue) == []
    ensures Gestures(CommitEdge(s, b).queue) == Gestures(s.queue)
    ensures Notes(CommitEdge(s, b).queue)
         == if s.stopped then [] else [C.Note(ClickClassifier, ButtonKey, C.Get(s.cache, ButtonKey), Bit(b))]
  {
    if !s.stopped {
      ViewsAppend(s.queue[1..], KeyChanged(C.Note(ClickClassifier, ButtonKey, C.Get(s.cache, ButtonKey), Bit(b))));
    }
  }

  lemma CommitShape(s: Sys, b: bool)
    requires s.queue != [] && s.queue[0].RawTransition? && Notes(s.queue) == [] && QueueShape(s) && Draining(s.pos)
    ensures QueueShape(CommitEdge(s, b))
  {
    CommitViews(s, b);
    NoNotes(s.queue);
  }

  lemma CommitSync(s: Sys)
    requires s.queue != [] && Accepts(s, s.queue[0]) && Notes(s.queue) == [] && InSync(s) && Mirrors(s)
    ensures InSync(CommitEdge(s, s.queue[0].pressed))
  {
    var b := s.queue[0].pressed;
    var t := CommitEdge(s, b);
    CommitViews(s, b);
    assert C.Get(t.cache, ButtonKey) == Some(Bit(b)) && IsArmed(t, t.deb.timer);
    assert C.Get(s.cache, ButtonKey) != Some(Bit(b));
  }

  lemma CommitMirrors(s: Sys, b: bool)
    requires s.queue != [] && Mirrors(s)
    ensures Mirrors(CommitEdge(s, b))
  {
  }

  lemma CommitTiming(s: Sys)
    requires s.queue != [] && Accepts(s, s.queue[0])
    requires Resources(s) && Mirrors(s) && Timing(s)
    ensures Timing(CommitEdge(s, s.queue[0].pressed))
  {
    var s' := CommitEdge(s, s.queue[0].pressed);
    assert IsArmed(s', s'.cls.timer) == IsArmed(s, s.cls.timer);
    assert CommitsAlternate(s'.hist.commits);
    assert CommitsSpaced(s'.hist.commits);
  }

  lemma CommitConserved(s: Sys, b: bool)
    requires s.queue != [] && s.queue[0].RawTransition? && Notes(s.queue) == [] && Conserved(s)
    ensures Conserved(CommitEdge(s, b))
  {
    CommitViews(s, b);
    var c := s.hist.commits;
    assert (c + [Commit(b, s.now)])[..|c|] == c;
  }

  lemma DispatchCommit(s: Sys)
    requires Inv(s) && s.queue != [] && Draining(s.pos) && Accepts(s, s.queue[0])
    ensures Inv(Dispatch(s)) && Dispatch(s).manual == s.manual
  {
    var b := s.queue[0].pressed;
    SettledMeansNoNote(s);
    CommitEffect(s);
    CommitResources(s, b);
    CommitCounts(s, b);
    CommitShape(s, b);
    CommitSync(s);
    CommitMirrors(s, b);
    CommitTiming(s);
    CommitConserved(s, b);
  }

  lemma IgnoredEffect(s: Sys)
    requires s.queue != [] && s.queue[0].RawTransition? && !Accepts(s, s.queue[0])
    ensures Dispatch(s) == Pop(s)
  {
  }

  lemma PopState(s: Sys)
    requires s.queue != [] && Resources(s) && Mirrors(s) && Timing(s)
    ensures Resources(Pop(s)) && Mirrors(Pop(s)) && Timing(Pop(s))
  {
    forall k | k in s.timers.live ensures OwnedTimer(Pop(s), k, s.timers.live[k]) {
      assert OwnedTimer(s, k, s.timers.live[k]);
    }
  }

  lemma DispatchIgnored(s: Sys)
    requires Inv(s) && s.queue != [] && s.queue[0].RawTransition? && !Accepts(s, s.queue[0])
    ensures Inv(Dispatch(s)) && Dispatch(s).manual == s.manual
  {
    IgnoredEffect(s);
    PopRaw(s);
    PopState(s);
  }

  // ---- Debounce expiry ------------------------------------------------------------------------

  function Settle(s: Sys): Sys
    requires s.queue != []
  {
    Pop(s).(deb := DebouncerFlow(Settled, None))
  }

  lemma SettleEffect(s: Sys)
    requires s.queue != [] && s.queue[0].DebounceExpired? && Resources(s)
    requires s.deb.state == CoolingDown && !IsArmed(s, s.deb.timer)
    ensures Dispatch(s) == Settle(s)
  {
    assert s.timers.live - {s.deb.timer.value} == s.timers.live;
  }

  lemma SettleState(s: Sys)
    requires s.queue != [] && Resources(s) && Mirrors(s) && Timing(s)
    requires s.deb.state == CoolingDown && !IsArmed(s, s.deb.timer)
    ensures Resources(Settle(s)) && Mirrors(Settle(s)) && Timing(Settle(s))
  {
    var s' := Settle(s);
    forall k | k in s'.timers.live ensures OwnedTimer(s', k, s'.timers.live[k]) {
      assert OwnedTimer(s, k, s.timers.live[k]);
    }
  }

  lemma SettleCounts(s: Sys)
    requires s.queue != [] && s.queue[0].DebounceExpired? && TimerCounts(s) && !IsArmed(s, s.deb.timer)
    ensures TimerCounts(Settle(s))
  {
    PopViews(s.queue);
    assert Pending(s, DebounceExpired) == 1 + Pending(Settle(s), DebounceExpired);
    assert Pending(s, LongPressExpired) == Pending(Settle(s), LongPressExpired);
    assert Pending(s, DoubleClickExpired) == Pending(Settle(s), DoubleClickExpired);
  }

  lemma SettleSync(s: Sys)
    requires s.queue != [] && s.queue[0].DebounceExpired? && InSync(s) && !IsArmed(s, s.deb.timer)
    ensures InSync(Settle(s))
  {
    PopViews(s.queue);
    SyncUnchanged(s, Settle(s));
  }

  lemma SettleQueue(s: Sys)
    requires s.queue != [] && s.queue[0].DebounceExpired?
    requires TimerCounts(s) && QueueShape(s) && InSync(s) && Conserved(s) && !IsArmed(s, s.deb.timer)
    ensures TimerCounts(Settle(s)) && QueueShape(Settle(s)) && InSync(Settle(s)) && Conserved(Settle(s))
  {
    PopViews(s.queue);
    SettleCounts(s);
    PopShape(s);
    SettleSync(s);
  }

  lemma DispatchDebounce(s: Sys)
    requires Inv(s) && s.queue != [] && s.queue[0].DebounceExpired?
    ensures Inv(Dispatch(s)) && Dispatch(s).manual == s.manual
  {
    FrontCounts(s);
    SettleEffect(s);
    SettleState(s);
    SettleQueue(s);
  }

  // ---- Gestures at the UiController -----------------------------------------------------------

  function Show(s: Sys, g: Gesture): Sys
    requires s.queue != []
  {
    var ui := UiAfterOne(s.ui, g);
    Pop(s).(ui := ui, cache := C.Set(s.cache, UiModeKey, Mode(ui)), hist := s.hist.(handled := s.hist.handled + [g]))
  }

  lemma ShowEffect(s: Sys)
    requires s.queue != [] && s.queue[0].Send? && Resources(s) && Mirrors(s)
    ensures Dispatch(s) == Show(s, s.queue[0].gesture)
  {
    var g := s.queue[0].gesture;
    var ui := UiAfterOne(s.ui, g);
    PublishMode(Pop(s).(hist := s.hist.(handled := s.hist.handled + [g]), ui := ui), ui);
    assert s.cache.values[UiModeKey := Mode(s.ui)] == s.cache.values;
  }

  lemma ShowState(s: Sys, g: Gesture)
    requires s.queue != [] && Resources(s) && Mirrors(s) && Timing(s)
    ensures Resources(Show(s, g)) && Mirrors(Show(s, g)) && Timing(Show(s, g))
  {
    var s' := Show(s, g);
    assert s'.hist.handled[..|s.hist.handled|] == s.hist.handled;
    forall k | k in s'.timers.live ensures OwnedTimer(s', k, s'.timers.live[k]) {
      assert OwnedTimer(s, k, s.timers.live[k]);
    }
  }

  lemma ShowViews(s: Sys)
    requires s.queue != [] && s.queue[0].Send?
    ensures Notes(Show(s, s.queue[0].gesture).queue) == Notes(s.queue)
    ensures [s.queue[0].gesture] + Gestures(Show(s, s.queue[0].gesture).queue) == Gestures(s.queue)
    ensures QueueShape(s) ==> TimersFirst(Show(s, s.queue[0].gesture).queue)
  {
  }

  lemma ShowQueue(s: Sys)
    requires s.queue != [] && s.queue[0].Send?
    requires TimerCounts(s) && QueueShape(s)
    ensures TimerCounts(Show(s, s.queue[0].gesture)) && QueueShape(Show(s, s.queue[0].gesture))
  {
    ShowViews(s);
  }

  lemma ShowSync(s: Sys)
    requires s.queue != [] && s.queue[0].Send? && InSync(s)
    ensures InSync(Show(s, s.queue[0].gesture))
  {
    ShowViews(s);
    SyncUnchanged(s, Show(s, s.queue[0].gesture));
  }

  lemma ShowConserved(s: Sys)
    requires s.queue != [] && s.queue[0].Send? && Conserved(s)
    ensures Conserved(Show(s, s.queue[0].gesture))
  {
    ShowViews(s);
  }

  lemma DispatchGesture(s: Sys)
    requires Inv(s) && s.queue != [] && s.queue[0].Send?
    ensures Inv(Dispatch(s)) && Dispatch(s).manual == s.manual
  {
    ShowEffect(s);
    ShowState(s, s.queue[0].gesture);
    ShowQueue(s);
    ShowSync(s);
    ShowConserved(s);
  }

  // ---- Classifier transitions -----------------------------------------------------------------

  function Emitted(s: Sys): Option<Gesture>
    requires s.queue != []
  {
    var e := s.queue[0];
    if e.DoubleClickExpired? then Some(Click)
    else if e.LongPressExpired? then Some(LongPress)
    else if ButtonChange(e) && s.cls.state == SecondPressed && e.note.after == Bit(false) then Some(DoubleClick)
    else None
  }

  function SentBy(s: Sys): seq<Sent>
    requires s.queue != []
  {
    match Emitted(s)
    case Some(g) => [Sent(g, s.now, s.hist.entered, s.hist.awaited, s.hist.asOf)]
    case None => []
  }

  function SeenAfter(s: Sys): Option<Value>
    requires s.queue != []
  {
    if s.queue[0].KeyChanged? then Some(s.queue[0].note.after) else s.hist.seen
  }

  function QueueAfter(s: Sys): seq<Envelope>
    requires s.queue != []
  {
    match Emitted(s)
    case Some(g) => if s.stopped then s.queue[1..] else s.queue[1..] + [Send(g)]
    case None => s.queue[1..]
  }

  /** The classifier leaves its state for `next` on the front envelope. */
  function Move(s: Sys, next: ClsState): Sys
    requires s.queue != []
  {
    var live := if s.cls.timer.Some? then s.timers.live - {s.cls.timer.value} else s.timers.live;
    var timed := next == Pressed || next == AwaitingSecondClick;
    var armed := if next == Pressed then T.Armed(s.now + LONG_PRESS_THRESHOLD, LongPressExpired)
                 else T.Armed(s.now + DOUBLE_CLICK_WINDOW, DoubleClickExpired);
    s.(queue := QueueAfter(s),
       cache := s.cache.(subs := [C.Subscriber(0, ButtonKey, ClickClassifier)]),
       timers := if timed then T.Timers(live[s.timers.next := armed], s.timers.next + 1) else T.Timers(live, s.timers.next),
       cls := ClassifierFlow(next, Some(0), if timed then Some(s.timers.next) else None),
       hist := s.hist.(seen := SeenAfter(s), sent := s.hist.sent + SentBy(s), entered := s.now,
                       awaited := if next == AwaitingSecondClick then s.now else s.hist.awaited,
                       asOf := s.hist.fired))
  }

  predicate Moves(s: Sys, next: ClsState)
    requires s.queue != []
  {
    To(s.queue[0]) == ClickClassifier && ClassifierHandle(s.cls.state, s.queue[0]) == FlowSpec.Transition(next)
  }

  /** The front envelope is seen, and its gesture is sent. */
  function Sending(s: Sys): Sys
    requires s.queue != []
  {
    s.(queue := QueueAfter(s), hist := s.hist.(seen := SeenAfter(s), sent := s.hist.sent + SentBy(s)))
  }

  lemma SendingEffect(s: Sys)
    requires s.queue != [] && To(s.queue[0]) == ClickClassifier
    requires s.queue[0].KeyChanged? ==> ButtonChange(s.queue[0])
    ensures Dispatch(s) == (var s2 := Sending(s);
                            var d := ClassifierHandle(s.cls.state, s.queue[0]);
                            if d.Transition? then ClassifierEnter(ClassifierExit(s2), d.next) else s2)
  {
    var e := s.queue[0];
    var s1 := if ButtonChange(e) then Pop(s).(hist := s.hist.(seen := Some(e.note.after))) else Pop(s);
    assert ClassifierSends(s1, e) == Sending(s);
  }

  lemma SendingKeeps(s: Sys)
    requires s.queue != [] && Resources(s)
    ensures Resources(Sending(s))
  {
    forall k | k in s.timers.live ensures OwnedTimer(Sending(s), k, s.timers.live[k]) {
      assert OwnedTimer(s, k, s.timers.live[k]);
    }
  }

  /** The locals of the classifier are gone. */
  function Exited(s: Sys): Sys {
    s.(timers := if s.cls.timer.Some? then T.Cancel(s.timers, s.cls.timer.value) else s.timers,
       cache := s.cache.(subs := []), cls := ClassifierFlow(s.cls.state, None, None))
  }

  /** Those of `next` have been constructed. */
  function Entered(s: Sys, next: ClsState): Sys {
    var timed := next == Pressed || next == AwaitingSecondClick;
    var armed := if next == Pressed then T.Armed(s.now + LONG_PRESS_THRESHOLD, LongPressExpired)
                 else T.Armed(s.now + DOUBLE_CLICK_WINDOW, DoubleClickExpired);
    s.(cache := s.cache.(subs := [C.Subscriber(0, ButtonKey, ClickClassifier)]),
       timers := if timed then T.Timers(s.timers.live[s.timers.next := armed], s.timers.next + 1) else s.timers,
       cls := ClassifierFlow(next, Some(0), if timed then Some(s.timers.next) else None),
       hist := s.hist.(entered := s.now, awaited := if next == AwaitingSecondClick then s.now else s.hist.awaited,
                       asOf := s.hist.fired))
  }

  lemma ExitEffect(s: Sys)
    requires Resources(s)
    ensures ClassifierExit(s) == Exited(s)
  {
  }

  lemma EnterEffect(s: Sys, next: ClsState)
    requires s.cache.subs == [] && s.capacity >= 1
    ensures ClassifierEnter(s, next) == Entered(s, next)
  {
    assert C.LowestFree(s.cache.subs, s.capacity) == 0;
  }

  lemma MoveInParts(s: Sys, next: ClsState)
    requires s.queue != []
    ensures Entered(Exited(Sending(s)), next) == Move(s, next)
  {
  }

  lemma MoveEffect(s: Sys, next: ClsState)
    requires s.queue != [] && Resources(s) && Moves(s, next)
    requires s.queue[0].KeyChanged? ==> ButtonChange(s.queue[0])
    ensures Dispatch(s) == Move(s, next)
  {
    SendingEffect(s);
    SendingKeeps(s);
    ExitEffect(Sending(s));
    EnterEffect(ClassifierExit(Sending(s)), next);
    MoveInParts(s, next);
  }

  lemma MoveResources(s: Sys, next: ClsState)
    requires s.queue != [] && Resources(s) && Mirrors(s)
    ensures Resources(Move(s, next)) && Mirrors(Move(s, next))
  {
    var s' := Move(s, next);
    forall k | k in s'.timers.live ensures OwnedTimer(s', k, s'.timers.live[k]) {
      if k in s.timers.live {
        assert OwnedTimer(s, k, s.timers.live[k]);
      }
    }
  }

  lemma MoveViews(s: Sys, next: ClsState)
    requires s.queue != [] && !s.queue[0].Send?
    ensures Notes(Move(s, next).queue) == if s.queue[0].KeyChanged? then Notes(s.queue)[1..] else Notes(s.queue)
    ensures Gestures(Move(s, next).queue)
         == Gestures(s.queue) + (if Emitted(s).Some? && !s.stopped then [Emitted(s).value] else [])
  {
    PopViews(s.queue);
    if Emitted(s).Some? && !s.stopped {
      ViewsAppend(s.queue[1..], Send(Emitted(s).value));
    }
  }

  lemma MovePending(s: Sys, next: ClsState, e: Envelope)
    requires s.queue != [] && IsTimer(e)
    ensures Pending(s, e) == Pending(Move(s, next), e) + B(s.queue[0] == e)
  {
    if Emitted(s).Some? {
      CountAppend(s.queue[1..], Send(Emitted(s).value), e);
    }
  }

  lemma MoveCounts(s: Sys, next: ClsState)
    requires s.queue != [] && Resources(s) && TimerCounts(s) && QueueShape(s) && Draining(s.pos) && FrontOk(s)
    requires Moves(s, next)
    ensures TimerCounts(Move(s, next))
  {
    MovePending(s, next, DebounceExpired);
    MovePending(s, next, LongPressExpired);
    MovePending(s, next, DoubleClickExpired);
    MoveViews(s, next);
    if s.queue[0].KeyChanged? {
      NothingBehind(s, LongPressExpired);
      NothingBehind(s, DoubleClickExpired);
    }
    assert IsArmed(Move(s, next), s.deb.timer) == IsArmed(s, s.deb.timer);
  }

  lemma TailFirst(q: seq<Envelope>)
    requires q != [] && TimersFirst(q)
    ensures TimersFirst(q[1..])
  {
  }

  lemma AppendFirst(q: seq<Envelope>, e: Envelope)
    requires TimersFirst(q) && !IsTimer(e)
    ensures TimersFirst(q + [e])
  {
  }

  lemma MoveShape(s: Sys, next: ClsState)
    requires s.queue != [] && QueueShape(s) && Draining(s.pos) && !s.queue[0].Send?
    ensures QueueShape(Move(s, next))
  {
    MoveViews(s, next);
    TailFirst(s.queue);
    if Emitted(s).Some? {
      AppendFirst(s.queue[1..], Send(Emitted(s).value));
    }
    assert TimersFirst(Move(s, next).queue);
  }

  lemma MoveSyncTimer(s: Sys, next: ClsState)
    requires s.queue != [] && Resources(s) && InSync(s) && FrontOk(s) && Moves(s, next) && IsTimer(s.queue[0])
    ensures InSync(Move(s, next))
  {
    MoveViews(s, next);
    assert IsArmed(Move(s, next), s.deb.timer) == IsArmed(s, s.deb.timer);
  }

  lemma MoveSyncNote(s: Sys, next: ClsState)
    requires s.queue != [] && InSync(s) && |Notes(s.queue)| <= 1 && FrontOk(s) && Moves(s, next) && s.queue[0].KeyChanged?
    ensures InSync(Move(s, next))
  {
    MoveViews(s, next);
    assert Notes(s.queue) == [s.queue[0].note];
    assert Notes(Move(s, next).queue) == [];
  }

  lemma MoveTiming(s: Sys, next: ClsState)
    requires s.queue != [] && Resources(s) && Timing(s) && FrontOk(s) && Moves(s, next)
    ensures Timing(Move(s, next))
  {
    var s' := Move(s, next);
    assert IsArmed(s', s.deb.timer) == IsArmed(s, s.deb.timer);
    if IsArmed(s, s.cls.timer) {
      assert OwnedTimer(s, s.cls.timer.value, s.timers.live[s.cls.timer.value]);
    }
    forall i | 0 <= i < |s'.hist.sent| ensures Timely(s.manual, s'.hist.sent[i]) {
      if i < |s.hist.sent| {
        assert s'.hist.sent[i] == s.hist.sent[i];
      }
    }
  }

  lemma SendCredit(s: Sys)
    requires s.queue != []
    ensures Kinds(s.hist.sent + SentBy(s)) == Kinds(s.hist.sent) + (if Emitted(s).Some? then [Emitted(s).value] else [])
    ensures Credits(s.hist.sent + SentBy(s)) == Credits(s.hist.sent) + (if Emitted(s).Some? then Credit(Emitted(s).value) else 0)
  {
    var sent := s.hist.sent;
    if Emitted(s).Some? {
      assert (sent + SentBy(s))[..|sent|] == sent;
    } else {
      assert sent + SentBy(s) == sent;
    }
  }

  lemma MoveQueuedPresses(s: Sys, next: ClsState)
    requires s.queue != [] && |Notes(s.queue)| <= 1 && !s.queue[0].Send?
    ensures QueuedPresses(s.queue)
         == QueuedPresses(Move(s, next).queue) + B(s.queue[0].KeyChanged? && s.queue[0].note.after == Bit(true))
  {
    MoveViews(s, next);
  }

  lemma MoveCredit(s: Sys, next: ClsState)
    requires s.queue != [] && FrontOk(s) && Moves(s, next)
    ensures Undelivered(s.cls.state) + B(s.queue[0].KeyChanged? && s.queue[0].note.after == Bit(true))
         == Undelivered(next) + (if Emitted(s).Some? then Credit(Emitted(s).value) else 0)
  {
  }

  lemma MoveConserved(s: Sys, next: ClsState)
    requires s.queue != [] && |Notes(s.queue)| <= 1 && Conserved(s) && FrontOk(s) && Moves(s, next)
    ensures Conserved(Move(s, next))
  {
    if !s.stopped {
      MovePresses(s, next);
      MoveKinds(s, next);
    }
  }

  lemma MovePresses(s: Sys, next: ClsState)
    requires s.queue != [] && |Notes(s.queue)| <= 1 && FrontOk(s) && Moves(s, next)
    requires Presses(s.hist.commits) == Credits(s.hist.sent) + Undelivered(s.cls.state) + QueuedPresses(s.queue)
    ensures Presses(Move(s, next).hist.commits)
         == Credits(Move(s, next).hist.sent) + Undelivered(next) + QueuedPresses(Move(s, next).queue)
  {
    MoveQueuedPresses(s, next);
    MoveCredit(s, next);
    SendCredit(s);
  }

  lemma MoveKinds(s: Sys, next: ClsState)
    requires s.queue != [] && !s.stopped && !s.queue[0].Send?
    requires Kinds(s.hist.sent) == s.hist.handled + Gestures(s.queue)
    ensures Kinds(Move(s, next).hist.sent) == Move(s, next).hist.handled + Gestures(Move(s, next).queue)
  {
    MoveViews(s, next);
    SendCredit(s);
  }

  lemma DispatchMove(s: Sys, next: ClsState)
    requires Inv(s) && s.queue != [] && Draining(s.pos) && Moves(s, next)
    ensures Inv(Dispatch(s)) && Dispatch(s).manual == s.manual
  {
    Front(s);
    MoveEffect(s, next);
    MoveResources(s, next);
    MoveCounts(s, next);
    MoveShape(s, next);
    if s.queue[0].KeyChanged? { MoveSyncNote(s, next); } else { MoveSyncTimer(s, next); }
    MoveTiming(s, next);
    MoveConserved(s, next);
  }

  // ---- The release after a long press ---------------------------------------------------------

  /** Idle sees the change and stays. */
  function Notice(s: Sys): Sys
    requires s.queue != []
  {
    Pop(s).(hist := s.hist.(seen := SeenAfter(s)))
  }

  lemma NoticeState(s: Sys)
    requires s.queue != [] && Resources(s) && Mirrors(s) && Timing(s)
    ensures Resources(Notice(s)) && Mirrors(Notice(s)) && Timing(Notice(s))
  {
    forall k | k in s.timers.live ensures OwnedTimer(Notice(s), k, s.timers.live[k]) {
      assert OwnedTimer(s, k, s.timers.live[k]);
    }
  }

  lemma NoticeViews(s: Sys)
    requires s.queue != [] && s.queue[0].KeyChanged? && |Notes(s.queue)| <= 1
    ensures Notes(s.queue) == [s.queue[0].note] && Notes(Notice(s).queue) == []
    ensures Gestures(Notice(s).queue) == Gestures(s.queue)
  {
    assert Notes(s.queue) == [s.queue[0].note] + Notes(s.queue[1..]);
  }

  lemma NoticeQueue(s: Sys)
    requires s.queue != [] && s.queue[0].KeyChanged? && s.queue[0].note.after == Bit(false)
    requires TimerCounts(s) && QueueShape(s) && Draining(s.pos)
    ensures TimerCounts(Notice(s)) && QueueShape(Notice(s))
  {
    NoticeViews(s);
  }

  lemma NoticeSync(s: Sys)
    requires s.queue != [] && s.queue[0].KeyChanged? && s.queue[0].note.after == Bit(false) && s.cls.state == Idle
    requires InSync(s) && Conserved(s) && |Notes(s.queue)| <= 1
    ensures InSync(Notice(s)) && Conserved(Notice(s))
  {
    NoticeViews(s);
  }

  lemma DispatchNotice(s: Sys)
    requires Inv(s) && s.queue != [] && Draining(s.pos) && s.queue[0].KeyChanged?
    requires s.cls.state == Idle && s.queue[0].note.after == Bit(false)
    ensures Inv(Dispatch(s)) && Dispatch(s).manual == s.manual
  {
    Front(s);
    SendingEffect(s);
    assert Sending(s).hist == Notice(s).hist;
    NoticeState(s);
    NoticeQueue(s);
    NoticeSync(s);
  }

  // ---- All of them ----------------------------------------------------------------------------

  lemma DispatchClassifier(s: Sys)
    requires Inv(s) && s.queue != [] && Draining(s.pos) && To(s.queue[0]) == ClickClassifier
    ensures Inv(Dispatch(s)) && Dispatch(s).manual == s.manual
  {
    Front(s);
    var d := ClassifierHandle(s.cls.state, s.queue[0]);
    if d.Transition? {
      DispatchMove(s, d.next);
    } else {
      DispatchNotice(s);
    }
  }

  lemma DispatchInv(s: Sys)
    requires Inv(s) && s.queue != [] && Draining(s.pos)
    ensures Inv(Dispatch(s)) && Dispatch(s).manual == s.manual
  {
    Front(s);
    match s.queue[0]
    case RawTransition(_) => if Accepts(s, s.queue[0]) { DispatchCommit(s); } else { DispatchIgnored(s); }
    case DebounceExpired => DispatchDebounce(s);
    case Send(_) => DispatchGesture(s);
    case _ => DispatchClassifier(s);
  }
}
