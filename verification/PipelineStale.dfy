/** Exactly when advancing the manual clock in the middle of a drain makes a gesture stale: when a change
    is queued and the timer of the classifier's state falls due. */
module PipelineStale {
  import opened Options
  import opened PipelineModel
  import opened PipelineInvariant
  import opened PipelineSteps
  import opened PipelineDispatch
  import opened PipelineTheorems
  import C = CacheSpec
  import T = TimerSpec

  /** `ManualClock::advance` called while the loop is draining: fire, then post the whole batch. */
  function AdvanceMidDrain(s: Sys, delta: int, batch: seq<nat>): Sys
    requires forall k :: k in batch ==> k in s.timers.live
  {
    s.(now := s.now + delta, timers := T.AfterFire(s.timers, s.now + delta), hist := s.hist.(fired := s.now + delta),
       queue := if s.stopped then s.queue else s.queue + Collected(s, batch))
  }

  predicate IsGestureTimer(e: Envelope) {
    e.LongPressExpired? || e.DoubleClickExpired?
  }

  /** The flow that armed the timer of `e` is still in the state that did. */
  predicate Belongs(s: Sys, e: Envelope) {
    match e
    case DebounceExpired => s.deb.state == CoolingDown
    case LongPressExpired => s.cls.state == Pressed
    case DoubleClickExpired => s.cls.state == AwaitingSecondClick
    case _ => true
  }

  /** A timer envelope is about to be dispatched outside the state that armed it. */
  predicate Misplaced(s: Sys) {
    Draining(s.pos) && s.queue != [] && !Belongs(s, s.queue[0])
  }

  /** What can happen while the drain goes on. */
  predicate Goes(a: Action) {
    a.DispatchFront? || a.ExternalPost? || a.Tick? || a.Stop?
  }

  ghost predicate Continues(s: Sys, run: seq<Action>) {
    Allowed(s, run) && forall i :: 0 <= i < |run| ==> Goes(run[i])
  }

  ghost predicate GetsMisplaced(s: Sys) {
    exists run: seq<Action> :: Continues(s, run) && Misplaced(After(s, run))
  }

  // ---- What a dispatch does to queue and states, from any state -------------------------------

  ghost predicate NoTimers(q: seq<Envelope>) {
    forall i :: 0 <= i < |q| ==> !IsTimer(q[i])
  }

  /** The rest of the queue with envelopes other than timers behind it. */
  ghost predicate Appends(q: seq<Envelope>, q': seq<Envelope>) {
    |q| <= |q'| && q'[..|q|] == q && NoTimers(q'[|q|..])
  }

  lemma AppendsPost(q: seq<Envelope>, s: Sys, e: Envelope)
    requires Appends(q, s.queue) && !IsTimer(e)
    ensures Appends(q, Post(s, e).queue)
  {
  }

  lemma {:induction false} AppendsNotes(q: seq<Envelope>, s: Sys, notes: seq<Note>)
    requires Appends(q, s.queue)
    ensures Appends(q, PostNotes(s, notes).queue)
    ensures var t := PostNotes(s, notes); t.deb == s.deb && t.cls == s.cls && t.pos == s.pos
    decreases |notes|
  {
    if notes != [] {
      AppendsPost(q, s, KeyChanged(notes[0]));
      AppendsNotes(q, Post(s, KeyChanged(notes[0])), notes[1..]);
    }
  }

  lemma AppendsSet(s: Sys, k: Key, v: Value)
    ensures Appends(s.queue, SetKey(s, k, v).queue)
    ensures var t := SetKey(s, k, v); t.deb == s.deb && t.cls == s.cls && t.pos == s.pos
  {
    AppendsNotes(s.queue, s.(cache := C.Set(s.cache, k, v)), C.SetNotes(s.cache, k, v));
  }

  /** The states change only on the envelopes that their handlers wait for. */
  ghost predicate Moderate(s: Sys, e: Envelope, t: Sys) {
    && Appends(s.queue, t.queue) && t.pos == s.pos
    && (t.cls.state != s.cls.state ==> ButtonChange(e) || IsGestureTimer(e))
    && (t.deb.state != s.deb.state ==> s.deb.state == Settled || e.DebounceExpired?)
  }

  lemma DebouncerModerate(s: Sys, e: Envelope)
    ensures Moderate(s, e, DebouncerStep(s, e))
  {
    if e.RawTransition? {
      AppendsSet(s, ButtonKey, Bit(e.pressed));
    }
  }

  lemma ExitKeeps(s: Sys)
    ensures var t := ClassifierExit(s); t.queue == s.queue && t.pos == s.pos && t.deb == s.deb
  {
  }

  lemma EnterKeeps(s: Sys, state: ClsState)
    ensures var t := ClassifierEnter(s, state); t.queue == s.queue && t.pos == s.pos && t.deb == s.deb
  {
  }

  lemma SendsKeep(s: Sys, e: Envelope)
    ensures var t := ClassifierSends(s, e);
            Appends(s.queue, t.queue) && t.pos == s.pos && t.deb == s.deb && t.cls == s.cls
  {
  }

  lemma ClassifierModerate(s: Sys, e: Envelope)
    ensures Moderate(s, e, ClassifierStep(s, e))
  {
    var s1 := if ButtonChange(e) then s.(hist := s.hist.(seen := Some(e.note.after))) else s;
    var s2 := ClassifierSends(s1, e);
    var d := ClassifierHandle(s2.cls.state, e);
    SendsKeep(s1, e);
    if d.Transition? {
      ExitKeeps(s2);
      EnterKeeps(ClassifierExit(s2), d.next);
    }
  }

  lemma UiModerate(s: Sys, e: Envelope)
    ensures Moderate(s, e, UiStep(s, e))
  {
    var s1 := if e.Send? then s.(hist := s.hist.(handled := s.hist.handled + [e.gesture])) else s;
    var d := UiHandle(s1.ui, e);
    if d.Transition? {
      AppendsSet(s1.(ui := d.next), UiModeKey, Mode(d.next));
    }
  }

  lemma DispatchModerate(s: Sys)
    requires s.queue != []
    ensures Moderate(Pop(s), s.queue[0], Dispatch(s))
  {
    DebouncerModerate(Pop(s), s.queue[0]);
    ClassifierModerate(Pop(s), s.queue[0]);
    UiModerate(Pop(s), s.queue[0]);
  }

  // ---- Nothing goes stale ---------------------------------------------------------------------

  ghost predicate GesturesFirst(q: seq<Envelope>) {
    forall i, j :: 0 <= i < j < |q| && q[i].KeyChanged? ==> !IsGestureTimer(q[j])
  }

  /** No more timer envelopes than states that wait for them, and those of the classifier ahead of any
      change. */
  ghost predicate Fresh(s: Sys) {
    && Count(s.queue, DebounceExpired) <= B(s.deb.state == CoolingDown)
    && Count(s.queue, LongPressExpired) <= B(s.cls.state == Pressed)
    && Count(s.queue, DoubleClickExpired) <= B(s.cls.state == AwaitingSecondClick)
    && GesturesFirst(s.queue)
  }

  lemma {:induction false} CountConcat(a: seq<Envelope>, b: seq<Envelope>, e: Envelope)
    ensures Count(a + b, e) == Count(a, e) + Count(b, e)
  {
    if a == [] {
      assert a + b == b;
    } else {
      assert (a + b)[1..] == a[1..] + b;
      CountConcat(a[1..], b, e);
    }
  }

  lemma CountAppends(q: seq<Envelope>, q': seq<Envelope>, e: Envelope)
    requires Appends(q, q') && IsTimer(e)
    ensures Count(q', e) == Count(q, e)
  {
    assert q' == q + q'[|q|..];
    CountConcat(q, q'[|q|..], e);
    CountAbsent(q'[|q|..], e);
  }

  lemma FirstAppends(q: seq<Envelope>, q': seq<Envelope>)
    requires GesturesFirst(q) && Appends(q, q')
    ensures GesturesFirst(q')
  {
    forall i, j | 0 <= i < j < |q'| && q'[i].KeyChanged? ensures !IsGestureTimer(q'[j]) {
      if j < |q| {
        assert q'[i] == q[i] && q'[j] == q[j];
      } else {
        assert q'[j] == q'[|q|..][j - |q|];
      }
    }
  }

  lemma FreshBelongs(s: Sys)
    requires Fresh(s) && s.queue != []
    ensures Belongs(s, s.queue[0])
  {
    if IsTimer(s.queue[0]) { CountPresent(s.queue, 0); }
  }

  /** Behind a change, and behind a gesture timer, there is no gesture timer. */
  lemma NoGestureBehind(s: Sys)
    requires Fresh(s) && s.queue != [] && (s.queue[0].KeyChanged? || IsGestureTimer(s.queue[0]))
    ensures Count(s.queue[1..], LongPressExpired) == 0 && Count(s.queue[1..], DoubleClickExpired) == 0
  {
    if s.queue[0].KeyChanged? {
      assert forall j :: 1 <= j < |s.queue| ==> !IsGestureTimer(s.queue[j]);
      CountAbsent(s.queue[1..], LongPressExpired);
      CountAbsent(s.queue[1..], DoubleClickExpired);
    } else {
      FreshBelongs(s);
    }
  }

  lemma FreshDispatch(s: Sys)
    requires Fresh(s) && s.queue != []
    ensures Fresh(Dispatch(s)) && Dispatch(s).pos == s.pos
  {
    var q, t := s.queue[1..], Dispatch(s);
    DispatchModerate(s);
    CountAppends(q, t.queue, DebounceExpired);
    CountAppends(q, t.queue, LongPressExpired);
    CountAppends(q, t.queue, DoubleClickExpired);
    FirstAppends(q, t.queue);
    if s.queue[0].KeyChanged? || IsGestureTimer(s.queue[0]) { NoGestureBehind(s); }
    if s.queue[0].DebounceExpired? { FreshBelongs(s); }
  }

  lemma FreshPost(s: Sys, b: bool)
    requires Fresh(s)
    ensures Fresh(Post(s, RawTransition(b)))
  {
    CountAppend(s.queue, RawTransition(b), DebounceExpired);
    CountAppend(s.queue, RawTransition(b), LongPressExpired);
    CountAppend(s.queue, RawTransition(b), DoubleClickExpired);
  }

  lemma {:induction false} FreshStays(s: Sys, run: seq<Action>)
    requires Fresh(s) && Continues(s, run)
    ensures Fresh(After(s, run))
    decreases |run|
  {
    if run != [] {
      match run[0] {
        case DispatchFront => FreshDispatch(s);
        case ExternalPost(b) => FreshPost(s, b);
        case Tick(_) =>
        case Stop =>
      }
      FreshStays(Apply(s, run[0]), run[1..]);
    }
  }

  lemma FreshIsNeverMisplaced(s: Sys)
    requires Fresh(s)
    ensures !GetsMisplaced(s)
  {
    forall run: seq<Action> | Continues(s, run) ensures !Misplaced(After(s, run)) {
      FreshStays(s, run);
      if After(s, run).queue != [] { FreshBelongs(After(s, run)); }
    }
  }

  // ---- The advance ----------------------------------------------------------------------------

  /** The timer of the classifier's state is armed and falls due. */
  predicate GestureDue(s: Sys, now: int) {
    s.cls.timer.Some? && s.cls.timer.value in T.DueBy(s.timers, now)
  }

  /** What the advance adds are timer envelopes, each of a state that is still the current one. */
  lemma AdvanceCounts(s: Sys, delta: int, batch: seq<nat>)
    requires Inv(s) && Draining(s.pos) && T.IsBatch(s.timers, s.now + delta, batch)
    ensures Count(s.queue + Collected(s, batch), DebounceExpired) <= B(s.deb.state == CoolingDown)
    ensures Count(s.queue + Collected(s, batch), LongPressExpired) <= B(s.cls.state == Pressed)
    ensures Count(s.queue + Collected(s, batch), DoubleClickExpired) <= B(s.cls.state == AwaitingSecondClick)
  {
    var q, c := s.queue, Collected(s, batch);
    Owners(s);
    FireCount(s, s.now + delta, batch, DebounceExpired, s.deb.timer);
    FireCount(s, s.now + delta, batch, LongPressExpired, if s.cls.state == Pressed then s.cls.timer else None);
    FireCount(s, s.now + delta, batch, DoubleClickExpired, if s.cls.state == AwaitingSecondClick then s.cls.timer else None);
    CountConcat(q, c, DebounceExpired);
    CountConcat(q, c, LongPressExpired);
    CountConcat(q, c, DoubleClickExpired);
  }

  lemma CollectedIs(s: Sys, batch: seq<nat>, i: nat)
    requires Resources(s) && i < |batch| && forall k :: k in batch ==> k in s.timers.live
    ensures IsTimer(Collected(s, batch)[i])
    ensures IsGestureTimer(Collected(s, batch)[i]) <==> s.cls.timer == Some(batch[i])
    ensures IsGestureTimer(Collected(s, batch)[i]) ==> Belongs(s, Collected(s, batch)[i])
  {
    assert batch[i] in batch;
    assert OwnedTimer(s, batch[i], s.timers.live[batch[i]]);
  }

  lemma GesturesStayFirst(s: Sys, now: int, batch: seq<nat>)
    requires Resources(s) && TimersFirst(s.queue) && T.IsBatch(s.timers, now, batch)
    requires Notes(s.queue) == [] || !GestureDue(s, now)
    ensures GesturesFirst(s.queue + Collected(s, batch))
  {
    var q, c := s.queue, Collected(s, batch);
    NoNotes(q);
    forall i, j | 0 <= i < j < |q + c| && (q + c)[i].KeyChanged? ensures !IsGestureTimer((q + c)[j]) {
      if i >= |q| {
        CollectedIs(s, batch, i - |q|);
      } else if j >= |q| {
        CollectedIs(s, batch, j - |q|);
        assert batch[j - |q|] in batch;
      }
    }
  }

  lemma AdvanceStaysFresh(s: Sys, delta: int, batch: seq<nat>)
    requires Inv(s) && Draining(s.pos) && T.IsBatch(s.timers, s.now + delta, batch)
    requires s.stopped || Notes(s.queue) == [] || !GestureDue(s, s.now + delta)
    ensures Fresh(AdvanceMidDrain(s, delta, batch))
  {
    AdvanceCounts(s, delta, batch);
    CountConcat(s.queue, Collected(s, batch), DebounceExpired);
    CountConcat(s.queue, Collected(s, batch), LongPressExpired);
    CountConcat(s.queue, Collected(s, batch), DoubleClickExpired);
    if !s.stopped {
      GesturesStayFirst(s, s.now + delta, batch);
    }
  }

  // ---- A stale gesture ------------------------------------------------------------------------

  /** The state that the classifier has moved on to when the timer of `e` comes. */
  function Beyond(e: Envelope): ClsState {
    if e.LongPressExpired? then AwaitingSecondClick else SecondPressed
  }

  /** `note` makes the classifier leave the state that armed the timer of `e`. */
  predicate Outruns(note: Envelope, e: Envelope) {
    && ButtonChange(note) && note.note.to == ClickClassifier
    && note.note.after == Bit(e.DoubleClickExpired?)
  }

  /** The gesture timer at `k` will find the classifier beyond its state: the change ahead of it, at `i`,
      or one dispatched already, sees to that, and nothing else ahead of it moves the classifier. */
  ghost predicate Doomed(s: Sys, k: nat) {
    && k < |s.queue| && IsGestureTimer(s.queue[k])
    && (forall i :: 0 <= i < k ==> !IsGestureTimer(s.queue[i]))
    && ((s.cls.state == Beyond(s.queue[k]) && forall i :: 0 <= i < k ==> !s.queue[i].KeyChanged?)
        || (Belongs(s, s.queue[k]) && exists i :: OneChange(s.queue, i, k)))
  }

  ghost predicate OneChange(q: seq<Envelope>, i: nat, k: nat) {
    && i < k < |q| && Outruns(q[i], q[k])
    && forall j :: 0 <= j < k && j != i ==> !q[j].KeyChanged?
  }

  /** Dispatching `note` takes the classifier there. */
  lemma OutrunsMoves(s: Sys, e: Envelope)
    requires s.queue != [] && Outruns(s.queue[0], e) && IsGestureTimer(e) && Belongs(s, e)
    ensures Dispatch(s).cls.state == Beyond(e)
  {
  }

  lemma DoomedStep(s: Sys, k: nat)
    requires Doomed(s, k) && k > 0
    ensures Doomed(Dispatch(s), k - 1) && Dispatch(s).pos == s.pos && Dispatch(s).queue[k - 1] == s.queue[k]
  {
    var q, t := s.queue[1..], Dispatch(s);
    DispatchModerate(s);
    assert forall j :: 0 <= j < |q| ==> t.queue[j] == q[j] == s.queue[j + 1];
    if s.cls.state == Beyond(s.queue[k]) && !Belongs(s, s.queue[k]) {
      assert t.cls.state == s.cls.state;
    } else {
      var i: nat :| OneChange(s.queue, i, k);
      if i == 0 {
        OutrunsMoves(s, s.queue[k]);
      } else {
        assert t.cls.state == s.cls.state;
        assert OneChange(t.queue, i - 1, k - 1);
      }
    }
  }

  function Dispatches(n: nat): seq<Action> {
    if n == 0 then [] else [DispatchFront] + Dispatches(n - 1)
  }

  lemma {:induction false} DispatchesGo(n: nat)
    ensures forall i :: 0 <= i < |Dispatches(n)| ==> Goes(Dispatches(n)[i])
  {
    if n > 0 { DispatchesGo(n - 1); }
  }

  /** The timer is reached after `k` dispatches, in the wrong state. */
  ghost predicate FoundBeyond(s: Sys, k: nat) {
    && Allowed(s, Dispatches(k))
    && var t := After(s, Dispatches(k));
       Draining(t.pos) && t.queue != [] && IsGestureTimer(t.queue[0]) && t.cls.state == Beyond(t.queue[0])
  }

  lemma {:induction false} DoomedIsFound(s: Sys, k: nat)
    requires Doomed(s, k) && Draining(s.pos)
    ensures FoundBeyond(s, k) && After(s, Dispatches(k)).queue[0] == s.queue[k]
    decreases k
  {
    if k > 0 {
      DoomedStep(s, k);
      DoomedIsFound(Dispatch(s), k - 1);
      assert Dispatches(k)[1..] == Dispatches(k - 1);
    }
  }

  lemma {:induction false} OneNoteAt(q: seq<Envelope>) returns (i: nat)
    requires |Notes(q)| == 1
    ensures i < |q| && q[i].KeyChanged? && q[i].note == Notes(q)[0]
    ensures forall j :: 0 <= j < |q| && j != i ==> !q[j].KeyChanged?
  {
    if q[0].KeyChanged? {
      i := 0;
      NoNotes(q[1..]);
      assert forall j :: 1 <= j < |q| ==> q[j] == q[1..][j - 1];
    } else {
      var m := OneNoteAt(q[1..]);
      i := m + 1;
      assert forall j :: 1 <= j < |q| ==> q[j] == q[1..][j - 1];
    }
  }

  lemma NoGestureQueued(s: Sys)
    requires TimerCounts(s) && Notes(s.queue) != [] && IsArmed(s, s.cls.timer)
    requires s.cls.state == Pressed || s.cls.state == AwaitingSecondClick
    ensures forall i :: 0 <= i < |s.queue| ==> !IsGestureTimer(s.queue[i])
  {
    forall i | 0 <= i < |s.queue| && IsGestureTimer(s.queue[i]) ensures false {
      CountPresent(s.queue, i);
    }
  }

  lemma ChangeOutruns(s: Sys, note: Envelope, e: Envelope)
    requires InSync(s) && Mirrors(s) && Notes(s.queue) != [] && note == KeyChanged(Notes(s.queue)[0])
    requires IsGestureTimer(e) && Belongs(s, e)
    ensures Outruns(note, e)
  {
  }

  /** Ahead of the classifier's timer in the fired batch there is only the other timer. */
  lemma NothingAhead(s: Sys, now: int, batch: seq<nat>, j: nat, m: nat)
    requires Resources(s) && T.IsBatch(s.timers, now, batch)
    requires m < j < |batch| && s.cls.timer == Some(batch[j])
    ensures !IsGestureTimer(Collected(s, batch)[m]) && !Collected(s, batch)[m].KeyChanged?
  {
    CollectedIs(s, batch, m);
  }

  /** Where the envelope of the classifier's timer stands after the advance. */
  lemma DueIsDoomed(s: Sys, delta: int, batch: seq<nat>) returns (k: nat)
    requires Inv(s) && Draining(s.pos) && !s.stopped && T.IsBatch(s.timers, s.now + delta, batch)
    requires Notes(s.queue) != [] && GestureDue(s, s.now + delta)
    ensures Doomed(AdvanceMidDrain(s, delta, batch), k)
    ensures AdvanceMidDrain(s, delta, batch).queue[k] == s.timers.live[s.cls.timer.value].envelope
  {
    var q, c := s.queue, Collected(s, batch);
    assert s.cls.timer.value in batch;
    var j: nat :| j < |batch| && batch[j] == s.cls.timer.value;
    k := |q| + j;
    CollectedIs(s, batch, j);
    NoGestureQueued(s);
    var i := OneNoteAt(q);
    ChangeOutruns(s, q[i], c[j]);
    forall m | 0 <= m < k ensures !IsGestureTimer((q + c)[m]) && (m != i ==> !(q + c)[m].KeyChanged?) {
      if m >= |q| { NothingAhead(s, s.now + delta, batch, j, m - |q|); }
    }
    assert OneChange(q + c, i, k);
    assert AdvanceMidDrain(s, delta, batch).queue == q + c;
  }

  /** From there on, the gesture that its state asked for is sent although the state has been left. */
  lemma BeyondSends(s: Sys)
    requires s.queue != [] && IsGestureTimer(s.queue[0]) && s.cls.state == Beyond(s.queue[0])
    ensures
      var g := if s.queue[0].LongPressExpired? then LongPress else Click;
      && !Belongs(s, s.queue[0])
      && Dispatch(s).cls == s.cls
      && (!s.stopped ==> Dispatch(s).queue == s.queue[1..] + [Send(g)])
      && |Dispatch(s).hist.sent| == |s.hist.sent| + 1 && Dispatch(s).hist.sent[|s.hist.sent|].gesture == g
  {
  }

  /** For every state of a drain: after an advance of the manual clock some timer envelope is dispatched
      outside the state that armed it, in one continuation of the drain or another, exactly if posts are
      still accepted, a change is queued and the timer of the classifier's state falls due. */
  lemma StaleExactly(s: Sys, delta: int, batch: seq<nat>)
    requires Inv(s) && Draining(s.pos) && delta >= 0 && T.IsBatch(s.timers, s.now + delta, batch)
    ensures GetsMisplaced(AdvanceMidDrain(s, delta, batch))
       <==> !s.stopped && Notes(s.queue) != [] && GestureDue(s, s.now + delta)
  {
    var t := AdvanceMidDrain(s, delta, batch);
    if !s.stopped && Notes(s.queue) != [] && GestureDue(s, s.now + delta) {
      var k := DueIsDoomed(s, delta, batch);
      DoomedIsFound(t, k);
      DispatchesGo(k);
      assert Continues(t, Dispatches(k)) && Misplaced(After(t, Dispatches(k)));
    } else {
      AdvanceStaysFresh(s, delta, batch);
      FreshIsNeverMisplaced(t);
    }
  }

  /** And then it is bound to happen: the drain alone comes to the envelope of that very timer, a LongPress
      in AwaitingSecondClick or a Click in SecondPressed. */
  lemma StaleIsFound(s: Sys, delta: int, batch: seq<nat>)
    requires Inv(s) && Draining(s.pos) && !s.stopped && delta >= 0 && T.IsBatch(s.timers, s.now + delta, batch)
    requires Notes(s.queue) != [] && GestureDue(s, s.now + delta)
    ensures exists k: nat ::
      && FoundBeyond(AdvanceMidDrain(s, delta, batch), k)
      && After(AdvanceMidDrain(s, delta, batch), Dispatches(k)).queue[0] == s.timers.live[s.cls.timer.value].envelope
  {
    var k := DueIsDoomed(s, delta, batch);
    DoomedIsFound(AdvanceMidDrain(s, delta, batch), k);
  }

  lemma BatchMember(t: T.Timers<Envelope>, now: int, batch: seq<nat>, i: nat)
    requires T.IsBatch(t, now, batch) && i < |batch|
    ensures batch[i] in T.DueBy(t, now)
  {
    assert batch[i] in batch;
  }

  lemma NothingFired(t: T.Timers<Envelope>, now: int, batch: seq<nat>)
    requires T.IsBatch(t, now, batch) && T.DueBy(t, now) == {}
    ensures batch == []
  {
    if batch != [] { BatchMember(t, now, batch, 0); }
  }

  lemma NoChangeOrder(q: seq<Envelope>, c: seq<Envelope>)
    requires Notes(q) == [] && forall i :: 0 <= i < |c| ==> IsTimer(c[i])
    ensures TimersFirst(q + c)
  {
    NoNotes(q);
    assert forall i :: 0 <= i < |q + c| ==> !(q + c)[i].KeyChanged?;
  }

  lemma OrderKept(s: Sys, delta: int, batch: seq<nat>)
    requires Resources(s) && TimersFirst(s.queue) && !s.stopped && T.IsBatch(s.timers, s.now + delta, batch)
    requires Notes(s.queue) == [] || T.DueBy(s.timers, s.now + delta) == {}
    ensures TimersFirst(AdvanceMidDrain(s, delta, batch).queue)
  {
    var q, c := s.queue, Collected(s, batch);
    if Notes(q) == [] {
      forall j | 0 <= j < |c| ensures IsTimer(c[j]) {
        CollectedIs(s, batch, j);
      }
      NoChangeOrder(q, c);
    } else {
      NothingFired(s.timers, s.now + delta, batch);
      assert q + c == q;
    }
  }

  lemma OrderLost(s: Sys, delta: int, batch: seq<nat>)
    requires Inv(s) && !s.stopped && T.IsBatch(s.timers, s.now + delta, batch)
    requires Notes(s.queue) != [] && T.DueBy(s.timers, s.now + delta) != {}
    ensures !TimersFirst(AdvanceMidDrain(s, delta, batch).queue)
  {
    var q, c := s.queue, Collected(s, batch);
    NoNotes(q);
    var i: nat :| i < |q| && q[i].KeyChanged?;
    var k :| k in T.DueBy(s.timers, s.now + delta);
    assert k in batch;
    CollectedIs(s, batch, 0);
    assert (q + c)[i].KeyChanged? && IsTimer((q + c)[|q|]);
  }

  /** The order of the queue is the stricter matter: it survives such an advance exactly when no change is
      queued, or no timer at all is due. */
  lemma MidDrainOrder(s: Sys, delta: int, batch: seq<nat>)
    requires Inv(s) && !s.stopped && delta >= 0 && T.IsBatch(s.timers, s.now + delta, batch)
    ensures TimersFirst(AdvanceMidDrain(s, delta, batch).queue) <==> Notes(s.queue) == [] || T.DueBy(s.timers, s.now + delta) == {}
  {
    if Notes(s.queue) == [] || T.DueBy(s.timers, s.now + delta) == {} {
      OrderKept(s, delta, batch);
    } else {
      OrderLost(s, delta, batch);
    }
  }
}
