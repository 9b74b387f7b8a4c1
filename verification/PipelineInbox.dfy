/** Every run of the pipeline before stop is, step by step, a run of the button with an inbox: under either
    clock, whatever is posted, advanced, fired and dispatched in between. */
module PipelineInbox {
  import opened Options
  import opened PipelineModel
  import opened PipelineInvariant
  import opened PipelineSteps
  import opened PipelineDispatch
  import opened PipelineDraining
  import opened PipelineReference
  import opened PipelineTheorems
  import opened ButtonInbox
  import T = TimerSpec

  /** What an envelope is to the button: a gesture for the display is nothing. */
  function InputOf(e: Envelope): seq<Input> {
    match e
    case RawTransition(p) => [Read(p)]
    case DebounceExpired => [Unlock]
    case LongPressExpired => [Hold]
    case DoubleClickExpired => [Lapse]
    case KeyChanged(_) => [News]
    case Send(_) => []
  }

  function Inputs(q: seq<Envelope>): seq<Input> {
    if q == [] then [] else InputOf(q[0]) + Inputs(q[1..])
  }

  /** The client that a state of the pipeline stands for. */
  function ClientOf(s: Sys): Client {
    Client(View(s), Inputs(Todo(s.pos)), Inputs(s.queue))
  }

  lemma {:induction false} InputsAppend(q: seq<Envelope>, e: Envelope)
    ensures Inputs(q + [e]) == Inputs(q) + InputOf(e)
  {
    if q == [] {
      assert q + [e] == [e] && Inputs([e]) == InputOf(e) + [];
    } else {
      assert (q + [e])[1..] == q[1..] + [e];
      InputsAppend(q[1..], e);
      assert InputOf(q[0]) + (Inputs(q[1..]) + InputOf(e)) == InputOf(q[0]) + Inputs(q[1..]) + InputOf(e);
    }
  }

  lemma InputsCons(q: seq<Envelope>)
    requires q != [] && !q[0].Send?
    ensures InputOf(q[0]) != [] && Inputs(q) == [InputOf(q[0])[0]] + Inputs(q[1..])
  {
  }

  /** The steps of the button in one action of the pipeline. */
  ghost function StepsOf(s: Sys, a: Action): seq<Step>
    requires Enabled(s, a)
  {
    match a
    case ExternalPost(p) => [Arrive(p)]
    case Tick(d) => [Pass(d)]
    case Advance(d, batch) => [Expire(d, Inputs(Collected(s, batch)))]
    case FireDue(batch) => [Expire(0, Inputs(Collected(s, batch)))]
    case PostFired => [Enqueue]
    case DispatchFront => if s.queue[0].Send? then [] else [ServeFront]
    case _ => []
  }

  /** The action is those steps. */
  ghost predicate Simulated(s: Sys, a: Action)
    requires Enabled(s, a)
  {
    && AllPossible(ClientOf(s), StepsOf(s, a))
    && ClientOf(Apply(s, a)) == PerformAll(ClientOf(s), StepsOf(s, a))
  }

  lemma OneStep(s: Sys, a: Action, step: Step)
    requires Enabled(s, a) && StepsOf(s, a) == [step]
    requires Possible(ClientOf(s), step) && Perform(ClientOf(s), step) == ClientOf(Apply(s, a))
    ensures Simulated(s, a)
  {
    PerformOne(ClientOf(s), step);
  }

  // ---- Dispatching ----------------------------------------------------------------------------

  /** One dispatch is one service, seen from `s` and `t`. */
  ghost predicate Serves(s: Sys, t: Sys) {
    Inputs(s.queue) != [] && ClientOf(t) == Serve(ClientOf(s))
  }

  lemma AcceptedServes(s: Sys)
    requires s.queue != [] && Accepts(s, s.queue[0]) && Resources(s) && Mirrors(s) && !s.stopped
    ensures Serves(s, Dispatch(s))
  {
    var p := s.queue[0].pressed;
    InputsCons(s.queue);
    AcceptedFree(s);
    CommitEffect(s);
    CommitView(s, p);
    AcceptedInputs(s);
  }

  lemma AcceptedFree(s: Sys)
    requires s.queue != [] && Accepts(s, s.queue[0]) && Mirrors(s)
    ensures View(s).lockedUntil == None && s.queue[0].pressed != View(s).pressed
  {
  }

  lemma AcceptedInputs(s: Sys)
    requires s.queue != [] && s.queue[0].RawTransition? && !s.stopped
    ensures var t := CommitEdge(s, s.queue[0].pressed); Inputs(t.queue) == Inputs(s.queue[1..]) + [News] && t.pos == s.pos
  {
    InputsAppend(s.queue[1..], CommitEdge(s, s.queue[0].pressed).queue[|s.queue| - 1]);
  }

  lemma IgnoredServes(s: Sys)
    requires s.queue != [] && s.queue[0].RawTransition? && !Accepts(s, s.queue[0]) && Mirrors(s)
    ensures Serves(s, Dispatch(s))
  {
    InputsCons(s.queue);
    assert View(s).lockedUntil.Some? || s.queue[0].pressed == View(s).pressed;
    IgnoredEffect(s);
    QueueUnseen(s, s.queue[1..]);
  }

  lemma UnlockServes(s: Sys)
    requires s.queue != [] && s.queue[0].DebounceExpired? && Resources(s) && FrontOk(s)
    ensures Serves(s, Dispatch(s))
  {
    InputsCons(s.queue);
    SettleEffect(s);
    SettleView(s);
  }

  lemma ShowServes(s: Sys)
    requires s.queue != [] && s.queue[0].Send? && Resources(s) && Mirrors(s)
    ensures ClientOf(Dispatch(s)) == ClientOf(s)
  {
    ShowEffect(s);
    ShowView(s, s.queue[0].gesture);
    assert [] + Inputs(s.queue[1..]) == Inputs(s.queue[1..]);
  }

  lemma ChangeIsCurrent(s: Sys)
    requires s.queue != [] && s.queue[0].KeyChanged? && InSync(s) && Mirrors(s)
    ensures View(s).pressed == (s.queue[0].note.after == Bit(true))
  {
    assert Notes(s.queue)[0] == s.queue[0].note;
  }

  lemma MoveQueue(s: Sys)
    requires s.queue != [] && !s.queue[0].Send?
    ensures Inputs(QueueAfter(s)) == Inputs(s.queue[1..])
  {
    if Emitted(s).Some? {
      InputsAppend(s.queue[1..], Send(Emitted(s).value));
    }
  }

  lemma MovedIsServed(s: Sys)
    requires s.queue != [] && To(s.queue[0]) == ClickClassifier
    ensures Inputs(s.queue) != []
    ensures Serve(ClientOf(s)) == Client(Moved(s), Inputs(Todo(s.pos)), Inputs(s.queue[1..]))
  {
    InputsCons(s.queue);
  }

  lemma MoveServes(s: Sys, next: ClsState)
    requires s.queue != [] && Resources(s) && FrontOk(s) && Moves(s, next)
    requires s.queue[0].KeyChanged? ==> View(s).pressed == (s.queue[0].note.after == Bit(true))
    ensures Serves(s, Dispatch(s))
  {
    MovedIsServed(s);
    MoveEffect(s, next);
    MoveView(s, next);
    MoveQueue(s);
  }

  lemma NoticeServes(s: Sys)
    requires s.queue != [] && s.queue[0].KeyChanged? && FrontOk(s) && s.cls.state == Idle && !View(s).pressed
    requires s.queue[0].note.after == Bit(false)
    ensures Serves(s, Dispatch(s))
  {
    InputsCons(s.queue);
    SendingEffect(s);
    assert s.hist.sent + SentBy(s) == s.hist.sent;
    assert Dispatch(s) == Notice(s);
    NoticeView(s);
  }

  lemma ClassifierServes(s: Sys)
    requires Inv(s) && Draining(s.pos) && s.queue != [] && To(s.queue[0]) == ClickClassifier
    ensures Serves(s, Dispatch(s))
  {
    Front(s);
    if s.queue[0].KeyChanged? {
      ChangeIsCurrent(s);
    }
    var d := ClassifierHandle(s.cls.state, s.queue[0]);
    if d.Transition? {
      MoveServes(s, d.next);
    } else {
      NoticeServes(s);
    }
  }

  lemma DispatchSimulated(s: Sys)
    requires Inv(s) && !s.stopped && Enabled(s, DispatchFront)
    ensures Simulated(s, DispatchFront)
  {
    Front(s);
    match s.queue[0]
    case RawTransition(_) =>
      if Accepts(s, s.queue[0]) { AcceptedServes(s); } else { IgnoredServes(s); }
      OneStep(s, DispatchFront, ServeFront);
    case DebounceExpired =>
      UnlockServes(s);
      OneStep(s, DispatchFront, ServeFront);
    case Send(_) =>
      ShowServes(s);
    case _ =>
      ClassifierServes(s);
      OneStep(s, DispatchFront, ServeFront);
  }

  // ---- Firing ---------------------------------------------------------------------------------

  function TimerInput(e: Envelope): Input
    requires IsTimer(e)
  {
    InputOf(e)[0]
  }

  /** The timer envelope that is `x` to the button. */
  function TimerOf(x: Input): Envelope
    requires x.Unlock? || x.Hold? || x.Lapse?
  {
    if x.Unlock? then DebounceExpired else if x.Hold? then LongPressExpired else DoubleClickExpired
  }

  lemma {:induction false} InputsOfTimers(q: seq<Envelope>)
    requires forall i :: 0 <= i < |q| ==> IsTimer(q[i])
    ensures |Inputs(q)| == |q| && forall i :: 0 <= i < |q| ==> Inputs(q)[i] == TimerInput(q[i])
  {
    if q != [] {
      InputsOfTimers(q[1..]);
    }
  }

  lemma {:induction false} InInputs(q: seq<Envelope>, x: Input)
    requires x.Unlock? || x.Hold? || x.Lapse?
    ensures x in Inputs(q) <==> Count(q, TimerOf(x)) > 0
  {
    if q != [] {
      InInputs(q[1..], x);
      assert x in InputOf(q[0]) <==> q[0] == TimerOf(x);
    }
  }

  /** The timer that stands for a deadline of the button. */
  function OwnerOf(s: Sys, x: Input): Option<nat> {
    if x.Unlock? then s.deb.timer else s.cls.timer
  }

  /** An armed timer is a deadline of the button. */
  lemma ArmedIsDeadline(s: Sys, k: nat)
    requires Resources(s) && Mirrors(s) && k in s.timers.live
    ensures IsTimer(s.timers.live[k].envelope)
    ensures var x := TimerInput(s.timers.live[k].envelope);
            WaitsFor(View(s), x) && Deadline(View(s), x) == s.timers.live[k].due && OwnerOf(s, x) == Some(k)
  {
    assert OwnedTimer(s, k, s.timers.live[k]);
  }

  /** What the firing of `s` at time `now` finds. */
  ghost predicate Fires(s: Sys, now: int, batch: seq<nat>) {
    && Resources(s) && Mirrors(s) && TimerCounts(s) && !s.stopped && Todo(s.pos) == []
    && T.IsBatch(s.timers, now, batch)
  }

  function At(s: Sys, now: int): Button {
    View(s).(now := now)
  }

  lemma CollectedInputs(s: Sys, batch: seq<nat>)
    requires Resources(s) && Mirrors(s) && forall k :: k in batch ==> k in s.timers.live
    ensures var due := Inputs(Collected(s, batch));
            && |due| == |batch|
            && forall i :: 0 <= i < |batch| ==>
                 batch[i] in s.timers.live && IsTimer(s.timers.live[batch[i]].envelope)
                 && due[i] == TimerInput(s.timers.live[batch[i]].envelope)
  {
    forall i | 0 <= i < |batch| ensures batch[i] in s.timers.live && IsTimer(Collected(s, batch)[i]) {
      assert batch[i] in batch;
      ArmedIsDeadline(s, batch[i]);
    }
    InputsOfTimers(Collected(s, batch));
  }

  /** A deadline that has passed is armed, or its envelope waits in the queue. */
  lemma DeadlineIsArmed(s: Sys, x: Input)
    requires Resources(s) && TimerCounts(s) && !s.stopped && Todo(s.pos) == [] && WaitsFor(View(s), x)
    ensures IsArmed(s, OwnerOf(s, x)) <==> x !in Inputs(s.queue)
  {
    InInputs(s.queue, x);
    assert Pending(s, TimerOf(x)) == Count(s.queue, TimerOf(x)) + 0;
  }

  lemma DueIsFired(s: Sys, now: int, batch: seq<nat>, x: Input)
    requires Fires(s, now, batch) && Expired(At(s, now), x) && x !in Inputs(s.queue)
    ensures x in Inputs(Collected(s, batch))
  {
    DeadlineIsArmed(s, x);
    var k := OwnerOf(s, x).value;
    ArmedIsDeadline(s, k);
    CollectedInputs(s, batch);
    assert k in batch;
    var i :| 0 <= i < |batch| && batch[i] == k;
    assert Inputs(Collected(s, batch))[i] == x;
  }

  lemma FiredIsDue(s: Sys, now: int, batch: seq<nat>, i: nat)
    requires Fires(s, now, batch) && i < |batch|
    ensures |Inputs(Collected(s, batch))| == |batch|
    ensures var x := Inputs(Collected(s, batch))[i];
            && Expired(At(s, now), x) && x !in Inputs(s.queue)
            && batch[i] in s.timers.live && Deadline(At(s, now), x) == s.timers.live[batch[i]].due
            && OwnerOf(s, x) == Some(batch[i])
  {
    CollectedInputs(s, batch);
    assert batch[i] in batch;
    ArmedIsDeadline(s, batch[i]);
    DeadlineIsArmed(s, Inputs(Collected(s, batch))[i]);
  }

  lemma BatchIsDue(s: Sys, now: int, batch: seq<nat>)
    requires Fires(s, now, batch)
    ensures IsDue(At(s, now), Inputs(s.queue), Inputs(Collected(s, batch)))
  {
    var due := Inputs(Collected(s, batch));
    CollectedInputs(s, batch);
    forall x ensures x in due <==> Expired(At(s, now), x) && x !in Inputs(s.queue) {
      if x in due {
        var i :| 0 <= i < |due| && due[i] == x;
        FiredIsDue(s, now, batch, i);
      } else if Expired(At(s, now), x) && x !in Inputs(s.queue) {
        DueIsFired(s, now, batch, x);
      }
    }
    forall i, j | 0 <= i < j < |due|
      ensures due[i] != due[j] && Expired(At(s, now), due[i]) && Expired(At(s, now), due[j])
      ensures Deadline(At(s, now), due[i]) <= Deadline(At(s, now), due[j])
    {
      FiredIsDue(s, now, batch, i);
      FiredIsDue(s, now, batch, j);
    }
  }

  lemma FireView(s: Sys, now: int, batch: seq<nat>, manual: bool)
    requires forall k :: k in batch ==> k in s.timers.live
    ensures ClientOf(Fire(s, now, batch, manual)) == Client(At(s, now), Inputs(Collected(s, batch)), Inputs(s.queue))
  {
  }

  lemma FiringPerforms(s: Sys, d: int, now: int, batch: seq<nat>, manual: bool)
    requires Fires(s, now, batch) && d >= 0 && now == s.now + d
    ensures var step := Expire(d, Inputs(Collected(s, batch)));
            Possible(ClientOf(s), step) && Perform(ClientOf(s), step) == ClientOf(Fire(s, now, batch, manual))
  {
    BatchIsDue(s, now, batch);
    assert At(s, now) == Later(View(s), d);
    FireView(s, now, batch, manual);
  }

  lemma FireSimulated(s: Sys, batch: seq<nat>)
    requires Fires(s, s.now, batch) && Enabled(s, FireDue(batch))
    ensures Simulated(s, FireDue(batch))
  {
    FiringPerforms(s, 0, s.now, batch, false);
    OneStep(s, FireDue(batch), Expire(0, Inputs(Collected(s, batch))));
  }

  lemma AdvanceSimulated(s: Sys, d: int, batch: seq<nat>)
    requires Fires(s, s.now + d, batch) && Enabled(s, Advance(d, batch))
    ensures Simulated(s, Advance(d, batch))
  {
    var step := Expire(d, Inputs(Collected(s, batch)));
    FiringPerforms(s, d, s.now + d, batch, true);
    OneStep(s, Advance(d, batch), step);
  }

  lemma FiringSimulated(s: Sys, a: Action)
    requires Inv(s) && !s.stopped && Enabled(s, a) && (a.Advance? || a.FireDue?)
    ensures Simulated(s, a)
  {
    if a.Advance? { AdvanceSimulated(s, a.delta, a.batch); } else { FireSimulated(s, a.batch); }
  }

  // ---- The other actions ----------------------------------------------------------------------

  lemma PostHeadView(s: Sys)
    requires Firing(s.pos) && s.pos.todo != [] && !s.stopped && IsTimer(s.pos.todo[0])
    ensures ClientOf(PostHead(s))
         == Client(View(s), Inputs(s.pos.todo[1..]), Inputs(s.queue) + [InputOf(s.pos.todo[0])[0]])
  {
    InputsAppend(s.queue, s.pos.todo[0]);
  }

  lemma PostFiredSimulated(s: Sys)
    requires Inv(s) && !s.stopped && Enabled(s, PostFired)
    ensures Simulated(s, PostFired)
  {
    InputsCons(s.pos.todo);
    PostHeadView(s);
    OneStep(s, PostFired, Enqueue);
  }

  lemma PostSimulated(s: Sys, p: bool)
    requires !s.stopped
    ensures Simulated(s, ExternalPost(p))
  {
    InputsAppend(s.queue, RawTransition(p));
    OneStep(s, ExternalPost(p), Arrive(p));
  }

  lemma TickSimulated(s: Sys, d: int)
    requires Enabled(s, Tick(d))
    ensures Simulated(s, Tick(d))
  {
    OneStep(s, Tick(d), Pass(d));
  }

  lemma MoveOnSimulated(s: Sys, a: Action)
    requires Enabled(s, a) && IsMove(a)
    ensures Simulated(s, a)
  {
    MoveTarget(s, a);
    PosUnseen(s, Apply(s, a).pos);
  }

  lemma PosUnseen(s: Sys, p: Position)
    ensures View(s.(pos := p)) == View(s)
  {
  }

  lemma ActionSimulated(s: Sys, a: Action)
    requires Inv(s) && !s.stopped && Enabled(s, a) && !a.Stop?
    ensures Simulated(s, a)
  {
    if IsMove(a) {
      MoveOnSimulated(s, a);
    } else if a.Advance? || a.FireDue? {
      FiringSimulated(s, a);
    } else {
      match a
      case ExternalPost(p) => PostSimulated(s, p);
      case Tick(d) => TickSimulated(s, d);
      case PostFired => PostFiredSimulated(s);
      case DispatchFront => DispatchSimulated(s);
    }
  }

  // ---- Runs -----------------------------------------------------------------------------------

  ghost function AllStepsOf(s: Sys, run: seq<Action>): seq<Step>
    requires Allowed(s, run)
    decreases |run|
  {
    if run == [] then [] else StepsOf(s, run[0]) + AllStepsOf(Apply(s, run[0]), run[1..])
  }

  ghost predicate NoStop(run: seq<Action>) {
    forall i :: 0 <= i < |run| ==> !run[i].Stop?
  }

  lemma ActionGoesOn(s: Sys, a: Action)
    requires Inv(s) && !s.stopped && Enabled(s, a) && !a.Stop?
    ensures Inv(Apply(s, a)) && !Apply(s, a).stopped
  {
    ActionInv(s, a);
    if a.DispatchFront? { DispatchKeepsPos(s); }
  }

  lemma {:induction false} RunSimulated(s: Sys, run: seq<Action>)
    requires Inv(s) && !s.stopped && Allowed(s, run) && NoStop(run)
    ensures AllPossible(ClientOf(s), AllStepsOf(s, run))
    ensures ClientOf(After(s, run)) == PerformAll(ClientOf(s), AllStepsOf(s, run))
    decreases |run|
  {
    if run != [] {
      ActionSimulated(s, run[0]);
      ActionGoesOn(s, run[0]);
      RunSimulated(Apply(s, run[0]), run[1..]);
      PerformBoth(ClientOf(s), StepsOf(s, run[0]), AllStepsOf(Apply(s, run[0]), run[1..]));
    }
  }

  lemma StartsUp(now: int, manual: bool, capacity: nat)
    requires capacity >= 1
    ensures ClientOf(Initial(now, manual, capacity)) == Client(Button(now, false, None, Up, []), [], [])
  {
  }

  /** Every run before stop, under either clock, with posts, ticks, advances, firings and dispatches in
      any order the program allows: the pipeline is the button with its inbox. */
  lemma EveryRunIsButton(r: Run)
    requires Legal(r) && NoStop(r.actions)
    ensures
      var c := Client(Button(r.now, false, None, Up, []), [], []);
      var steps := AllStepsOf(Start(r.now, r.manual, r.capacity), r.actions);
      && AllPossible(c, steps)
      && PerformAll(c, steps) == Client(View(Final(r)), Inputs(Todo(Final(r).pos)), Inputs(Final(r).queue))
  {
    var s0 := Start(r.now, r.manual, r.capacity);
    StartInv(r.now, r.manual, r.capacity);
    StartEffect(r.now, r.manual, r.capacity);
    StartsUp(r.now, r.manual, r.capacity);
    RunSimulated(s0, r.actions);
  }
}
