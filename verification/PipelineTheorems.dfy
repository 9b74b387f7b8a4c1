/** What holds in every reachable state of the pipeline. */
module PipelineTheorems {
  import opened Options
  import opened PipelineModel
  import opened PipelineInvariant
  import opened PipelineSteps
  import opened PipelineDispatch
  import C = CacheSpec
  import T = TimerSpec

  /** A run from `start`: any clock kind, any pool with room for one subscription, any actions. */
  datatype Run = Run(now: int, manual: bool, capacity: nat, actions: seq<Action>)

  ghost predicate Legal(r: Run) {
    r.capacity >= 1 && Allowed(Start(r.now, r.manual, r.capacity), r.actions)
  }

  ghost function Final(r: Run): Sys
    requires Legal(r)
  {
    After(Start(r.now, r.manual, r.capacity), r.actions)
  }

  lemma ActionInv(s: Sys, a: Action)
    requires Inv(s) && Enabled(s, a)
    ensures Inv(Apply(s, a)) && Apply(s, a).manual == s.manual
  {
    if a == DispatchFront { DispatchInv(s); } else { StepInv(s, a); }
  }

  lemma {:induction false} AfterInv(s: Sys, run: seq<Action>)
    requires Inv(s) && Allowed(s, run)
    ensures Inv(After(s, run)) && After(s, run).manual == s.manual
    decreases |run|
  {
    if run != [] {
      ActionInv(s, run[0]);
      AfterInv(Apply(s, run[0]), run[1..]);
    }
  }

  lemma Reached(r: Run)
    requires Legal(r)
    ensures Inv(Final(r)) && Final(r).manual == r.manual
  {
    StartInv(r.now, r.manual, r.capacity);
    AfterInv(Start(r.now, r.manual, r.capacity), r.actions);
  }

  /** No timer envelope sits behind a `KeyChanged`; at most one classifier timer envelope is queued;
      each one is dispatched in the state that armed it. So gating on the payload type is sound. */
  lemma NoStaleGestures(r: Run)
    requires Legal(r)
    ensures TimersFirst(Final(r).queue)
    ensures Pending(Final(r), LongPressExpired) + Pending(Final(r), DoubleClickExpired) <= 1
    ensures forall i :: 0 <= i < |Final(r).queue| && Final(r).queue[i] == LongPressExpired ==> Final(r).cls.state == Pressed
    ensures forall i :: 0 <= i < |Final(r).queue| && Final(r).queue[i] == DoubleClickExpired ==> Final(r).cls.state == AwaitingSecondClick
    ensures forall i :: 0 <= i < |Final(r).queue| && Final(r).queue[i] == DebounceExpired ==> Final(r).deb.state == CoolingDown
  {
    Reached(r);
    var s := Final(r);
    forall i | 0 <= i < |s.queue| && IsTimer(s.queue[i])
      ensures Pending(s, s.queue[i]) >= 1
    {
      CountPresent(s.queue, i);
    }
  }

  lemma {:induction false} CountPresent(q: seq<Envelope>, i: nat)
    requires i < |q|
    ensures Count(q, q[i]) >= 1
  {
    if i > 0 {
      CountPresent(q[1..], i - 1);
    }
  }

  /** Outside a drain the queue holds only raw transitions and timer envelopes. This is what makes
      `fire_due` safe: `run` calls it only there. */
  lemma NoChangeWhenFiring(r: Run)
    requires Legal(r) && !Draining(Final(r).pos)
    ensures forall i :: 0 <= i < |Final(r).queue| ==> Final(r).queue[i].RawTransition? || IsTimer(Final(r).queue[i])
  {
    Reached(r);
    NoNotes(Final(r).queue);
    NoGestures(Final(r).queue);
  }

  lemma {:induction false} NoGestures(q: seq<Envelope>)
    ensures Gestures(q) == [] <==> forall i :: 0 <= i < |q| ==> !q[i].Send?
  {
    if q != [] {
      NoGestures(q[1..]);
      assert forall i :: 1 <= i < |q| ==> q[i] == q[1..][i - 1];
    }
  }

  /** Every committed press ends in exactly one gesture or is still on its way. */
  lemma PressConservation(r: Run)
    requires Legal(r) && !Final(r).stopped
    ensures Presses(Final(r).hist.commits)
         == Credits(Final(r).hist.sent) + Undelivered(Final(r).cls.state) + QueuedPresses(Final(r).queue)
  {
    Reached(r);
  }

  /** Gestures reach the UiController in the order sent, none lost, none duplicated; the published
      mode is the fold of those handled. */
  lemma GestureDelivery(r: Run)
    requires Legal(r)
    ensures !Final(r).stopped ==> Kinds(Final(r).hist.sent) == Final(r).hist.handled + Gestures(Final(r).queue)
    ensures Final(r).ui == UiAfter(Final(r).hist.handled)
    ensures C.Get(Final(r).cache, UiModeKey) == Some(Mode(Final(r).ui))
  {
    Reached(r);
  }

  /** The debounce, long-press and double-click windows, in milliseconds. No gesture comes before its
      window has passed, and the timer that brings it is due exactly when it has. */
  lemma TimedGestures(r: Run)
    requires Legal(r)
    ensures forall i :: 0 < i < |Final(r).hist.commits| ==>
      Final(r).hist.commits[i].at >= Final(r).hist.commits[i - 1].at + 5
    ensures forall i :: 0 <= i < |Final(r).hist.sent| ==> KeepsWindow(r.manual, Final(r).hist.sent[i])
    ensures forall k :: k in Final(r).timers.live ==> DueAtEnd(Final(r), Final(r).timers.live[k])
    ensures r.manual ==> forall k :: k in Final(r).timers.live ==> Final(r).timers.live[k].due > Final(r).now
  {
    Reached(r);
    var s := Final(r);
    forall i | 0 <= i < |s.hist.sent| ensures KeepsWindow(r.manual, s.hist.sent[i]) {
      assert Timely(r.manual, s.hist.sent[i]);
    }
    forall k | k in s.timers.live ensures DueAtEnd(s, s.timers.live[k]) {
      assert OwnedTimer(s, k, s.timers.live[k]);
    }
  }

  /** When a gesture may be sent. A double click's window was open when timers were last fired. */
  predicate KeepsWindow(manual: bool, g: Sent) {
    match g.gesture
    case LongPress => g.at >= g.entered + 500
    case Click => g.at >= g.entered + 300
    case DoubleClick => g.at >= g.entered >= g.asOf && g.asOf < g.awaited + 300 && (manual ==> g.entered < g.awaited + 300)
  }

  /** When an armed timer is due. */
  predicate DueAtEnd(s: Sys, t: T.Armed<Envelope>) {
    match t.envelope
    case DebounceExpired => s.hist.commits != [] && t.due == LastCommit(s).at + 5
    case LongPressExpired => s.cls.state == Pressed && t.due == s.hist.entered + 500
    case DoubleClickExpired => s.cls.state == AwaitingSecondClick && t.due == s.hist.entered + 300
    case _ => false
  }

  /** Committed values alternate starting with a press, and at most one change is on its way: the
      classifier has seen all the others. */
  lemma ClassifierInSync(r: Run)
    requires Legal(r)
    ensures CommitsAlternate(Final(r).hist.commits)
    ensures |Notes(Final(r).queue)| <= 1
    ensures !Final(r).stopped ==>
      C.Get(Final(r).cache, ButtonKey)
      == if Notes(Final(r).queue) == [] then Final(r).hist.seen else Some(Notes(Final(r).queue)[0].after)
    ensures Notes(Final(r).queue) != [] ==> Notes(Final(r).queue)[0].before == Final(r).hist.seen
  {
    Reached(r);
  }

  /** The branches that the comments call impossible, and the only way a release reaches Idle. */
  lemma ImpossibleBranches(r: Run, e: Envelope)
    requires Legal(r) && Draining(Final(r).pos) && Final(r).queue != [] && e == Final(r).queue[0] && e.KeyChanged?
    ensures e.note.key == ButtonKey && e.note.to == ClickClassifier && e.note.after.Bit?
    ensures e.note.after == Bit(true) ==> Final(r).cls.state != Pressed && Final(r).cls.state != SecondPressed
    ensures e.note.after == Bit(false) ==> Final(r).cls.state != AwaitingSecondClick
    ensures e.note.after == Bit(false) && Final(r).cls.state == Idle ==>
      Final(r).hist.sent != [] && Final(r).hist.sent[|Final(r).hist.sent| - 1].gesture == LongPress
  {
    Reached(r);
    var s := Final(r);
    Front(s);
    assert Notes(s.queue)[0] == e.note;
  }

  /** Subscriptions and timers live exactly as long as their states, with one pool slot enough. */
  lemma ResourceAccounting(r: Run)
    requires Legal(r)
    ensures !Final(r).faulted
    ensures |Final(r).cache.subs| == 1
    ensures forall k :: k in Final(r).timers.live ==> Final(r).deb.timer == Some(k) || Final(r).cls.timer == Some(k)
    ensures Final(r).deb.timer.Some? <==> Final(r).deb.state == CoolingDown
    ensures Final(r).cls.timer.Some? <==> Final(r).cls.state == Pressed || Final(r).cls.state == AwaitingSecondClick
    ensures !Final(r).stopped ==>
      (Final(r).deb.state == CoolingDown <==> Pending(Final(r), DebounceExpired) + B(IsArmed(Final(r), Final(r).deb.timer)) == 1)
    ensures !Final(r).stopped ==>
      |Final(r).timers.live| == B(Final(r).deb.state == CoolingDown) - Pending(Final(r), DebounceExpired)
                              + B(Final(r).cls.timer.Some?) - Pending(Final(r), LongPressExpired) - Pending(Final(r), DoubleClickExpired)
  {
    Reached(r);
    LiveCount(Final(r));
  }

  lemma KeyCount(live: set<nat>, d: Option<nat>, c: Option<nat>)
    requires forall k :: k in live ==> d == Some(k) || c == Some(k)
    requires d.Some? ==> d != c
    ensures |live| == B(d.Some? && d.value in live) + B(c.Some? && c.value in live)
  {
    var ds := if d.Some? && d.value in live then {d.value} else {};
    var cs := if c.Some? && c.value in live then {c.value} else {};
    assert live == ds + cs && ds !! cs;
    assert |ds| == B(d.Some? && d.value in live) && |cs| == B(c.Some? && c.value in live);
    assert |ds + cs| == |ds| + |cs|;
  }

  lemma LiveCount(s: Sys)
    requires Resources(s)
    ensures |s.timers.live| == B(IsArmed(s, s.deb.timer)) + B(IsArmed(s, s.cls.timer))
    ensures forall k :: k in s.timers.live ==> s.deb.timer == Some(k) || s.cls.timer == Some(k)
  {
    Owned(s);
    KeyCount(s.timers.live.Keys, s.deb.timer, s.cls.timer);
    assert |s.timers.live| == |s.timers.live.Keys|;
  }

  lemma Owned(s: Sys)
    requires Resources(s)
    ensures forall k :: k in s.timers.live ==> s.deb.timer == Some(k) || s.cls.timer == Some(k)
  {
    forall k | k in s.timers.live ensures s.deb.timer == Some(k) || s.cls.timer == Some(k) {
      assert OwnedTimer(s, k, s.timers.live[k]);
    }
  }

  /** Leaving a state frees its subscription before the next state takes one. */
  lemma NeverTwoSubscriptions(r: Run)
    requires Legal(r)
    ensures ClassifierExit(Final(r)).cache.subs == []
    ensures forall state :: |ClassifierEnter(ClassifierExit(Final(r)), state).cache.subs| == 1
    ensures forall state :: !ClassifierEnter(ClassifierExit(Final(r)), state).faulted
  {
    Reached(r);
    var s := Final(r);
    ExitEffect(s);
    forall state ensures |ClassifierEnter(ClassifierExit(s), state).cache.subs| == 1
                 && !ClassifierEnter(ClassifierExit(s), state).faulted {
      EnterEffect(ClassifierExit(s), state);
    }
  }
}
