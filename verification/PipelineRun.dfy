/** `run` from its call to its return: what it has done when it returns, what a stop leaves to be done, and
    the order in which it waits, fires and drains. */
module PipelineRun {
  import opened Options
  import opened PipelineModel
  import opened PipelineInvariant
  import opened PipelineTheorems
  import opened PipelineStale
  import opened PipelineClient
  import C = CacheSpec

  predicate InRun(p: Position) {
    p.RunWait? || p.RunFiring? || p.RunDrain? || p.RunCheck? || p.RunFinal?
  }

  // ---- Stopped for good -----------------------------------------------------------------------

  /** Handlers post nothing once stop was requested, and do not take it back. */
  ghost predicate Quiet(s: Sys, t: Sys) {
    s.stopped ==> t.stopped && t.queue == s.queue
  }

  lemma {:induction false} QuietNotes(s: Sys, notes: seq<Note>)
    ensures Quiet(s, PostNotes(s, notes))
    decreases |notes|
  {
    if notes != [] {
      QuietNotes(Post(s, KeyChanged(notes[0])), notes[1..]);
    }
  }

  lemma QuietSet(s: Sys, k: Key, v: Value)
    ensures Quiet(s, SetKey(s, k, v))
  {
    QuietNotes(s.(cache := C.Set(s.cache, k, v)), C.SetNotes(s.cache, k, v));
  }

  lemma QuietDebouncer(s: Sys, e: Envelope)
    ensures Quiet(s, DebouncerStep(s, e))
  {
    if e.RawTransition? {
      QuietSet(s, ButtonKey, Bit(e.pressed));
    }
  }

  lemma QuietExit(s: Sys)
    ensures Quiet(s, ClassifierExit(s))
  {
  }

  lemma QuietEnter(s: Sys, state: ClsState)
    ensures Quiet(s, ClassifierEnter(s, state))
  {
  }

  lemma QuietClassifier(s: Sys, e: Envelope)
    ensures Quiet(s, ClassifierStep(s, e))
  {
    var s1 := if ButtonChange(e) then s.(hist := s.hist.(seen := Some(e.note.after))) else s;
    var s2 := ClassifierSends(s1, e);
    var d := ClassifierHandle(s2.cls.state, e);
    if d.Transition? {
      QuietExit(s2);
      QuietEnter(ClassifierExit(s2), d.next);
    }
  }

  lemma QuietUi(s: Sys, e: Envelope)
    ensures Quiet(s, UiStep(s, e))
  {
    var s1 := if e.Send? then s.(hist := s.hist.(handled := s.hist.handled + [e.gesture])) else s;
    var d := UiHandle(s1.ui, e);
    if d.Transition? {
      QuietSet(s1.(ui := d.next), UiModeKey, Mode(d.next));
    }
  }

  lemma StoppedDispatch(s: Sys)
    requires s.stopped && s.queue != []
    ensures Dispatch(s).stopped && Dispatch(s).queue == s.queue[1..]
  {
    var t := s.(queue := s.queue[1..]);
    QuietDebouncer(t, s.queue[0]);
    QuietClassifier(t, s.queue[0]);
    QuietUi(t, s.queue[0]);
  }

  function DispatchesIn(run: seq<Action>): nat {
    if run == [] then 0 else (if run[0].DispatchFront? then 1 else 0) + DispatchesIn(run[1..])
  }

  /** After stop nothing enters the queue any more, no raw transition, no expiry, no change and no gesture:
      what is left of it is what has not been dispatched. */
  lemma {:induction false} StopIsFinal(s: Sys, run: seq<Action>)
    requires s.stopped && Allowed(s, run)
    ensures DispatchesIn(run) <= |s.queue|
    ensures After(s, run).stopped && After(s, run).queue == s.queue[DispatchesIn(run)..]
    decreases |run|
  {
    if run != [] {
      if run[0].DispatchFront? { StoppedDispatch(s); }
      StopIsFinal(Apply(s, run[0]), run[1..]);
    }
  }

  // ---- The return -----------------------------------------------------------------------------

  lemma PosAfterDispatch(s: Sys)
    requires s.queue != []
    ensures Dispatch(s).pos == s.pos
  {
    DispatchModerate(s);
  }

  /** The last drain of `run` comes after a stop. */
  ghost predicate FinalStopped(s: Sys) {
    s.pos.RunFinal? ==> s.stopped
  }

  lemma FinalStays(s: Sys, a: Action)
    requires FinalStopped(s) && Enabled(s, a)
    ensures FinalStopped(Apply(s, a))
  {
    if a.DispatchFront? {
      PosAfterDispatch(s);
      if s.stopped { StoppedDispatch(s); }
    }
  }

  lemma {:induction false} FinalMeansStopped(s: Sys, run: seq<Action>)
    requires FinalStopped(s) && Allowed(s, run)
    ensures FinalStopped(After(s, run))
    decreases |run|
  {
    if run != [] {
      FinalStays(s, run[0]);
      FinalMeansStopped(Apply(s, run[0]), run[1..]);
    }
  }

  /** Whatever happens, `run` returns only after a stop and with an empty queue. */
  lemma RunReturnsDrained(r: Run, a: Action)
    requires Legal(r) && Enabled(Final(r), a)
    requires InRun(Final(r).pos) && !InRun(Apply(Final(r), a).pos)
    ensures Final(r).stopped && Final(r).queue == [] && Apply(Final(r), a).queue == []
  {
    StartEffect(r.now, r.manual, r.capacity);
    FinalMeansStopped(Start(r.now, r.manual, r.capacity), r.actions);
    if a.DispatchFront? { PosAfterDispatch(Final(r)); }
  }

  /** Everything that was in the queue after a stop during `run` has been dispatched when it returns, and
      nothing besides. `before` leads to a moment after the stop, `rest` to the return by `last`. */
  lemma StopDrainsRun(r: Run, before: seq<Action>, rest: seq<Action>, last: Action)
    requires Legal(r) && r.actions == before + rest
    requires Allowed(Start(r.now, r.manual, r.capacity), before)
    requires After(Start(r.now, r.manual, r.capacity), before).stopped
    requires Enabled(Final(r), last) && InRun(Final(r).pos) && !InRun(Apply(Final(r), last).pos)
    ensures DispatchesIn(rest) == |After(Start(r.now, r.manual, r.capacity), before).queue|
  {
    var s0 := Start(r.now, r.manual, r.capacity);
    AfterSplit(s0, before, rest);
    StopIsFinal(After(s0, before), rest);
    RunReturnsDrained(r, last);
  }

  // ---- Waiting, firing, draining --------------------------------------------------------------

  function FiringsIn(run: seq<Action>): nat {
    if run == [] then 0 else (if run[0].FireDue? then 1 else 0) + FiringsIn(run[1..])
  }

  /** A stop ends the rounds: a loop that waits fires once more if something is queued, and any other does
      not fire again, until `run` is called anew. */
  lemma {:induction false} NoRoundAfterStop(s: Sys, run: seq<Action>)
    requires s.stopped && Allowed(s, run) && forall i :: 0 <= i < |run| ==> !run[i].CallRun?
    ensures FiringsIn(run) <= if s.pos.RunWait? && s.queue != [] then 1 else 0
    decreases |run|
  {
    if run != [] {
      if run[0].DispatchFront? {
        PosAfterDispatch(s);
        StoppedDispatch(s);
      }
      NoRoundAfterStop(Apply(s, run[0]), run[1..]);
    }
  }

  /** In a waiting loop nothing is dispatched before timers have been fired. */
  lemma {:induction false} NoDrainBeforeFiring(s: Sys, run: seq<Action>)
    requires s.pos.RunWait? || s.pos.Outside? || s.pos.ManualFiring?
    requires Allowed(s, run) && forall i :: 0 <= i < |run| ==> !run[i].FireDue? && !run[i].CallRunOne?
    ensures DispatchesIn(run) == 0
    decreases |run|
  {
    if run != [] {
      NoDrainBeforeFiring(Apply(s, run[0]), run[1..]);
    }
  }

  /** And the loop does not fire again before the queue has been drained to empty and stop been checked. */
  lemma {:induction false} NoFiringBeforeCheck(s: Sys, run: seq<Action>)
    requires s.pos.RunFiring? || s.pos.RunDrain? || s.pos.RunCheck?
    requires Allowed(s, run) && forall i :: 0 <= i < |run| ==> !run[i].CheckStop?
    ensures FiringsIn(run) == 0
    ensures s.pos.RunCheck? ==> DispatchesIn(run) == 0
    decreases |run|
  {
    if run != [] {
      if run[0].DispatchFront? { PosAfterDispatch(s); }
      NoFiringBeforeCheck(Apply(s, run[0]), run[1..]);
    }
  }

  /** Every drain, that of `run_one` as those of `run`, ends with an empty queue, and it is a drain that the
      check follows. */
  lemma DrainsEndEmpty(s: Sys, a: Action)
    requires Enabled(s, a) && Apply(s, a).pos != s.pos
    ensures Draining(s.pos) ==> s.queue == [] && Apply(s, a).queue == []
    ensures Apply(s, a).pos.RunCheck? ==> s.pos.RunDrain?
    ensures Draining(Apply(s, a).pos) ==> s.pos.Outside? || s.pos == RunFiring([]) || (s.pos.RunCheck? && s.stopped)
  {
    if a.DispatchFront? { PosAfterDispatch(s); }
  }
}
