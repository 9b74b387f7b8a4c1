/** `run_one` on the pipeline: how long a drain can take. */
module PipelineDraining {
  import opened PipelineModel
  import opened PipelineInvariant
  import opened PipelineDispatch
  import C = CacheSpec

  // ---- A drain is short -----------------------------------------------------------------------

  /** How many dispatches an envelope can cause, itself included. */
  function Weight(e: Envelope): nat {
    match e
    case RawTransition(_) => 3
    case KeyChanged(_) => 2
    case LongPressExpired => 2
    case DoubleClickExpired => 2
    case _ => 1
  }

  function Weights(q: seq<Envelope>): nat {
    if q == [] then 0 else Weight(q[0]) + Weights(q[1..])
  }

  lemma {:induction false} WeightsAppend(q: seq<Envelope>, e: Envelope)
    ensures Weights(q + [e]) == Weights(q) + Weight(e)
  {
    if q == [] {
      assert q + [e] == [e];
    } else {
      assert (q + [e])[1..] == q[1..] + [e];
      WeightsAppend(q[1..], e);
    }
  }

  lemma {:induction false} WeightsBound(q: seq<Envelope>)
    ensures |q| <= Weights(q) <= 3 * |q|
  {
    if q != [] {
      WeightsBound(q[1..]);
    }
  }

  lemma ClassifierLighter(s: Sys)
    requires Resources(s) && s.queue != [] && FrontOk(s) && To(s.queue[0]) == ClickClassifier
    ensures Weights(Dispatch(s).queue) < Weights(s.queue)
  {
    SendingEffect(s);
    if Emitted(s).Some? {
      WeightsAppend(s.queue[1..], Send(Emitted(s).value));
    }
    var d := ClassifierHandle(s.cls.state, s.queue[0]);
    if d.Transition? {
      MoveEffect(s, d.next);
    }
  }

  lemma CommitLighter(s: Sys)
    requires Resources(s) && s.queue != [] && Accepts(s, s.queue[0])
    ensures Weights(Dispatch(s).queue) < Weights(s.queue)
  {
    CommitEffect(s);
    WeightsAppend(s.queue[1..], KeyChanged(C.Note(ClickClassifier, ButtonKey, C.Get(s.cache, ButtonKey), Bit(s.queue[0].pressed))));
  }

  lemma DispatchLighter(s: Sys)
    requires Inv(s) && s.queue != [] && Draining(s.pos)
    ensures Weights(Dispatch(s).queue) < Weights(s.queue)
  {
    Front(s);
    match s.queue[0]
    case RawTransition(_) => if Accepts(s, s.queue[0]) { CommitLighter(s); } else { IgnoredEffect(s); }
    case DebounceExpired => SettleEffect(s);
    case Send(_) => ShowEffect(s);
    case _ => ClassifierLighter(s);
  }

  lemma {:induction false} DispatchesWeigh(s: Sys, run: seq<Action>)
    requires Inv(s) && Allowed(s, run)
    requires forall i :: 0 <= i < |run| ==> run[i] == DispatchFront
    ensures |run| + Weights(After(s, run).queue) <= Weights(s.queue)
    decreases |run|
  {
    if run != [] {
      DispatchInv(s);
      DispatchLighter(s);
      DispatchesWeigh(Dispatch(s), run[1..]);
    }
  }

  /** A drain that nobody interrupts dispatches at most three envelopes per queued one. */
  lemma DrainIsShort(s: Sys, run: seq<Action>)
    requires Inv(s) && Allowed(s, run)
    requires forall i :: 0 <= i < |run| ==> run[i] == DispatchFront
    ensures |run| <= 3 * |s.queue|
  {
    DispatchesWeigh(s, run);
    WeightsBound(s.queue);
  }

  /** The whole of `run_one`: dispatch until the queue is empty. */
  ghost function Drain(s: Sys): (s': Sys)
    requires Inv(s) && Draining(s.pos)
    ensures s'.queue == []
    decreases Weights(s.queue)
  {
    if s.queue == [] then s
    else
      DispatchInv(s);
      DispatchLighter(s);
      DispatchKeepsPos(s);
      Drain(Dispatch(s))
  }

  lemma DispatchKeepsPos(s: Sys)
    requires Inv(s) && s.queue != [] && Draining(s.pos)
    ensures Dispatch(s).pos == s.pos && Dispatch(s).stopped == s.stopped
  {
    Front(s);
    match s.queue[0]
    case RawTransition(_) => if Accepts(s, s.queue[0]) { CommitEffect(s); } else { IgnoredEffect(s); }
    case DebounceExpired => SettleEffect(s);
    case Send(_) => ShowEffect(s);
    case _ =>
      SendingEffect(s);
      var d := ClassifierHandle(s.cls.state, s.queue[0]);
      if d.Transition? { MoveEffect(s, d.next); }
  }
}
