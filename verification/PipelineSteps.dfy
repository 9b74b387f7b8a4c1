/** Every action outside a dispatch keeps the invariant. */
module PipelineSteps {
  import opened Options
  import opened PipelineModel
  import opened PipelineInvariant
  import T = TimerSpec

  /** Three parts of the invariant do not mention the queue. */
  lemma StateParts(s: Sys, s': Sys)
    requires s' == s.(queue := s'.queue, pos := s'.pos, stopped := s'.stopped)
    requires Resources(s) && Mirrors(s) && Timing(s)
    ensures Resources(s') && Mirrors(s') && Timing(s')
  {
    assert Resources(s');
    assert Timing(s');
  }

  // ---- Posting --------------------------------------------------------------------------------

  lemma PendingPost(s: Sys, e: Envelope, x: Envelope)
    ensures Pending(Post(s, e), x) == Pending(s, x) + B(!s.stopped && e == x)
  {
    CountAppend(s.queue, e, x);
  }

  lemma PostRawShape(s: Sys, b: bool)
    requires QueueShape(s)
    ensures QueueShape(Post(s, RawTransition(b)))
  {
    ViewsAppend(s.queue, RawTransition(b));
  }

  lemma PostRawQueue(s: Sys, b: bool)
    requires QueueShape(s) && InSync(s)
    ensures QueueShape(Post(s, RawTransition(b))) && InSync(Post(s, RawTransition(b)))
  {
    PostRawShape(s, b);
    ViewsAppend(s.queue, RawTransition(b));
  }

  lemma PostRawCounts(s: Sys, b: bool)
    requires TimerCounts(s) && Conserved(s)
    ensures TimerCounts(Post(s, RawTransition(b))) && Conserved(Post(s, RawTransition(b)))
  {
    var e := RawTransition(b);
    ViewsAppend(s.queue, e);
    PendingPost(s, e, DebounceExpired);
    PendingPost(s, e, LongPressExpired);
    PendingPost(s, e, DoubleClickExpired);
  }

  lemma PostRaw(s: Sys, b: bool)
    requires Inv(s)
    ensures Inv(Post(s, RawTransition(b)))
  {
    StateParts(s, Post(s, RawTransition(b)));
    PostRawQueue(s, b);
    PostRawCounts(s, b);
  }

  lemma PendingFired(s: Sys, x: Envelope)
    requires Firing(s.pos) && s.pos.todo != []
    ensures Pending(PostHead(s), x) == Pending(s, x) - B(s.stopped && s.pos.todo[0] == x)
  {
    CountAppend(s.queue, s.pos.todo[0], x);
  }

  lemma PostFiredQueue(s: Sys)
    requires QueueShape(s) && InSync(s) && Firing(s.pos) && s.pos.todo != []
    ensures QueueShape(PostHead(s)) && InSync(PostHead(s))
  {
    assert IsTimer(Todo(s.pos)[0]);
    ViewsAppend(s.queue, s.pos.todo[0]);
    NoNotes(s.queue);
  }

  lemma PostFiredCounts(s: Sys)
    requires TimerCounts(s) && QueueShape(s) && Conserved(s) && Firing(s.pos) && s.pos.todo != []
    ensures TimerCounts(PostHead(s)) && Conserved(PostHead(s))
  {
    assert IsTimer(Todo(s.pos)[0]);
    ViewsAppend(s.queue, s.pos.todo[0]);
    PendingFired(s, DebounceExpired);
    PendingFired(s, LongPressExpired);
    PendingFired(s, DoubleClickExpired);
  }

  lemma PostFiredInv(s: Sys)
    requires Inv(s) && Firing(s.pos) && s.pos.todo != []
    ensures Inv(PostHead(s))
  {
    StateParts(s, PostHead(s));
    PostFiredQueue(s);
    PostFiredCounts(s);
  }

  // ---- Firing ---------------------------------------------------------------------------------

  lemma {:induction false} EnvelopeCount(t: T.Timers<Envelope>, batch: seq<nat>, e: Envelope, owner: Option<nat>)
    requires forall k :: k in batch ==> k in t.live
    requires forall i, j :: 0 <= i < j < |batch| ==> batch[i] != batch[j]
    requires forall k :: k in batch ==> (t.live[k].envelope == e <==> owner == Some(k))
    ensures Count(T.Envelopes(t, batch), e) == B(owner.Some? && owner.value in batch)
  {
    if batch == [] {
      assert T.Envelopes(t, batch) == [];
    } else {
      EnvelopeCount(t, batch[1..], e, owner);
      assert T.Envelopes(t, batch)[1..] == T.Envelopes(t, batch[1..]);
      assert batch == [batch[0]] + batch[1..];
    }
  }

  /** Firing moves the timer of `e` from armed to pending, or leaves it armed. */
  lemma FireCount(s: Sys, now: int, batch: seq<nat>, e: Envelope, owner: Option<nat>)
    requires T.IsBatch(s.timers, now, batch)
    requires forall k :: k in s.timers.live ==> (s.timers.live[k].envelope == e <==> owner == Some(k))
    ensures Count(Collected(s, batch), e) + B(owner.Some? && owner.value in T.AfterFire(s.timers, now).live)
         == B(IsArmed(s, owner))
  {
    EnvelopeCount(s.timers, batch, e, owner);
    if IsArmed(s, owner) {
      assert owner.value in batch <==> owner.value in T.DueBy(s.timers, now);
    }
  }

  lemma Owners(s: Sys)
    requires Resources(s)
    ensures forall k :: k in s.timers.live ==> (s.timers.live[k].envelope == DebounceExpired <==> s.deb.timer == Some(k))
    ensures s.cls.state == Pressed ==>
      forall k :: k in s.timers.live ==> (s.timers.live[k].envelope == LongPressExpired <==> s.cls.timer == Some(k))
    ensures s.cls.state != Pressed ==> forall k :: k in s.timers.live ==> s.timers.live[k].envelope != LongPressExpired
    ensures s.cls.state == AwaitingSecondClick ==>
      forall k :: k in s.timers.live ==> (s.timers.live[k].envelope == DoubleClickExpired <==> s.cls.timer == Some(k))
    ensures s.cls.state != AwaitingSecondClick ==> forall k :: k in s.timers.live ==> s.timers.live[k].envelope != DoubleClickExpired
  {
    assert forall k :: k in s.timers.live ==> OwnedTimer(s, k, s.timers.live[k]);
  }

  lemma FirePending(s: Sys, now: int, batch: seq<nat>, manual: bool)
    requires Todo(s.pos) == [] && T.IsBatch(s.timers, now, batch)
    ensures forall e: Envelope :: Pending(Fire(s, now, batch, manual), e) == Pending(s, e) + Count(Collected(s, batch), e)
  {
  }

  lemma FireCounts(s: Sys, now: int, batch: seq<nat>, manual: bool)
    requires Resources(s) && TimerCounts(s) && Todo(s.pos) == []
    requires T.IsBatch(s.timers, now, batch)
    ensures TimerCounts(Fire(s, now, batch, manual))
  {
    FirePending(s, now, batch, manual);
    Owners(s);
    FireCount(s, now, batch, DebounceExpired, s.deb.timer);
    FireCount(s, now, batch, LongPressExpired, if s.cls.state == Pressed then s.cls.timer else None);
    FireCount(s, now, batch, DoubleClickExpired, if s.cls.state == AwaitingSecondClick then s.cls.timer else None);
  }

  lemma FireQueue(s: Sys, now: int, batch: seq<nat>, manual: bool)
    requires Resources(s) && QueueShape(s) && InSync(s) && Conserved(s) && !Draining(s.pos)
    requires T.IsBatch(s.timers, now, batch)
    ensures QueueShape(Fire(s, now, batch, manual)) && InSync(Fire(s, now, batch, manual))
    ensures Conserved(Fire(s, now, batch, manual))
  {
    forall i | 0 <= i < |batch| ensures IsTimer(Collected(s, batch)[i]) {
      assert batch[i] in batch;
      assert OwnedTimer(s, batch[i], s.timers.live[batch[i]]);
    }
  }

  lemma FireState(s: Sys, now: int, batch: seq<nat>, manual: bool)
    requires Resources(s) && Mirrors(s)
    requires T.IsBatch(s.timers, now, batch)
    ensures Resources(Fire(s, now, batch, manual)) && Mirrors(Fire(s, now, batch, manual))
  {
    var s' := Fire(s, now, batch, manual);
    forall k | k in s'.timers.live ensures OwnedTimer(s', k, s'.timers.live[k]) {
      assert OwnedTimer(s, k, s.timers.live[k]);
    }
  }

  lemma FireTiming(s: Sys, now: int, batch: seq<nat>, manual: bool)
    requires Resources(s) && Timing(s)
    requires s.now <= now && T.IsBatch(s.timers, now, batch)
    ensures Timing(Fire(s, now, batch, manual))
  {
    if IsArmed(s, s.deb.timer) {
      assert OwnedTimer(s, s.deb.timer.value, s.timers.live[s.deb.timer.value]);
    }
    if IsArmed(s, s.cls.timer) {
      assert OwnedTimer(s, s.cls.timer.value, s.timers.live[s.cls.timer.value]);
    }
  }

  lemma FireInv(s: Sys, now: int, batch: seq<nat>, manual: bool)
    requires Inv(s) && !Draining(s.pos) && Todo(s.pos) == []
    requires s.now <= now && T.IsBatch(s.timers, now, batch)
    ensures Inv(Fire(s, now, batch, manual))
  {
    FireCounts(s, now, batch, manual);
    FireQueue(s, now, batch, manual);
    FireState(s, now, batch, manual);
    FireTiming(s, now, batch, manual);
  }

  // ---- All of them ----------------------------------------------------------------------------

  lemma TickInv(s: Sys, d: int)
    requires Inv(s) && !s.manual && d >= 0
    ensures Inv(s.(now := s.now + d))
  {
    var s' := s.(now := s.now + d);
    assert Resources(s') && Mirrors(s');
    assert TimerCounts(s') && QueueShape(s') && InSync(s') && Conserved(s');
    assert Timing(s');
  }

  /** Moves of the loop that touch neither the queue nor the timers. */
  lemma MoveInv(s: Sys, p: Position)
    requires Inv(s) && Todo(s.pos) == [] && Todo(p) == []
    requires Draining(s.pos) && !Draining(p) ==> s.queue == []
    ensures Inv(s.(pos := p))
  {
    var s' := s.(pos := p);
    StateParts(s, s');
    assert TimerCounts(s') && QueueShape(s');
    assert InSync(s') && Conserved(s');
  }

  lemma StopInv(s: Sys)
    requires Inv(s)
    ensures Inv(s.(stopped := true))
  {
    var s' := s.(stopped := true);
    StateParts(s, s');
    assert TimerCounts(s') && QueueShape(s') && InSync(s') && Conserved(s');
  }

  predicate IsMove(a: Action) {
    a.CallRunOne? || a.CallRun? || a.ReturnFromWait? || a.FiringDone? || a.DrainDone? || a.CheckStop?
  }

  lemma MoveTarget(s: Sys, a: Action)
    requires Enabled(s, a) && IsMove(a)
    ensures Apply(s, a) == s.(pos := Apply(s, a).pos)
    ensures Todo(s.pos) == [] && Todo(Apply(s, a).pos) == []
    ensures Draining(s.pos) && !Draining(Apply(s, a).pos) ==> s.queue == []
  {
  }

  lemma FireTarget(s: Sys, a: Action)
    requires Enabled(s, a) && (a.Advance? || a.FireDue?)
    ensures var now := if a.Advance? then s.now + a.delta else s.now;
            s.now <= now && T.IsBatch(s.timers, now, a.batch) && Apply(s, a) == Fire(s, now, a.batch, a.Advance?)
    ensures !Draining(s.pos) && Todo(s.pos) == []
  {
  }

  lemma FireStep(s: Sys, a: Action)
    requires Inv(s) && Enabled(s, a) && (a.Advance? || a.FireDue?)
    ensures Inv(Apply(s, a)) && Apply(s, a).manual == s.manual
  {
    FireTarget(s, a);
    FireInv(s, if a.Advance? then s.now + a.delta else s.now, a.batch, a.Advance?);
  }

  lemma PostStep(s: Sys, a: Action)
    requires Inv(s) && Enabled(s, a) && (a.ExternalPost? || a.PostFired?)
    ensures Inv(Apply(s, a)) && Apply(s, a).manual == s.manual
  {
    if a.PostFired? { PostFiredInv(s); } else { PostRaw(s, a.pressed); }
  }

  lemma MoveStep(s: Sys, a: Action)
    requires Inv(s) && Enabled(s, a) && IsMove(a)
    ensures Inv(Apply(s, a)) && Apply(s, a).manual == s.manual
  {
    MoveTarget(s, a);
    MoveInv(s, Apply(s, a).pos);
  }

  lemma TickStep(s: Sys, d: int)
    requires Inv(s) && Enabled(s, Tick(d))
    ensures Inv(Apply(s, Tick(d))) && Apply(s, Tick(d)).manual == s.manual
  {
    TickInv(s, d);
  }

  lemma StopStep(s: Sys)
    requires Inv(s)
    ensures Inv(Apply(s, Stop)) && Apply(s, Stop).manual == s.manual
  {
    StopInv(s);
  }

  lemma StepInv(s: Sys, a: Action)
    requires Inv(s) && Enabled(s, a) && a != DispatchFront
    ensures Inv(Apply(s, a)) && Apply(s, a).manual == s.manual
  {
    if IsMove(a) {
      MoveStep(s, a);
    } else if a.Advance? || a.FireDue? {
      FireStep(s, a);
    } else if a.ExternalPost? || a.PostFired? {
      PostStep(s, a);
    } else if a.Tick? {
      TickStep(s, a.delta);
    } else {
      StopStep(s);
    }
  }
}
