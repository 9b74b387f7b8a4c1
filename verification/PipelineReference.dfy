/** An independent description of what the button does, without queue, timers, cache or modules,
    and the proof that the pipeline implements it under the manual clock. */
module PipelineReference {
  import opened Options
  import opened PipelineModel
  import opened PipelineInvariant
  import opened PipelineDispatch
  import opened PipelineDraining
  import C = CacheSpec

  // ---- The reference --------------------------------------------------------------------------

  datatype Phase = Up | Down(deadline: int) | Between(deadline: int) | DownAgain

  /** A button with a lockout after each accepted edge and a gesture recogniser behind it. */
  datatype Button = Button(now: int, pressed: bool, lockedUntil: Option<int>, phase: Phase, gestures: seq<Gesture>)

  function Recognise(r: Button, g: Gesture): Button {
    r.(phase := Up, gestures := r.gestures + [g])
  }

  function Edge(r: Button): Button {
    match r.phase
    case Up => if r.pressed then r.(phase := Down(r.now + LONG_PRESS_THRESHOLD)) else r
    case Down(_) => if r.pressed then r else r.(phase := Between(r.now + DOUBLE_CLICK_WINDOW))
    case Between(_) => if r.pressed then r.(phase := DownAgain) else r
    case DownAgain => if r.pressed then r else Recognise(r, DoubleClick)
  }

  /** A raw reading: ignored while locked out or when it is not news. */
  function Reading(r: Button, b: bool): Button {
    if r.lockedUntil.Some? || b == r.pressed then r
    else Edge(r.(pressed := b, lockedUntil := Some(r.now + DEBOUNCE_WINDOW)))
  }

  function Readings(r: Button, bs: seq<bool>): Button
    decreases |bs|
  {
    if bs == [] then r else Readings(Reading(r, bs[0]), bs[1..])
  }

  function Passed(r: Button, d: int): Button {
    var r1 := r.(now := r.now + d);
    var r2 := if r1.lockedUntil.Some? && r1.lockedUntil.value <= r1.now then r1.(lockedUntil := None) else r1;
    match r2.phase
    case Down(t) => if t <= r2.now then Recognise(r2, LongPress) else r2
    case Between(t) => if t <= r2.now then Recognise(r2, Click) else r2
    case _ => r2
  }

  /** What a client can do: a burst of readings, or a wait; `run_one` follows each. */
  datatype Stimulus = Burst(readings: seq<bool>) | Wait(delta: int)

  function Respond(r: Button, x: Stimulus): Button {
    match x
    case Burst(bs) => Readings(r, bs)
    case Wait(d) => Passed(r, d)
  }

  function Responses(r: Button, xs: seq<Stimulus>): Button
    decreases |xs|
  {
    if xs == [] then r else Responses(Respond(r, xs[0]), xs[1..])
  }

  // ---- The pipeline between two calls of the client -------------------------------------------

  /** Nothing is queued or about to be posted. */
  ghost predicate Still(s: Sys) {
    Inv(s) && !s.stopped && s.queue == [] && Todo(s.pos) == []
  }

  ghost predicate Quiet(s: Sys) {
    Inv(s) && s.manual && !s.stopped && s.pos == Outside && s.queue == []
  }

  function PhaseOf(state: ClsState, entered: int): Phase {
    match state
    case Idle => Up
    case Pressed => Down(entered + LONG_PRESS_THRESHOLD)
    case AwaitingSecondClick => Between(entered + DOUBLE_CLICK_WINDOW)
    case SecondPressed => DownAgain
  }

  /** The button that a quiet pipeline stands for. */
  function View(s: Sys): Button {
    Button(s.now,
           s.hist.commits != [] && LastCommit(s).pressed,
           if s.deb.state == CoolingDown && s.hist.commits != [] then Some(LastCommit(s).at + DEBOUNCE_WINDOW) else None,
           PhaseOf(s.cls.state, s.hist.entered),
           Kinds(s.hist.sent))
  }

  // ---- Draining what a stimulus queues --------------------------------------------------------

  lemma DrainStep(s: Sys)
    requires Inv(s) && Draining(s.pos) && s.queue != []
    ensures Inv(Dispatch(s)) && Dispatch(s).pos == s.pos
    ensures Drain(s) == Drain(Dispatch(s))
  {
    DispatchInv(s);
    DispatchLighter(s);
    DispatchKeepsPos(s);
  }

  lemma DrainLast(s: Sys)
    requires Inv(s) && Draining(s.pos) && s.queue != [] && Dispatch(s).queue == []
    ensures Inv(Dispatch(s)) && Drain(s) == Dispatch(s)
  {
    DrainStep(s);
  }

  /** A drain leaves the clock, the stop flag and the position alone. */
  ghost predicate SameFrame(s: Sys, s': Sys) {
    s'.now == s.now && s'.manual == s.manual && s'.stopped == s.stopped && s'.pos == s.pos
  }

  lemma ShowView(s: Sys, g: Gesture)
    requires s.queue != []
    ensures View(Show(s, g)) == View(s) && SameFrame(s, Show(s, g))
  {
  }

  /** A gesture already sent changes nothing but the display. */
  lemma DrainGesture(s: Sys, g: Gesture)
    requires Inv(s) && Draining(s.pos) && s.queue == [Send(g)]
    ensures View(Drain(s)) == View(s) && SameFrame(s, Drain(s)) && Inv(Drain(s))
  {
    ShowEffect(s);
    ShowView(s, g);
    DrainLast(s);
  }

  /** The reference's move for the front envelope of the classifier. */
  function Moved(s: Sys): Button
    requires s.queue != []
  {
    if s.queue[0].LongPressExpired? then Recognise(View(s), LongPress)
    else if s.queue[0].DoubleClickExpired? then Recognise(View(s), Click)
    else Edge(View(s))
  }

  lemma ViewOfMove(s: Sys, next: ClsState)
    requires s.queue != []
    ensures View(Move(s, next))
         == View(s).(phase := PhaseOf(next, s.now),
                     gestures := Kinds(s.hist.sent) + (if Emitted(s).Some? then [Emitted(s).value] else []))
    ensures SameFrame(s, Move(s, next))
  {
    SendCredit(s);
  }

  lemma MoveView(s: Sys, next: ClsState)
    requires s.queue != [] && FrontOk(s) && Moves(s, next)
    requires s.queue[0].KeyChanged? ==> View(s).pressed == (s.queue[0].note.after == Bit(true))
    ensures View(Move(s, next)) == Moved(s) && SameFrame(s, Move(s, next))
  {
    ViewOfMove(s, next);
    assert View(s).phase == PhaseOf(s.cls.state, s.hist.entered);
    if Emitted(s).None? {
      assert Kinds(s.hist.sent) + [] == Kinds(s.hist.sent);
    }
  }

  lemma NoticeView(s: Sys)
    requires s.queue != [] && s.cls.state == Idle && !View(s).pressed
    ensures View(Notice(s)) == Edge(View(s)) && SameFrame(s, Notice(s))
  {
  }

  lemma DrainSent(s: Sys)
    requires Inv(s) && Draining(s.pos) && (s.queue == [] || (|s.queue| == 1 && s.queue[0].Send?))
    ensures View(Drain(s)) == View(s) && SameFrame(s, Drain(s)) && Inv(Drain(s))
  {
    if s.queue != [] {
      assert s.queue == [Send(s.queue[0].gesture)];
      DrainGesture(s, s.queue[0].gesture);
    }
  }

  lemma MovedQueue(s: Sys, next: ClsState)
    requires |s.queue| == 1 && !s.stopped
    ensures var q := Move(s, next).queue; q == [] || (|q| == 1 && q[0].Send?)
  {
  }

  /** After a move at most the gesture it sent is left to drain. */
  lemma DrainMove(s: Sys, next: ClsState)
    requires Inv(s) && Draining(s.pos) && !s.stopped && |s.queue| == 1 && Moves(s, next)
    requires s.queue[0].KeyChanged? ==> View(s).pressed == (s.queue[0].note.after == Bit(true))
    ensures View(Drain(s)) == Moved(s) && SameFrame(s, Drain(s)) && Inv(Drain(s))
  {
    Front(s);
    MoveEffect(s, next);
    MoveView(s, next);
    MovedQueue(s, next);
    DrainStep(s);
    DrainSent(Move(s, next));
  }

  lemma ChangeIsCurrent(s: Sys)
    requires |s.queue| == 1 && s.queue[0].KeyChanged? && InSync(s) && Mirrors(s)
    ensures View(s).pressed == (s.queue[0].note.after == Bit(true))
  {
    assert Notes(s.queue)[0] == s.queue[0].note;
  }

  lemma DrainNotice(s: Sys)
    requires Inv(s) && Draining(s.pos) && |s.queue| == 1 && s.queue[0].KeyChanged?
    requires s.cls.state == Idle && s.queue[0].note.after == Bit(false)
    ensures View(Drain(s)) == Edge(View(s)) && SameFrame(s, Drain(s)) && Inv(Drain(s))
  {
    Front(s);
    ChangeIsCurrent(s);
    SendingEffect(s);
    assert s.hist.sent + SentBy(s) == s.hist.sent;
    assert Dispatch(s) == Notice(s);
    NoticeView(s);
    DrainLast(s);
  }

  /** A queued change is an edge of the reference. */
  lemma DrainChange(s: Sys)
    requires Inv(s) && Draining(s.pos) && !s.stopped && |s.queue| == 1 && s.queue[0].KeyChanged?
    ensures View(Drain(s)) == Edge(View(s)) && SameFrame(s, Drain(s)) && Inv(Drain(s))
  {
    Front(s);
    ChangeIsCurrent(s);
    var d := ClassifierHandle(s.cls.state, s.queue[0]);
    if d.Transition? {
      DrainMove(s, d.next);
    } else {
      DrainNotice(s);
    }
  }

  // ---- A burst --------------------------------------------------------------------------------

  function Raws(bs: seq<bool>): seq<Envelope> {
    if bs == [] then [] else [RawTransition(bs[0])] + Raws(bs[1..])
  }

  lemma RawsHead(bs: seq<bool>, tail: seq<Envelope>)
    requires bs != []
    ensures Raws(bs) + tail == [RawTransition(bs[0])] + (Raws(bs[1..]) + tail)
  {
  }

  lemma DrainPops(s: Sys)
    requires Inv(s) && Draining(s.pos) && s.queue != [] && Dispatch(s) == Pop(s)
    ensures Inv(Pop(s)) && Drain(s) == Drain(Pop(s))
  {
    DrainStep(s);
  }

  lemma LockedStep(s: Sys, bs: seq<bool>, tail: seq<Envelope>)
    requires Inv(s) && Draining(s.pos) && s.deb.state == CoolingDown && bs != [] && s.queue == Raws(bs) + tail
    ensures Inv(Pop(s)) && Drain(s) == Drain(Pop(s)) && Pop(s).queue == Raws(bs[1..]) + tail
  {
    RawsHead(bs, tail);
    IgnoredEffect(s);
    DrainPops(s);
  }

  /** During the lockout raw transitions drain without effect. */
  lemma {:induction false} DrainLocked(s: Sys, bs: seq<bool>, tail: seq<Envelope>)
    requires Inv(s) && Draining(s.pos) && s.deb.state == CoolingDown && s.queue == Raws(bs) + tail
    ensures Inv(s.(queue := tail)) && Drain(s) == Drain(s.(queue := tail))
    decreases |bs|
  {
    if bs == [] {
      assert s.queue == tail;
      assert s.(queue := tail) == s;
    } else {
      LockedStep(s, bs, tail);
      DrainLocked(Pop(s), bs[1..], tail);
      assert Pop(s).(queue := tail) == s.(queue := tail);
    }
  }

  lemma {:induction false} ReadingsLocked(r: Button, bs: seq<bool>)
    requires r.lockedUntil.Some?
    ensures Readings(r, bs) == r
    decreases |bs|
  {
    if bs != [] {
      ReadingsLocked(r, bs[1..]);
    }
  }

  lemma CommitView(s: Sys, b: bool)
    requires s.queue != []
    ensures View(CommitEdge(s, b)) == View(s).(pressed := b, lockedUntil := Some(s.now + DEBOUNCE_WINDOW))
    ensures SameFrame(s, CommitEdge(s, b))
  {
  }

  lemma AcceptedQueue(s: Sys, bs: seq<bool>)
    requires bs != [] && s.queue == Raws(bs) && !s.stopped && Resources(s) && Accepts(s, s.queue[0])
    ensures Dispatch(s) == CommitEdge(s, bs[0])
    ensures exists note: Envelope :: note.KeyChanged? && Dispatch(s).queue == Raws(bs[1..]) + [note]
  {
    CommitEffect(s);
    var note := KeyChanged(C.Note(ClickClassifier, ButtonKey, C.Get(s.cache, ButtonKey), Bit(bs[0])));
    assert Dispatch(s).queue == Raws(bs[1..]) + [note];
  }

  lemma QueueUnseen(s: Sys, q: seq<Envelope>)
    ensures View(s.(queue := q)) == View(s) && SameFrame(s, s.(queue := q))
  {
  }

  /** The lockout swallows the rest of the burst; the change behind it is an edge. */
  lemma DrainSwallowed(s: Sys, bs: seq<bool>, note: Envelope)
    requires Inv(s) && Draining(s.pos) && !s.stopped && s.deb.state == CoolingDown
    requires note.KeyChanged? && s.queue == Raws(bs) + [note]
    ensures View(Drain(s)) == Edge(View(s)) && SameFrame(s, Drain(s)) && Inv(Drain(s))
  {
    DrainLocked(s, bs, [note]);
    QueueUnseen(s, [note]);
    DrainChange(s.(queue := [note]));
  }

  lemma DrainAccepted(s: Sys, bs: seq<bool>)
    requires Inv(s) && Draining(s.pos) && !s.stopped && bs != [] && s.queue == Raws(bs) && Accepts(s, s.queue[0])
    ensures View(Drain(s)) == Edge(View(s).(pressed := bs[0], lockedUntil := Some(s.now + DEBOUNCE_WINDOW)))
    ensures SameFrame(s, Drain(s)) && Inv(Drain(s))
  {
    AcceptedQueue(s, bs);
    CommitView(s, bs[0]);
    DrainStep(s);
    var note: Envelope :| note.KeyChanged? && Dispatch(s).queue == Raws(bs[1..]) + [note];
    DrainSwallowed(Dispatch(s), bs[1..], note);
  }

  lemma ReadingAgrees(s: Sys, b: bool)
    requires Mirrors(s)
    ensures Reading(View(s), b)
         == if Accepts(s, RawTransition(b))
            then Edge(View(s).(pressed := b, lockedUntil := Some(s.now + DEBOUNCE_WINDOW)))
            else View(s)
  {
  }

  lemma IgnoredView(s: Sys)
    requires s.queue != [] && s.queue[0].RawTransition? && !Accepts(s, s.queue[0])
    ensures View(Dispatch(s)) == View(s) && SameFrame(s, Dispatch(s)) && Dispatch(s).queue == s.queue[1..]
  {
    IgnoredEffect(s);
  }

  lemma EdgeKeepsLock(r: Button)
    ensures Edge(r).lockedUntil == r.lockedUntil
  {
  }

  lemma {:induction false} DrainReadings(s: Sys, bs: seq<bool>)
    requires Inv(s) && Draining(s.pos) && !s.stopped && s.queue == Raws(bs)
    ensures View(Drain(s)) == Readings(View(s), bs) && SameFrame(s, Drain(s)) && Inv(Drain(s))
    decreases |bs|
  {
    if bs != [] {
      ReadingAgrees(s, bs[0]);
      if Accepts(s, s.queue[0]) {
        DrainAccepted(s, bs);
        EdgeKeepsLock(View(s).(pressed := bs[0], lockedUntil := Some(s.now + DEBOUNCE_WINDOW)));
        ReadingsLocked(Reading(View(s), bs[0]), bs[1..]);
      } else {
        DrainStep(s);
        IgnoredView(s);
        assert s.queue[1..] == Raws(bs[1..]);
        DrainReadings(Dispatch(s), bs[1..]);
      }
    }
  }

  // ---- A wait ---------------------------------------------------------------------------------

  function Expire(r: Button, unlock: bool, long: bool, click: bool): Button {
    var r1 := if unlock then r.(lockedUntil := None) else r;
    if long then Recognise(r1, LongPress) else if click then Recognise(r1, Click) else r1
  }

  function Expiries(r: Button, q: seq<Envelope>): Button {
    Expire(r, Count(q, DebounceExpired) > 0, Count(q, LongPressExpired) > 0, Count(q, DoubleClickExpired) > 0)
  }

  ghost predicate OnlyExpiries(q: seq<Envelope>) {
    forall i :: 0 <= i < |q| ==> IsTimer(q[i]) || q[i].Send?
  }

  lemma SettleView(s: Sys)
    requires s.queue != []
    ensures View(Settle(s)) == View(s).(lockedUntil := None) && SameFrame(s, Settle(s))
  {
  }

  lemma CountSend(q: seq<Envelope>, g: Gesture)
    ensures Count(q + [Send(g)], DebounceExpired) == Count(q, DebounceExpired)
    ensures Count(q + [Send(g)], LongPressExpired) == Count(q, LongPressExpired)
    ensures Count(q + [Send(g)], DoubleClickExpired) == Count(q, DoubleClickExpired)
  {
    CountAppend(q, Send(g), DebounceExpired);
    CountAppend(q, Send(g), LongPressExpired);
    CountAppend(q, Send(g), DoubleClickExpired);
  }

  /** One dispatch of a timer envelope or a gesture, seen by the reference. */
  ghost predicate ExpiryStepped(s: Sys, s': Sys) {
    SameFrame(s, s') && OnlyExpiries(s'.queue) && Expiries(View(s'), s'.queue) == Expiries(View(s), s.queue)
  }

  lemma UnlockStep(s: Sys)
    requires s.queue != [] && s.queue[0].DebounceExpired? && OnlyExpiries(s.queue) && TimerCounts(s)
    ensures ExpiryStepped(s, Settle(s))
  {
    SettleView(s);
    ExpiryCounts(s);
  }

  lemma ShowStep(s: Sys)
    requires s.queue != [] && s.queue[0].Send? && OnlyExpiries(s.queue)
    ensures ExpiryStepped(s, Show(s, s.queue[0].gesture))
  {
    ShowView(s, s.queue[0].gesture);
  }

  lemma GestureStep(s: Sys)
    requires s.queue != [] && Moves(s, Idle) && IsTimer(s.queue[0]) && FrontOk(s)
    requires OnlyExpiries(s.queue) && TimerCounts(s) && !s.stopped
    ensures ExpiryStepped(s, Move(s, Idle))
  {
    MoveView(s, Idle);
    CountSend(s.queue[1..], Emitted(s).value);
    ExpiryCounts(s);
  }

  lemma ExpiryStep(s: Sys)
    requires Inv(s) && Draining(s.pos) && !s.stopped && s.queue != [] && OnlyExpiries(s.queue)
    ensures ExpiryStepped(s, Dispatch(s))
  {
    Front(s);
    if s.queue[0].DebounceExpired? {
      SettleEffect(s);
      UnlockStep(s);
    } else if s.queue[0].Send? {
      ShowEffect(s);
      ShowStep(s);
    } else {
      MoveEffect(s, Idle);
      GestureStep(s);
    }
  }

  lemma ExpiryCounts(s: Sys)
    requires TimerCounts(s)
    ensures Count(s.queue, DebounceExpired) <= 1
    ensures Count(s.queue, LongPressExpired) + Count(s.queue, DoubleClickExpired) <= 1
  {
  }

  lemma {:induction false} DrainExpiries(s: Sys)
    requires Inv(s) && Draining(s.pos) && !s.stopped && OnlyExpiries(s.queue)
    ensures View(Drain(s)) == Expiries(View(s), s.queue) && SameFrame(s, Drain(s)) && Inv(Drain(s))
    decreases Weights(s.queue)
  {
    if s.queue != [] {
      DrainStep(s);
      DispatchLighter(s);
      ExpiryStep(s);
      DrainExpiries(Dispatch(s));
    }
  }
}
