/** The button pipeline as one transition system: Debouncer, cache, ClickClassifier and UiController
    over the queue, the timers and the clock. A run is any sequence of the actions below. */
module PipelineModel {
  import opened Options
  import opened FlowSpec
  import C = CacheSpec
  import T = TimerSpec

  const DEBOUNCE_WINDOW: int := 5
  const LONG_PRESS_THRESHOLD: int := 500
  const DOUBLE_CLICK_WINDOW: int := 300

  datatype ModuleId = Debouncer | ClickClassifier | UiController
  datatype Key = ButtonKey | UiModeKey
  datatype UiMode = UiIdle | UiActive | UiConfiguring
  datatype Value = Bit(pressed: bool) | Mode(mode: UiMode)
  datatype Gesture = Click | LongPress | DoubleClick

  type Note = C.Note<Key, Value, ModuleId>

  datatype Envelope =
    | RawTransition(pressed: bool)
    | DebounceExpired
    | LongPressExpired
    | DoubleClickExpired
    | KeyChanged(note: Note)
    | Send(gesture: Gesture)

  function To(e: Envelope): ModuleId {
    match e
    case RawTransition(_) => Debouncer
    case DebounceExpired => Debouncer
    case LongPressExpired => ClickClassifier
    case DoubleClickExpired => ClickClassifier
    case KeyChanged(n) => n.to
    case Send(_) => UiController
  }

  predicate IsTimer(e: Envelope) {
    e.DebounceExpired? || e.LongPressExpired? || e.DoubleClickExpired?
  }

  datatype DebState = Settled | CoolingDown
  datatype ClsState = Idle | Pressed | AwaitingSecondClick | SecondPressed

  /** A flow together with the resources held by the locals of its current state. */
  datatype DebouncerFlow = DebouncerFlow(state: DebState, timer: Option<nat>)
  datatype ClassifierFlow = ClassifierFlow(state: ClsState, sub: Option<nat>, timer: Option<nat>)

  /** Where the thread that owns the loop stands. `ManualFiring` is `ManualClock::advance`, `OneDrain`
      a `run_one` called by the client; the `Run` positions are those of `run`. The firing positions
      carry the envelopes that `fire_due` has collected and not yet posted. */
  datatype Position =
    | Outside
    | ManualFiring(todo: seq<Envelope>)
    | OneDrain
    | RunWait
    | RunFiring(todo: seq<Envelope>)
    | RunDrain
    | RunCheck
    | RunFinal

  datatype Commit = Commit(pressed: bool, at: int)
  /** A gesture sent by the classifier: when, the entry times of its state and of the last
      AwaitingSecondClick, and when timers had last been fired as it entered its state. */
  datatype Sent = Sent(gesture: Gesture, at: int, entered: int, awaited: int, asOf: int)

  /** What has happened so far; no step of the pipeline reads it. `fired` is the time of the last call of
      `fire_due`, or of the start. */
  datatype History = History(
    commits: seq<Commit>,
    seen: Option<Value>,
    sent: seq<Sent>,
    handled: seq<Gesture>,
    entered: int,
    awaited: int,
    fired: int,
    asOf: int)

  datatype Sys = Sys(
    queue: seq<Envelope>,
    stopped: bool,
    faulted: bool,
    now: int,
    manual: bool,
    capacity: nat,
    cache: C.Cache<Key, Value, ModuleId>,
    timers: T.Timers<Envelope>,
    deb: DebouncerFlow,
    cls: ClassifierFlow,
    ui: UiMode,
    pos: Position,
    hist: History)

  // ---- Primitives the handlers use ------------------------------------------------------------

  /** `Runtime::post`: dropped once stop has been requested. */
  function Post(s: Sys, e: Envelope): Sys {
    if s.stopped then s else s.(queue := s.queue + [e])
  }

  function PostNotes(s: Sys, notes: seq<Note>): Sys
    decreases |notes|
  {
    if notes == [] then s else PostNotes(Post(s, KeyChanged(notes[0])), notes[1..])
  }

  function SetKey(s: Sys, k: Key, v: Value): Sys {
    PostNotes(s.(cache := C.Set(s.cache, k, v)), C.SetNotes(s.cache, k, v))
  }

  /** Overflowing the subscription pool is an assertion failure of the program. */
  function SubscribeClassifier(s: Sys): Sys {
    if |s.cache.subs| >= s.capacity then s.(faulted := true)
    else s.(cls := s.cls.(sub := Some(C.LowestFree(s.cache.subs, s.capacity))),
            cache := C.Subscribe(s.cache, s.capacity, ButtonKey, ClickClassifier))
  }

  function CancelTimer(s: Sys, timer: Option<nat>): Sys {
    match timer
    case Some(k) => s.(timers := T.Cancel(s.timers, k))
    case None => s
  }

  // ---- Debouncer ------------------------------------------------------------------------------

  function DebouncerHandle(s: Sys, e: Envelope): (Sys, Directive<DebState>) {
    match s.deb.state
    case Settled =>
      if e.RawTransition? && Bit(e.pressed) != C.Get(s.cache, ButtonKey).GetOr(Bit(false))
      then (SetKey(s, ButtonKey, Bit(e.pressed)).(hist := s.hist.(commits := s.hist.commits + [Commit(e.pressed, s.now)])),
            Transition(CoolingDown))
      else (s, Stay)
    case CoolingDown =>
      if e.DebounceExpired? then (s, Transition(Settled)) else (s, Stay)
  }

  function DebouncerEnter(s: Sys, state: DebState): Sys {
    match state
    case Settled => s.(deb := DebouncerFlow(Settled, None))
    case CoolingDown =>
      s.(deb := DebouncerFlow(CoolingDown, Some(s.timers.next)),
         timers := T.Arm(s.timers, s.now, DEBOUNCE_WINDOW, DebounceExpired))
  }

  function DebouncerStep(s: Sys, e: Envelope): Sys {
    var (s', d) := DebouncerHandle(s, e);
    if d.Transition? then DebouncerEnter(CancelTimer(s', s'.deb.timer), d.next) else s'
  }

  // ---- ClickClassifier ------------------------------------------------------------------------

  predicate ButtonChange(e: Envelope) {
    e.KeyChanged? && e.note.key == ButtonKey
  }

  function SendGesture(s: Sys, g: Gesture): Sys {
    Post(s, Send(g)).(hist := s.hist.(sent := s.hist.sent + [Sent(g, s.now, s.hist.entered, s.hist.awaited, s.hist.asOf)]))
  }

  /** The module-level part of `ClickClassifier::handle`: gestures are gated on the payload type,
      and DoubleClick also on the current state. */
  function ClassifierSends(s: Sys, e: Envelope): Sys {
    if e.DoubleClickExpired? then SendGesture(s, Click)
    else if e.LongPressExpired? then SendGesture(s, LongPress)
    else if ButtonChange(e) && s.cls.state == SecondPressed && e.note.after == Bit(false) then SendGesture(s, DoubleClick)
    else s
  }

  function ClassifierHandle(state: ClsState, e: Envelope): Directive<ClsState> {
    var up := ButtonChange(e) && e.note.after == Bit(true);
    var down := ButtonChange(e) && e.note.after == Bit(false);
    match state
    case Idle => if up then Transition(Pressed) else Stay
    case Pressed =>
      if down then Transition(AwaitingSecondClick)
      else if e.LongPressExpired? then Transition(Idle) else Stay
    case AwaitingSecondClick =>
      if e.DoubleClickExpired? then Transition(Idle)
      else if up then Transition(SecondPressed) else Stay
    case SecondPressed => if down then Transition(Idle) else Stay
  }

  /** Destroys the locals of the current state: the timer, then the subscription. */
  function ClassifierExit(s: Sys): Sys {
    var s' := CancelTimer(s, s.cls.timer);
    match s.cls.sub
    case Some(slot) => s'.(cache := C.Release(s'.cache, slot), cls := ClassifierFlow(s.cls.state, None, None))
    case None => s'.(cls := ClassifierFlow(s.cls.state, None, None))
  }

  function ArmClassifier(s: Sys, delay: int, e: Envelope): Sys {
    s.(cls := s.cls.(timer := Some(s.timers.next)), timers := T.Arm(s.timers, s.now, delay, e))
  }

  /** Constructs the locals of `state`: the subscription, then the timer if the state has one. */
  function ClassifierEnter(s: Sys, state: ClsState): Sys {
    var h := s.hist.(entered := s.now, awaited := if state == AwaitingSecondClick then s.now else s.hist.awaited,
                     asOf := s.hist.fired);
    var s' := SubscribeClassifier(s.(cls := ClassifierFlow(state, None, None), hist := h));
    match state
    case Pressed => ArmClassifier(s', LONG_PRESS_THRESHOLD, LongPressExpired)
    case AwaitingSecondClick => ArmClassifier(s', DOUBLE_CLICK_WINDOW, DoubleClickExpired)
    case _ => s'
  }

  function ClassifierStep(s: Sys, e: Envelope): Sys {
    var s1 := if ButtonChange(e) then s.(hist := s.hist.(seen := Some(e.note.after))) else s;
    var s2 := ClassifierSends(s1, e);
    var d := ClassifierHandle(s2.cls.state, e);
    if d.Transition? then ClassifierEnter(ClassifierExit(s2), d.next) else s2
  }

  // ---- UiController ---------------------------------------------------------------------------

  function UiHandle(state: UiMode, e: Envelope): Directive<UiMode> {
    match state
    case UiIdle =>
      if e == Send(Click) then Transition(UiActive)
      else if e == Send(LongPress) then Transition(UiConfiguring) else Stay
    case UiActive =>
      if e == Send(Click) then Transition(UiIdle)
      else if e == Send(LongPress) then Transition(UiConfiguring) else Stay
    case UiConfiguring =>
      if e == Send(LongPress) then Transition(UiIdle) else Stay
  }

  function UiEnter(s: Sys, state: UiMode): Sys {
    SetKey(s.(ui := state), UiModeKey, Mode(state))
  }

  function UiStep(s: Sys, e: Envelope): Sys {
    var s1 := if e.Send? then s.(hist := s.hist.(handled := s.hist.handled + [e.gesture])) else s;
    var d := UiHandle(s1.ui, e);
    if d.Transition? then UiEnter(s1, d.next) else s1
  }

  // ---- Actions --------------------------------------------------------------------------------

  function Deliver(s: Sys, e: Envelope): Sys {
    match To(e)
    case Debouncer => DebouncerStep(s, e)
    case ClickClassifier => ClassifierStep(s, e)
    case UiController => UiStep(s, e)
  }

  /** Pops the front envelope and runs its handler to completion. */
  function Dispatch(s: Sys): Sys
    requires s.queue != []
  {
    Deliver(s.(queue := s.queue[1..]), s.queue[0])
  }

  predicate Draining(p: Position) {
    p.OneDrain? || p.RunDrain? || p.RunFinal?
  }

  predicate Firing(p: Position) {
    p.ManualFiring? || p.RunFiring?
  }

  /** `ExternalPost` and `Stop` may come from any thread at any moment, `Tick` is the passing of
      time on a steady clock. `Advance` is `ManualClock::advance`. The others belong to the loop. */
  datatype Action =
    | ExternalPost(pressed: bool)
    | Stop
    | Tick(delta: int)
    | Advance(delta: int, batch: seq<nat>)
    | CallRunOne
    | CallRun
    | ReturnFromWait
    | FireDue(batch: seq<nat>)
    | PostFired
    | FiringDone
    | DispatchFront
    | DrainDone
    | CheckStop

  ghost predicate Enabled(s: Sys, a: Action) {
    match a
    case ExternalPost(_) => true
    case Stop => true
    case Tick(d) => !s.manual && d >= 0
    case Advance(d, batch) => s.manual && s.pos == Outside && d >= 0 && T.IsBatch(s.timers, s.now + d, batch)
    case CallRunOne => s.pos == Outside
    case CallRun => s.pos == Outside
    case ReturnFromWait => s.pos == RunWait && s.queue == [] && s.stopped
    case FireDue(batch) => s.pos == RunWait && !(s.queue == [] && s.stopped) && T.IsBatch(s.timers, s.now, batch)
    case PostFired => Firing(s.pos) && s.pos.todo != []
    case FiringDone => Firing(s.pos) && s.pos.todo == []
    case DispatchFront => Draining(s.pos) && s.queue != []
    case DrainDone => Draining(s.pos) && s.queue == []
    case CheckStop => s.pos == RunCheck
  }

  function Collected(s: Sys, batch: seq<nat>): seq<Envelope>
    requires forall k :: k in batch ==> k in s.timers.live
  {
    T.Envelopes(s.timers, batch)
  }

  /** The critical section of `fire_due` at time `now`: everything due is collected at once. */
  function Fire(s: Sys, now: int, batch: seq<nat>, manual: bool): Sys
    requires forall k :: k in batch ==> k in s.timers.live
  {
    var todo := Collected(s, batch);
    s.(now := now, timers := T.AfterFire(s.timers, now), hist := s.hist.(fired := now),
       pos := if manual then ManualFiring(todo) else RunFiring(todo))
  }

  /** `fire_due` posts one collected envelope. */
  function PostHead(s: Sys): Sys
    requires Firing(s.pos) && s.pos.todo != []
  {
    var rest := s.pos.todo[1..];
    Post(s, s.pos.todo[0]).(pos := if s.pos.ManualFiring? then ManualFiring(rest) else RunFiring(rest))
  }

  ghost function Apply(s: Sys, a: Action): Sys
    requires Enabled(s, a)
  {
    match a
    case ExternalPost(b) => Post(s, RawTransition(b))
    case Stop => s.(stopped := true)
    case Tick(d) => s.(now := s.now + d)
    case Advance(d, batch) => Fire(s, s.now + d, batch, true)
    case CallRunOne => s.(pos := OneDrain)
    case CallRun => s.(pos := RunWait)
    case ReturnFromWait => s.(pos := Outside)
    case FireDue(batch) => Fire(s, s.now, batch, false)
    case PostFired => PostHead(s)
    case FiringDone => s.(pos := if s.pos.ManualFiring? then Outside else RunDrain)
    case DispatchFront => Dispatch(s)
    case DrainDone => s.(pos := if s.pos.RunDrain? then RunCheck else Outside)
    case CheckStop => s.(pos := if s.stopped then RunFinal else RunWait)
  }

  // ---- Start and runs -------------------------------------------------------------------------

  /** The state after `Runtime::start`: the initial states are entered in module order. The synthetic
      init envelope matches no payload test, so all three initial states stay. */
  function Start(now: int, manual: bool, capacity: nat): Sys {
    var s0 := Sys([], false, false, now, manual, capacity, C.Cache(map[], []), T.Timers(map[], 1),
                  DebouncerFlow(Settled, None), ClassifierFlow(Idle, None, None), UiIdle, Outside,
                  History([], None, [], [], now, now, now, now));
    UiEnter(ClassifierEnter(DebouncerEnter(s0, Settled), Idle), UiIdle)
  }

  ghost predicate Allowed(s: Sys, run: seq<Action>)
    decreases |run|
  {
    run == [] || (Enabled(s, run[0]) && Allowed(Apply(s, run[0]), run[1..]))
  }

  ghost function After(s: Sys, run: seq<Action>): Sys
    requires Allowed(s, run)
    decreases |run|
  {
    if run == [] then s else After(Apply(s, run[0]), run[1..])
  }
}
