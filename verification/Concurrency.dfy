/** `post`, `stop` and `run` cut into the steps that the mutex and the condition variable leave
    atomic. Any number of threads post and stop; one more runs the loop. */
module Concurrency {
  datatype Envelope = Envelope(id: nat)

  /** An accepted envelope and the thread that posted it. */
  datatype Item = Item(thread: nat, envelope: Envelope)

  /** Handlers run on the loop thread and may post and stop like everybody else. */
  const LOOP: nat := 0

  datatype Call = Post(envelope: Envelope) | Stop

  /** Progress of one thread through `post` or `stop`. From Locked to Pushed or Refused, and from
      StopLocked to StopSet, the thread holds the mutex; Notifying and StopNotifying have released it. */
  datatype Pc =
    | Free
    | Checked(envelope: Envelope)
    | Locked(envelope: Envelope)
    | Pushed
    | Refused
    | Notifying
    | StopCalled
    | StopLocked
    | StopSet
    | StopNotifying

  /** Progress of `run`. */
  datatype LoopPc =
    | Top
    | Evaluating
    | Parked(timed: bool)
    | Woken(timed: bool, expired: bool)
    | Reevaluating(timed: bool, expired: bool)
    | Leaving
    | Collecting
    | Firing(todo: seq<Call>)
    | Draining(final: bool)
    | Popping(final: bool)
    | Handling(final: bool, item: Item, todo: seq<Call>)
    | Deciding
    | Returned

  datatype Holder = Nobody | Thread(id: nat) | Loop

  datatype State = State(
    mutex: Holder,
    queue: seq<Item>,
    stop: bool,
    pcs: map<nat, Pc>,
    loop: LoopPc,
    accepted: seq<Item>,
    dispatched: seq<Item>,
    issued: map<nat, seq<Envelope>>)

  function PcOf(s: State, t: nat): Pc {
    if t in s.pcs then s.pcs[t] else Free
  }

  function Issued(s: State, t: nat): seq<Envelope> {
    if t in s.issued then s.issued[t] else []
  }

  const START: State := State(Nobody, [], false, map[], Top, [], [], map[])

  // ---- Steps ----------------------------------------------------------------------------------

  /** The first group are the steps of the threads inside `post` and `stop`, the second those of the loop. */
  datatype Action =
    | Begin(thread: nat, call: Call)
    | Lock(thread: nat)
    | Recheck(thread: nat)
    | Unlock(thread: nat)
    | Notify(thread: nat)
    | Acquire
    | Evaluate(timed: bool)
    | Spurious
    | Timeout
    | Leave
    | Collect(todo: seq<Call>)
    | PopFront(todo: seq<Call>)
    | Finish
    | Decide

  function Todo(l: LoopPc): seq<Call> {
    match l
    case Firing(todo) => todo
    case Handling(_, _, todo) => todo
    case _ => []
  }

  function WithTodo(l: LoopPc, todo: seq<Call>): LoopPc {
    match l
    case Firing(_) => Firing(todo)
    case Handling(f, i, _) => Handling(f, i, todo)
    case _ => l
  }

  predicate Ready(s: State) {
    s.queue != [] || s.stop
  }

  predicate Enabled(s: State, a: Action) {
    match a
    case Begin(t, c) =>
      PcOf(s, t) == Free && (t == LOOP ==> Todo(s.loop) != [] && Todo(s.loop)[0] == c)
    case Lock(t) => (PcOf(s, t).Checked? || PcOf(s, t).StopCalled?) && s.mutex == Nobody
    case Recheck(t) => PcOf(s, t).Locked? || PcOf(s, t).StopLocked?
    case Unlock(t) => PcOf(s, t).Pushed? || PcOf(s, t).Refused? || PcOf(s, t).StopSet?
    case Notify(t) => PcOf(s, t).Notifying? || PcOf(s, t).StopNotifying?
    case Acquire => (s.loop.Top? || s.loop.Woken? || s.loop.Draining?) && s.mutex == Nobody
    case Evaluate(_) => s.loop.Evaluating? || s.loop.Reevaluating?
    case Spurious => s.loop.Parked?
    case Timeout => s.loop.Parked? && s.loop.timed
    case Leave => s.loop.Leaving?
    case Collect(todo) => s.loop.Collecting? && forall i :: 0 <= i < |todo| ==> todo[i].Post?
    case PopFront(_) => s.loop.Popping?
    case Finish => (s.loop.Firing? || s.loop.Handling?) && Todo(s.loop) == [] && PcOf(s, LOOP) == Free
    case Decide => s.loop.Deciding?
  }

  function SetPc(s: State, t: nat, pc: Pc): State {
    s.(pcs := s.pcs[t := pc])
  }

  /** A thread enters `post` or `stop`. The first read of the stop flag is outside the mutex. */
  function DoBegin(s: State, t: nat, c: Call): State {
    var s1 := if t == LOOP && Todo(s.loop) != [] then s.(loop := WithTodo(s.loop, Todo(s.loop)[1..])) else s;
    match c
    case Post(e) =>
      var s2 := s1.(issued := s.issued[t := Issued(s, t) + [e]]);
      if s.stop then s2 else SetPc(s2, t, Checked(e))
    case Stop => SetPc(s1, t, StopCalled)
  }

  function DoLock(s: State, t: nat): State {
    var pc := PcOf(s, t);
    SetPc(s, t, if pc.Checked? then Locked(pc.envelope) else StopLocked).(mutex := Thread(t))
  }

  /** Under the mutex: the second read of the flag and the push, or the setting of the flag. */
  function DoRecheck(s: State, t: nat): State {
    var pc := PcOf(s, t);
    if pc.Locked? then
      if s.stop then SetPc(s, t, Refused)
      else SetPc(s, t, Pushed).(queue := s.queue + [Item(t, pc.envelope)], accepted := s.accepted + [Item(t, pc.envelope)])
    else SetPc(s, t, StopSet).(stop := true)
  }

  function DoUnlock(s: State, t: nat): State {
    var pc := PcOf(s, t);
    SetPc(s, t, if pc.Pushed? then Notifying else if pc.StopSet? then StopNotifying else Free).(mutex := Nobody)
  }

  /** The loop is the only waiter, so notify_one and notify_all do the same. */
  function DoNotify(s: State, t: nat): State {
    SetPc(s, t, Free).(loop := if s.loop.Parked? then Woken(s.loop.timed, false) else s.loop)
  }

  function DoAcquire(s: State): State {
    s.(mutex := Loop,
       loop := match s.loop
               case Woken(t, x) => Reevaluating(t, x)
               case Draining(f) => Popping(f)
               case _ => Evaluating)
  }

  /** The predicate of the wait. A wait that has timed out ends whatever the predicate says. */
  function DoEvaluate(s: State, timed: bool): State {
    var bounded := if s.loop.Reevaluating? then s.loop.timed else timed;
    if Ready(s) || (s.loop.Reevaluating? && s.loop.expired) then s.(loop := Leaving)
    else s.(loop := Parked(bounded), mutex := Nobody)
  }

  function DoPop(s: State, todo: seq<Call>): State
    requires s.loop.Popping?
  {
    var f := s.loop.final;
    if s.queue == [] then s.(loop := if f then Returned else Deciding, mutex := Nobody)
    else s.(loop := Handling(f, s.queue[0], todo), queue := s.queue[1..], mutex := Nobody)
  }

  function DoFinish(s: State): State {
    match s.loop
    case Handling(f, item, _) => s.(loop := Draining(f), dispatched := s.dispatched + [item])
    case _ => s.(loop := Draining(false))
  }

  function Apply(s: State, a: Action): State
    requires Enabled(s, a)
  {
    match a
    case Begin(t, c) => DoBegin(s, t, c)
    case Lock(t) => DoLock(s, t)
    case Recheck(t) => DoRecheck(s, t)
    case Unlock(t) => DoUnlock(s, t)
    case Notify(t) => DoNotify(s, t)
    case Acquire => DoAcquire(s)
    case Evaluate(timed) => DoEvaluate(s, timed)
    case Spurious => s.(loop := Woken(s.loop.timed, false))
    case Timeout => s.(loop := Woken(true, true))
    case Leave => s.(loop := if s.queue == [] && s.stop then Returned else Collecting, mutex := Nobody)
    case Collect(todo) => s.(loop := Firing(todo))
    case PopFront(todo) => DoPop(s, todo)
    case Finish => DoFinish(s)
    case Decide => s.(loop := if s.stop then Draining(true) else Top)
  }

  predicate Allowed(s: State, run: seq<Action>)
    decreases |run|
  {
    run == [] || (Enabled(s, run[0]) && Allowed(Apply(s, run[0]), run[1..]))
  }

  function After(s: State, run: seq<Action>): State
    requires Allowed(s, run)
    decreases |run|
  {
    if run == [] then s else After(Apply(s, run[0]), run[1..])
  }

  // ---- Invariant ------------------------------------------------------------------------------

  predicate Holds(pc: Pc) {
    pc.Locked? || pc.Pushed? || pc.Refused? || pc.StopLocked? || pc.StopSet?
  }

  predicate LoopHolds(l: LoopPc) {
    l.Evaluating? || l.Reevaluating? || l.Leaving? || l.Popping?
  }

  /** Past the critical section that made the predicate true, and still to notify. */
  predicate WillNotify(pc: Pc) {
    pc.Pushed? || pc.Notifying? || pc.StopSet? || pc.StopNotifying?
  }

  ghost predicate MutualExclusion(s: State) {
    && (forall t :: Holds(PcOf(s, t)) <==> s.mutex == Thread(t))
    && (LoopHolds(s.loop) <==> s.mutex == Loop)
    && (PcOf(s, LOOP) != Free ==> s.loop.Firing? || s.loop.Handling?)
  }

  function InFlight(l: LoopPc): seq<Item> {
    if l.Handling? then [l.item] else []
  }

  predicate Accounted(s: State) {
    s.accepted == s.dispatched + InFlight(s.loop) + s.queue
  }

  ghost predicate NoLostWakeup(s: State) {
    s.loop.Parked? && Ready(s) ==> exists t :: WillNotify(PcOf(s, t))
  }

  predicate Final(l: LoopPc) {
    match l
    case Draining(f) => f
    case Popping(f) => f
    case Handling(f, _, _) => f
    case Returned => true
    case _ => false
  }

  predicate StopPhases(s: State) {
    && (Final(s.loop) ==> s.stop)
    && (s.loop.Returned? ==> s.queue == [])
  }

  function Of(items: seq<Item>, t: nat): seq<Envelope> {
    if items == [] then []
    else Of(items[..|items| - 1], t) + (if items[|items| - 1].thread == t then [items[|items| - 1].envelope] else [])
  }

  function Unpushed(pc: Pc): seq<Envelope> {
    match pc
    case Checked(e) => [e]
    case Locked(e) => [e]
    case _ => []
  }

  /** Per thread, in program order: what it posted is what was accepted from it, then what it is
      about to push. After stop only a prefix is accepted. */
  ghost predicate Ordered(s: State, t: nat) {
    if s.stop then Of(s.accepted, t) <= Issued(s, t)
    else Of(s.accepted, t) + Unpushed(PcOf(s, t)) == Issued(s, t)
  }

  ghost predicate ProgramOrder(s: State) {
    forall t :: Ordered(s, t)
  }

  ghost predicate Inv(s: State) {
    MutualExclusion(s) && Accounted(s) && NoLostWakeup(s) && StopPhases(s) && ProgramOrder(s)
  }

  lemma StartInv()
    ensures Inv(START)
  {
  }

  /** Steps of a thread that take, keep or give up the mutex. */
  lemma ExclusionAtMutex(s: State, a: Action)
    requires MutualExclusion(s) && Enabled(s, a) && (a.Lock? || a.Recheck? || a.Unlock?)
    ensures MutualExclusion(Apply(s, a))
  {
    var s' := Apply(s, a);
    assert Holds(PcOf(s, a.thread)) <==> s.mutex == Thread(a.thread);
    forall t ensures Holds(PcOf(s', t)) <==> s'.mutex == Thread(t) {
      assert Holds(PcOf(s, t)) <==> s.mutex == Thread(t);
      assert t != a.thread ==> PcOf(s', t) == PcOf(s, t);
    }
  }

  lemma ExclusionElsewhere(s: State, a: Action)
    requires MutualExclusion(s) && Enabled(s, a) && (a.Begin? || a.Notify?)
    ensures MutualExclusion(Apply(s, a))
  {
    var s' := Apply(s, a);
    forall t ensures Holds(PcOf(s', t)) <==> s'.mutex == Thread(t) {
      assert Holds(PcOf(s, t)) <==> s.mutex == Thread(t);
      assert Holds(PcOf(s', t)) <==> Holds(PcOf(s, t));
    }
  }

  lemma ExclusionByLoop(s: State, a: Action)
    requires MutualExclusion(s) && Enabled(s, a)
    requires !(a.Begin? || a.Lock? || a.Recheck? || a.Unlock? || a.Notify?)
    ensures MutualExclusion(Apply(s, a))
  {
    assert Apply(s, a).pcs == s.pcs;
  }

  lemma ExclusionKept(s: State, a: Action)
    requires MutualExclusion(s) && Enabled(s, a)
    ensures MutualExclusion(Apply(s, a))
  {
    if a.Lock? || a.Recheck? || a.Unlock? {
      ExclusionAtMutex(s, a);
    } else if a.Begin? || a.Notify? {
      ExclusionElsewhere(s, a);
    } else {
      ExclusionByLoop(s, a);
    }
  }

  lemma PopAccounted(s: State, todo: seq<Call>)
    requires Accounted(s) && s.loop.Popping?
    ensures Accounted(DoPop(s, todo))
  {
    if s.queue != [] {
      assert s.queue == [s.queue[0]] + s.queue[1..];
    }
  }

  lemma FinishAccounted(s: State)
    requires Accounted(s) && (s.loop.Firing? || s.loop.Handling?)
    ensures Accounted(DoFinish(s))
  {
  }

  lemma RecheckAccounted(s: State, t: nat)
    requires Accounted(s)
    ensures Accounted(DoRecheck(s, t))
  {
  }

  lemma AccountingKept(s: State, a: Action)
    requires Accounted(s) && Enabled(s, a)
    ensures Accounted(Apply(s, a))
  {
    if a.PopFront? {
      PopAccounted(s, a.todo);
    } else if a.Finish? {
      FinishAccounted(s);
    } else if a.Recheck? {
      RecheckAccounted(s, a.thread);
    }
  }

  lemma WakeupKept(s: State, a: Action)
    requires MutualExclusion(s) && NoLostWakeup(s) && Enabled(s, a)
    ensures NoLostWakeup(Apply(s, a))
  {
    var s' := Apply(s, a);
    if s'.loop.Parked? && Ready(s') {
      if s.loop.Parked? && Ready(s) {
        var t :| WillNotify(PcOf(s, t));
        assert WillNotify(PcOf(s', t));
      } else if a.Recheck? {
        assert WillNotify(PcOf(s', a.thread));
      }
    }
  }

  lemma StopPhasesKept(s: State, a: Action)
    requires StopPhases(s) && Enabled(s, a)
    ensures StopPhases(Apply(s, a))
  {
  }

  lemma OfAppend(items: seq<Item>, x: Item, t: nat)
    ensures Of(items + [x], t) == Of(items, t) + (if x.thread == t then [x.envelope] else [])
  {
    assert (items + [x])[..|items|] == items;
  }

  /** Steps that post, accept and stop nothing. */
  lemma UnchangedFields(s: State, a: Action, t: nat)
    requires Enabled(s, a) && !a.Begin? && !a.Recheck?
    ensures var s' := Apply(s, a);
            s'.accepted == s.accepted && s'.issued == s.issued && s'.stop == s.stop
            && Unpushed(PcOf(s', t)) == Unpushed(PcOf(s, t))
  {
  }

  lemma OrderUnchanged(s: State, a: Action, t: nat)
    requires Ordered(s, t) && Enabled(s, a) && !a.Begin? && !a.Recheck?
    ensures Ordered(Apply(s, a), t)
  {
    UnchangedFields(s, a, t);
  }

  lemma OrderOne(s: State, a: Action, u: nat)
    requires Ordered(s, u) && Enabled(s, a)
    ensures Ordered(Apply(s, a), u)
  {
    if a.Begin? {
      OrderBegin(s, a.thread, a.call, u);
    } else if a.Recheck? {
      OrderRecheck(s, a.thread, u);
    } else {
      OrderUnchanged(s, a, u);
    }
  }

  lemma OrderBegin(s: State, t: nat, c: Call, u: nat)
    requires Ordered(s, u) && PcOf(s, t) == Free
    ensures Ordered(DoBegin(s, t, c), u)
  {
    var s' := DoBegin(s, t, c);
    if c.Post? && t == u {
      assert Unpushed(PcOf(s, t)) == [] && Issued(s', t) == Issued(s, t) + [c.envelope];
    } else {
      assert Issued(s', u) == Issued(s, u) && Unpushed(PcOf(s', u)) == Unpushed(PcOf(s, u));
    }
  }

  lemma OrderRecheck(s: State, t: nat, u: nat)
    requires Ordered(s, u) && (PcOf(s, t).Locked? || PcOf(s, t).StopLocked?)
    ensures Ordered(DoRecheck(s, t), u)
  {
    if PcOf(s, t).Locked? {
      OfAppend(s.accepted, Item(t, PcOf(s, t).envelope), u);
    }
  }

  lemma OrderKept(s: State, a: Action)
    requires ProgramOrder(s) && Enabled(s, a)
    ensures ProgramOrder(Apply(s, a))
  {
    forall u ensures Ordered(Apply(s, a), u) {
      OrderOne(s, a, u);
    }
  }

  lemma {:induction false} AfterInv(s: State, run: seq<Action>)
    requires Inv(s) && Allowed(s, run)
    ensures Inv(After(s, run))
    decreases |run|
  {
    if run != [] {
      ExclusionKept(s, run[0]);
      AccountingKept(s, run[0]);
      WakeupKept(s, run[0]);
      StopPhasesKept(s, run[0]);
      OrderKept(s, run[0]);
      AfterInv(Apply(s, run[0]), run[1..]);
    }
  }

  // ---- Over all interleavings -----------------------------------------------------------------

  /** Envelopes are dispatched in the order in which they took the mutex, none lost, none twice. */
  lemma QueueIsFifo(run: seq<Action>)
    requires Allowed(START, run)
    ensures After(START, run).accepted
         == After(START, run).dispatched + InFlight(After(START, run).loop) + After(START, run).queue
  {
    StartInv();
    AfterInv(START, run);
  }

  /** What is accepted from one thread is a prefix of what it posted, in its own order, and before
      stop nothing of it is missing but the one envelope it has in hand. */
  lemma FifoPerProducer(run: seq<Action>, t: nat)
    requires Allowed(START, run)
    ensures Of(After(START, run).accepted, t) <= Issued(After(START, run), t)
    ensures !After(START, run).stop ==>
      Of(After(START, run).accepted, t) + Unpushed(PcOf(After(START, run), t)) == Issued(After(START, run), t)
  {
    StartInv();
    AfterInv(START, run);
    assert Ordered(After(START, run), t);
  }

  /** If the loop is parked although there is work or a stop request, a notification is on its way. */
  lemma WakeupOnItsWay(run: seq<Action>)
    requires Allowed(START, run) && After(START, run).loop.Parked?
    requires After(START, run).queue != [] || After(START, run).stop
    ensures exists t :: WillNotify(PcOf(After(START, run), t))
  {
    StartInv();
    AfterInv(START, run);
  }

  /** Once the flag is set nothing more is accepted, whatever the threads do. */
  lemma {:induction false} NothingAcceptedAfterStop(s: State, run: seq<Action>)
    requires s.stop && Allowed(s, run)
    ensures After(s, run).stop && After(s, run).accepted == s.accepted
    decreases |run|
  {
    if run != [] {
      NothingAcceptedAfterStop(Apply(s, run[0]), run[1..]);
    }
  }

  lemma {:induction false} ReturnedStays(s: State, run: seq<Action>)
    requires s.loop.Returned? && Allowed(s, run)
    ensures After(s, run).loop.Returned? && After(s, run).dispatched == s.dispatched
    decreases |run|
  {
    if run != [] {
      ReturnedStays(Apply(s, run[0]), run[1..]);
    }
  }

  /** `run` returns only after stop, with everything accepted dispatched, and no later step of any
      thread accepts or queues anything. */
  lemma RunReturnsDrained(run: seq<Action>, later: seq<Action>)
    requires Allowed(START, run) && After(START, run).loop.Returned? && Allowed(After(START, run), later)
    ensures After(START, run).stop
    ensures After(START, run).accepted == After(START, run).dispatched
    ensures After(After(START, run), later).queue == []
    ensures After(After(START, run), later).accepted == After(START, run).accepted
  {
    StartInv();
    AfterInv(START, run);
    var s := After(START, run);
    NothingAcceptedAfterStop(s, later);
    ReturnedStays(s, later);
    AfterInv(s, later);
  }

  /** Counts the dispatches of a run. */
  function Dispatches(run: seq<Action>, s: State): nat
    requires Allowed(s, run)
    decreases |run|
  {
    if run == [] then 0
    else (if run[0].Finish? && s.loop.Handling? then 1 else 0) + Dispatches(run[1..], Apply(s, run[0]))
  }

  lemma {:induction false} DispatchesCount(s: State, run: seq<Action>)
    requires Allowed(s, run)
    ensures |After(s, run).dispatched| == |s.dispatched| + Dispatches(run, s)
    decreases |run|
  {
    if run != [] {
      DispatchesCount(Apply(s, run[0]), run[1..]);
    }
  }

  /** After stop at most what is queued or in hand is still dispatched, whatever the handlers post. */
  lemma DrainAfterStopIsBounded(s: State, run: seq<Action>)
    requires Inv(s) && s.stop && Allowed(s, run)
    ensures Dispatches(run, s) <= |s.queue| + |InFlight(s.loop)|
  {
    DispatchesCount(s, run);
    NothingAcceptedAfterStop(s, run);
    AfterInv(s, run);
  }

  /** A step of a call already begun, or of the loop; not a new call, and not a spurious wake-up. */
  predicate Internal(a: Action) {
    (a.Begin? ==> a.thread == LOOP) && !a.Spurious? && !a.Timeout?
  }

  /** Unless the loop has returned, or waits with nothing to do, some internal step is enabled. */
  lemma SomebodyCanMove(s: State) returns (a: Action)
    requires Inv(s) && !s.loop.Returned? && (s.loop.Parked? ==> Ready(s))
    ensures Enabled(s, a) && Internal(a)
    ensures s.stop ==> Closer(Apply(s, a), s)
  {
    match s.mutex
    case Thread(t) =>
      assert Holds(PcOf(s, t));
      a := if PcOf(s, t).Locked? || PcOf(s, t).StopLocked? then Recheck(t) else Unlock(t);
    case Loop =>
      a := LoopMove(s);
    case Nobody =>
      if s.loop.Parked? {
        var t :| WillNotify(PcOf(s, t));
        assert !Holds(PcOf(s, t));
        a := Notify(t);
      } else {
        a := FreeMove(s);
      }
  }

  lemma LoopMove(s: State) returns (a: Action)
    requires LoopHolds(s.loop)
    ensures Enabled(s, a) && Internal(a)
    ensures s.stop ==> Closer(Apply(s, a), s)
  {
    a := if s.loop.Leaving? then Leave else if s.loop.Popping? then PopFront([]) else Evaluate(false);
  }

  lemma FreeMove(s: State) returns (a: Action)
    requires MutualExclusion(s) && s.mutex == Nobody && !s.loop.Returned? && !s.loop.Parked?
    ensures Enabled(s, a) && Internal(a)
    ensures s.stop ==> Closer(Apply(s, a), s)
  {
    assert !Holds(PcOf(s, LOOP));
    if s.loop.Firing? || s.loop.Handling? {
      var pc := PcOf(s, LOOP);
      a := if pc.Checked? || pc.StopCalled? then Lock(LOOP)
           else if pc != Free then Notify(LOOP)
           else if Todo(s.loop) == [] then Finish
           else Begin(LOOP, Todo(s.loop)[0]);
    } else {
      a := if s.loop.Collecting? then Collect([]) else if s.loop.Deciding? then Decide else Acquire;
    }
  }

  function LoopRank(l: LoopPc): nat {
    match l
    case Parked(_) => 13
    case Top => 12
    case Woken(_, _) => 12
    case Evaluating => 11
    case Reevaluating(_, _) => 11
    case Leaving => 10
    case Collecting => 9
    case Firing(_) => 8
    case Handling(f, _, _) => if f then 3 else 7
    case Draining(f) => if f then 2 else 6
    case Popping(f) => if f then 1 else 5
    case Deciding => 4
    case Returned => 0
  }

  function PcRank(pc: Pc): nat {
    match pc
    case Free => 0
    case Notifying => 1
    case StopNotifying => 1
    case Checked(_) => 4
    case StopCalled => 4
    case Locked(_) => 3
    case StopLocked => 3
    case _ => 2
  }

  function HolderRank(s: State): nat {
    match s.mutex
    case Thread(t) => PcRank(PcOf(s, t))
    case _ => 0
  }

  /** Lexicographic: fewer queued, else further in the loop, else less to post, else further in a call. */
  predicate Closer(t: State, s: State) {
    |t.queue| < |s.queue| || (|t.queue| == |s.queue| &&
    (LoopRank(t.loop) < LoopRank(s.loop) || (LoopRank(t.loop) == LoopRank(s.loop) &&
    (|Todo(t.loop)| < |Todo(s.loop)| || (|Todo(t.loop)| == |Todo(s.loop)| &&
    (PcRank(PcOf(t, LOOP)) < PcRank(PcOf(s, LOOP)) || (PcRank(PcOf(t, LOOP)) == PcRank(PcOf(s, LOOP)) &&
    HolderRank(t) < HolderRank(s))))))))
  }

  /** No deadlock and no lost wake-up: after stop, `run` can always be carried on to its return
      without any new call, timeout or spurious wake-up. */
  lemma {:induction false} StopLeadsToReturn(s: State) returns (run: seq<Action>)
    requires Inv(s) && s.stop
    ensures Allowed(s, run) && After(s, run).loop.Returned?
    ensures forall i :: 0 <= i < |run| ==> Internal(run[i])
    decreases |s.queue|, LoopRank(s.loop), |Todo(s.loop)|, PcRank(PcOf(s, LOOP)), HolderRank(s)
  {
    if s.loop.Returned? {
      run := [];
    } else {
      var a := SomebodyCanMove(s);
      OneStep(s, a);
      AfterInv(s, [a]);
      var rest := StopLeadsToReturn(Apply(s, a));
      run := [a] + rest;
      assert run[1..] == rest;
    }
  }

  lemma OneStep(s: State, a: Action)
    requires Enabled(s, a)
    ensures Allowed(s, [a]) && After(s, [a]) == Apply(s, a)
    ensures s.stop ==> Apply(s, a).stop
  {
    assert [a][1..] == [];
  }
}
