/** What each call of a flow does first: from outside and from the completion callback. */
module FlowEntries {
  import opened FlowMachine
  import opened FlowTheorems

  lemma Longer<X>(a: seq<X>, b: seq<X>, c: seq<X>)
    requires a + b <= c
    ensures a <= c
  {
    assert c[..|a|] == a;
  }

  /** The handler of the current state is the first to see the envelope. */
  lemma StepBegins<S, E>(m: Machine<S, E>, initial: S, input: Input<E>)
    ensures m.trace + [Handle(m.current, input)] <= Step(m, initial, input).trace
  {
    var m1 := Asked(m, input);
    match Answer(m)
    case Stay =>
    case Transition(next) =>
    case TransitionNow(next) =>
      StepExtends(Switch(m1, next), initial, input);
      Longer(m1.trace, [Destruct(m.current), Construct(next)], Step(m, initial, input).trace);
    case Done =>
      CompleteExtends(Log(Close(m1), [Callback]), initial);
      Longer(Close(m1).trace, [Callback], Step(m, initial, input).trace);
      if m1.active { Longer(m1.trace, [Destruct(m.current)], Step(m, initial, input).trace); }
  }

  /** Whatever state was left last, a flow begins in its initial state: its locals are constructed, and it
      is handed the synthetic envelope. There it rests if its handler stays. */
  lemma EnterBegins<S, E>(m: Machine<S, E>, initial: S)
    ensures m.trace + [Construct(initial), Handle(initial, Init)] <= Enter(m, initial).trace
    ensures Answer(m).Stay? ==>
      var r := Enter(m, initial);
      r.current == initial && r.active && r.trace == m.trace + [Construct(initial), Handle(initial, Init)]
  {
    var m1 := Log(m.(current := initial, active := true), [Construct(initial)]);
    StepBegins(m1, initial, Init);
    assert m.trace + [Construct(initial)] + [Handle(initial, Init)] == m.trace + [Construct(initial), Handle(initial, Init)];
  }

  /** A restart ends an active flow first. */
  lemma RestartBegins<S, E>(m: Machine<S, E>, initial: S)
    ensures var ended: seq<Event<S, E>> := if m.active then [Destruct(m.current)] else [];
            m.trace + ended + [Construct(initial), Handle(initial, Init)] <= Enter(Close(m), initial).trace
  {
    EnterBegins(Close(m), initial);
    assert !m.active ==> m.trace + [] == m.trace;
  }

  /** What a request of the callback logs first. */
  function FirstEvents<S, E>(m: Machine<S, E>, initial: S, r: Request<E>): seq<Event<S, E>> {
    match r
    case Return => []
    case Terminate => if m.active then [Destruct(m.current)] else []
    case Restart => (if m.active then [Destruct(m.current)] else []) + [Construct(initial), Handle(initial, Init)]
    case Deliver(e) => if m.active then [Handle(m.current, Message(e))] else []
    case Begin => if m.active then [] else [Construct(initial), Handle(initial, Init)]
  }

  /** The call from outside that does the same. */
  function AsCall<E>(r: Request<E>): Call<E>
    requires !r.Return?
  {
    match r
    case Terminate => Terminated
    case Restart => Restarted
    case Deliver(e) => Call.Deliver(e)
    case Begin => Start
  }

  /** In `on_flow_done` the flow does what it is asked for, in the order of asking, until the callback
      returns: each request is served as the call from outside would be, under the same assertions. */
  lemma CallbackServes<S, E>(m: Machine<S, E>, initial: S)
    requires m.requests != [] && !m.faulted && !m.requests[0].Return?
    ensures var c := AsCall(m.requests[0]);
            var m1 := m.(requests := m.requests[1..]);
            if CallAllowed(m, true, c) then Complete(m, initial) == Complete(Served(m1, initial, c), initial)
            else Complete(m, initial) == m1.(faulted := true)
  {
  }

  lemma CallbackReturns<S, E>(m: Machine<S, E>, initial: S, more: seq<Request<E>>)
    requires m.requests == [Return] + more && !m.faulted
    ensures Complete(m, initial) == m.(requests := more)
  {
    assert m.requests[1..] == more;
  }

  /** The events that it begins with. */
  lemma CallbackBegins<S, E>(m: Machine<S, E>, initial: S)
    requires m.requests != [] && !m.faulted
    ensures m.trace + FirstEvents(m, initial, m.requests[0]) <= Complete(m, initial).trace
  {
    var m1 := m.(requests := m.requests[1..]);
    assert m.trace + [] == m.trace;
    match m.requests[0]
    case Return =>
    case Terminate => CompleteExtends(Close(m1), initial);
    case Restart =>
      RestartBegins(m1, initial);
      CompleteExtends(Enter(Close(m1), initial), initial);
      var ended: seq<Event<S, E>> := if m.active then [Destruct(m.current)] else [];
      assert m.trace + ended + [Construct(initial), Handle(initial, Init)]
          == m.trace + (ended + [Construct(initial), Handle(initial, Init)]);
    case Deliver(e) =>
      if m.active {
        StepBegins(m1, initial, Message(e));
        CompleteExtends(Step(m1, initial, Message(e)), initial);
      }
    case Begin =>
      if !m.active {
        EnterBegins(m1, initial);
        CompleteExtends(Enter(m1, initial), initial);
      }
  }
}
