/** Flows: what the loop in `step`, the entry in `start` and `restart` and the completion callback do
    to the current state and its locals, for arbitrary handlers and callbacks.

    Handlers and callbacks are arbitrary, so they are given as what they answer: `answers` lists the
    directives that state handlers will return, `requests` what `on_flow_done` will ask for, each in
    the order of asking. A handler that is not listed stays, a callback that is not listed returns.
    Every execution that comes to an end is the one of its two lists. */
module FlowMachine {
  import opened FlowSpec

  /** The synthetic envelope of `start` and `restart`, or one that was dispatched. */
  datatype Input<+E> = Init | Message(envelope: E)

  datatype Event<+S, +E> =
    | Construct(state: S)
    | Handle(state: S, input: Input<E>)
    | Destruct(state: S)
    | Callback

  /** What `on_flow_done` can call: `restart`, `terminate`, `step` and `start`; then it returns. */
  datatype Request<+E> = Restart | Terminate | Deliver(envelope: E) | Begin | Return

  /** `faulted` says that an assertion has failed; nothing happens after that. */
  datatype Machine<S, E> = Machine(
    current: S,
    active: bool,
    faulted: bool,
    answers: seq<Directive<S>>,
    requests: seq<Request<E>>,
    trace: seq<Event<S, E>>)

  function Left<S, E>(m: Machine<S, E>): nat {
    |m.answers| + |m.requests|
  }

  function Log<S, E>(m: Machine<S, E>, events: seq<Event<S, E>>): Machine<S, E> {
    m.(trace := m.trace + events)
  }

  /** The handler of the current state is called and answers. */
  function Answer<S, E>(m: Machine<S, E>): Directive<S> {
    if m.answers == [] then Stay else m.answers[0]
  }

  function Asked<S, E>(m: Machine<S, E>, input: Input<E>): Machine<S, E> {
    Log(m.(answers := if m.answers == [] then [] else m.answers[1..]), [Handle(m.current, input)])
  }

  function Switch<S, E>(m: Machine<S, E>, next: S): Machine<S, E> {
    Log(m.(current := next), [Destruct(m.current), Construct(next)])
  }

  function Close<S, E>(m: Machine<S, E>): Machine<S, E> {
    if m.active then Log(m.(active := false), [Destruct(m.current)]) else m
  }

  function Step<S, E>(m: Machine<S, E>, initial: S, input: Input<E>): (r: Machine<S, E>)
    ensures Left(r) <= Left(m)
    decreases Left(m), 0
  {
    var d := Answer(m);
    var m1 := Asked(m, input);
    match d
    case Stay => m1
    case Transition(next) => Switch(m1, next)
    case TransitionNow(next) => Step(Switch(m1, next), initial, input)
    case Done => Complete(Log(Close(m1), [Callback]), initial)
  }

  /** Enters the initial state and dispatches the init envelope to it. */
  function Enter<S, E>(m: Machine<S, E>, initial: S): (r: Machine<S, E>)
    ensures Left(r) <= Left(m)
    decreases Left(m), 1
  {
    Step(Log(m.(current := initial, active := true), [Construct(initial)]), initial, Init)
  }

  /** `on_flow_done`: serves the requests of the callback until it returns. `step` is asserted to find the
      flow active, `start` to find it inactive. */
  function Complete<S, E>(m: Machine<S, E>, initial: S): (r: Machine<S, E>)
    ensures Left(r) <= Left(m)
    decreases Left(m), 2
  {
    if m.requests == [] || m.faulted then m
    else
      var m1 := m.(requests := m.requests[1..]);
      match m.requests[0]
      case Return => m1
      case Terminate => Complete(Close(m1), initial)
      case Restart => Complete(Enter(Close(m1), initial), initial)
      case Deliver(e) => if m1.active then Complete(Step(m1, initial, Message(e)), initial) else m1.(faulted := true)
      case Begin => if m1.active then m1.(faulted := true) else Complete(Enter(m1, initial), initial)
  }
}
