/** The locals of a flow are bracketed: what is constructed is destructed before anything else is
    constructed, and handlers run in between. */
module FlowBrackets {
  import opened FlowMachine

  datatype Brackets<+S> = Shut | Open(state: S) | Broken

  function After<S(==), E>(b: Brackets<S>, e: Event<S, E>): Brackets<S> {
    match e
    case Construct(s) => if b.Shut? then Open(s) else Broken
    case Handle(s, _) => if b == Open(s) then b else Broken
    case Destruct(s) => if b == Open(s) then Shut else Broken
    case Callback => if b.Shut? then Shut else Broken
  }

  function Reading<S(==), E>(trace: seq<Event<S, E>>): Brackets<S> {
    if trace == [] then Shut else After(Reading(trace[..|trace| - 1]), trace[|trace| - 1])
  }

  lemma ReadMore<S, E>(trace: seq<Event<S, E>>, e: Event<S, E>)
    ensures Reading(trace + [e]) == After(Reading(trace), e)
  {
    assert (trace + [e])[..|trace|] == trace;
  }

  lemma ReadTwo<S, E>(trace: seq<Event<S, E>>, e: Event<S, E>, f: Event<S, E>)
    ensures Reading(trace + [e, f]) == After(After(Reading(trace), e), f)
  {
    assert trace + [e, f] == (trace + [e]) + [f];
    ReadMore(trace, e);
    ReadMore(trace + [e], f);
  }

  /** At most one pair of brackets is open, exactly when the flow is active, around its current state. */
  predicate Bracketed<S(==), E>(m: Machine<S, E>) {
    Reading(m.trace) == if m.active then Open(m.current) else Shut
  }

  lemma CloseKeeps<S, E>(m: Machine<S, E>)
    requires Bracketed(m)
    ensures Bracketed(Close(m)) && !Close(m).active && Left(Close(m)) == Left(m)
  {
    ReadMore(m.trace, Destruct(m.current));
  }

  /** Steps keep the brackets, across chains on one envelope, completion and re-entry. */
  lemma {:induction false} StepKeeps<S, E>(m: Machine<S, E>, initial: S, input: Input<E>)
    requires Bracketed(m) && m.active
    ensures Bracketed(Step(m, initial, input))
    decreases Left(m), 0
  {
    var m1 := Asked(m, input);
    ReadMore(m.trace, Handle(m.current, input));
    match Answer(m)
    case Stay =>
    case Transition(next) => ReadTwo(m1.trace, Destruct(m.current), Construct(next));
    case TransitionNow(next) =>
      ReadTwo(m1.trace, Destruct(m.current), Construct(next));
      StepKeeps(Switch(m1, next), initial, input);
    case Done =>
      CloseKeeps(m1);
      ReadMore(Close(m1).trace, Callback);
      CompleteKeeps(Log(Close(m1), [Callback]), initial);
  }

  lemma {:induction false} EnterKeeps<S, E>(m: Machine<S, E>, initial: S)
    requires Bracketed(m) && !m.active
    ensures Bracketed(Enter(m, initial))
    decreases Left(m), 1
  {
    ReadMore(m.trace, Construct(initial));
    StepKeeps(Log(m.(current := initial, active := true), [Construct(initial)]), initial, Init);
  }

  lemma {:induction false} CompleteKeeps<S, E>(m: Machine<S, E>, initial: S)
    requires Bracketed(m)
    ensures Bracketed(Complete(m, initial))
    decreases Left(m), 2
  {
    if m.requests != [] && !m.faulted {
      var m1 := m.(requests := m.requests[1..]);
      match m.requests[0]
      case Return =>
      case Terminate =>
        CloseKeeps(m1);
        CompleteKeeps(Close(m1), initial);
      case Restart =>
        CloseKeeps(m1);
        EnterKeeps(Close(m1), initial);
        CompleteKeeps(Enter(Close(m1), initial), initial);
      case Deliver(e) =>
        if m1.active {
          StepKeeps(m1, initial, Message(e));
          CompleteKeeps(Step(m1, initial, Message(e)), initial);
        }
      case Begin =>
        if !m1.active {
          EnterKeeps(m1, initial);
          CompleteKeeps(Enter(m1, initial), initial);
        }
    }
  }
}
