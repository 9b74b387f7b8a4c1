/** What holds of every flow: the grammar of its traces, what a callback and a handler may rely on, how
    long a chain on one envelope can be, and what is left when the flow is destroyed. */
module FlowTheorems {
  import opened FlowBrackets
  import opened FlowMachine
  import opened FlowSpec

  // ---- The grammar of traces ------------------------------------------------------------------

  /** One complete stay in a state, or one call of the completion callback. */
  datatype Item<+S, +E> = Visit(state: S, inputs: seq<Input<E>>) | Called

  function Handles<S, E>(s: S, inputs: seq<Input<E>>): seq<Event<S, E>> {
    if inputs == [] then [] else Handles(s, inputs[..|inputs| - 1]) + [Handle(s, inputs[|inputs| - 1])]
  }

  function Opening<S, E>(s: S, inputs: seq<Input<E>>): seq<Event<S, E>> {
    [Construct(s)] + Handles(s, inputs)
  }

  function Spelled<S, E>(item: Item<S, E>): seq<Event<S, E>> {
    match item
    case Visit(s, inputs) => Opening(s, inputs) + [Destruct(s)]
    case Called => [Callback]
  }

  function Spelling<S, E>(items: seq<Item<S, E>>): seq<Event<S, E>> {
    if items == [] then [] else Spelling(items[..|items| - 1]) + Spelled(items[|items| - 1])
  }

  /** Complete stays and callbacks, one after the other, with no locals alive at the end. */
  ghost predicate Whole<S(!new), E(!new)>(trace: seq<Event<S, E>>) {
    exists items: seq<Item<S, E>> :: Spelling(items) == trace
  }

  /** As before, with the locals of `s` still alive at the end. */
  ghost predicate Ongoing<S(!new), E(!new)>(trace: seq<Event<S, E>>, s: S) {
    exists items: seq<Item<S, E>>, inputs: seq<Input<E>> :: Spelling(items) + Opening(s, inputs) == trace
  }

  lemma {:induction false} ReadOpening<S, E>(trace: seq<Event<S, E>>, s: S, inputs: seq<Input<E>>)
    requires Reading(trace) == Shut
    ensures Reading(trace + Opening(s, inputs)) == Open(s)
    decreases |inputs|
  {
    if inputs == [] {
      assert Opening(s, inputs) == [Event<S, E>.Construct(s)];
      ReadMore(trace, Construct(s));
    } else {
      var n := |inputs| - 1;
      ReadOpening(trace, s, inputs[..n]);
      ReadMore(trace + Opening(s, inputs[..n]), Handle(s, inputs[n]));
      assert trace + Opening(s, inputs) == trace + Opening(s, inputs[..n]) + [Handle(s, inputs[n])];
    }
  }

  lemma ReadItem<S, E>(trace: seq<Event<S, E>>, item: Item<S, E>)
    requires Reading(trace) == Shut
    ensures Reading(trace + Spelled(item)) == Shut
  {
    match item
    case Called => ReadMore(trace, Callback);
    case Visit(s, inputs) =>
      ReadOpening(trace, s, inputs);
      ReadMore(trace + Opening(s, inputs), Destruct(s));
      assert trace + Spelled(item) == trace + Opening(s, inputs) + [Destruct(s)];
  }

  lemma {:induction false} ReadSpelling<S, E>(items: seq<Item<S, E>>)
    ensures Reading(Spelling(items)) == Shut
  {
    if items != [] {
      var n := |items| - 1;
      ReadSpelling(items[..n]);
      ReadItem(Spelling(items[..n]), items[n]);
    }
  }

  lemma AddItem<S, E>(items: seq<Item<S, E>>, item: Item<S, E>)
    ensures Spelling(items + [item]) == Spelling(items) + Spelled(item)
  {
    assert (items + [item])[..|items|] == items;
  }

  lemma WholeGrows<S(!new), E(!new)>(trace: seq<Event<S, E>>)
    requires Whole(trace)
    ensures Whole(trace + [Callback])
  {
    var items: seq<Item<S, E>> :| Spelling(items) == trace;
    AddItem(items, Called);
  }

  lemma WholeOpens<S(!new), E(!new)>(trace: seq<Event<S, E>>, s: S)
    requires Whole(trace)
    ensures Ongoing(trace + [Construct(s)], s)
  {
    var items: seq<Item<S, E>> :| Spelling(items) == trace;
    assert Spelling(items) + Opening(s, []) == trace + [Construct(s)];
  }

  lemma OngoingGrows<S(!new), E(!new)>(trace: seq<Event<S, E>>, s: S, input: Input<E>)
    requires Ongoing(trace, s)
    ensures Ongoing(trace + [Handle(s, input)], s)
  {
    var items: seq<Item<S, E>>, inputs: seq<Input<E>> :| Spelling(items) + Opening(s, inputs) == trace;
    assert (inputs + [input])[..|inputs|] == inputs;
    assert Opening(s, inputs + [input]) == Opening(s, inputs) + [Handle(s, input)];
    assert Spelling(items) + Opening(s, inputs + [input]) == trace + [Handle(s, input)];
  }

  lemma OngoingCloses<S(!new), E(!new)>(trace: seq<Event<S, E>>, s: S)
    requires Ongoing(trace, s)
    ensures Whole(trace + [Destruct(s)])
  {
    var items: seq<Item<S, E>>, inputs: seq<Input<E>> :| Spelling(items) + Opening(s, inputs) == trace;
    AddItem(items, Visit(s, inputs));
    assert Spelling(items + [Visit(s, inputs)]) == trace + [Destruct(s)];
  }

  lemma {:induction false} ReadingIsStays<S(!new), E(!new)>(trace: seq<Event<S, E>>)
    ensures Reading(trace) == Shut ==> Whole(trace)
    ensures Reading(trace).Open? ==> Ongoing(trace, Reading(trace).state)
    decreases |trace|
  {
    if trace == [] {
      assert Spelling<S, E>([]) == trace;
    } else {
      var n := |trace| - 1;
      assert trace == trace[..n] + [trace[n]];
      ReadingIsStays(trace[..n]);
      if Reading(trace) != Broken {
        match trace[n]
        case Callback => WholeGrows(trace[..n]);
        case Construct(s) => WholeOpens(trace[..n], s);
        case Handle(s, input) => OngoingGrows(trace[..n], s, input);
        case Destruct(s) => OngoingCloses(trace[..n], s);
      }
    }
  }

  /** The automaton accepts exactly the sequences of complete stays, with at most one stay open at the
      end, and that one of the state it names. */
  lemma BracketsAreStays<S(!new), E(!new)>(trace: seq<Event<S, E>>, s: S)
    ensures Reading(trace) == Shut <==> Whole(trace)
    ensures Reading(trace) == Open(s) <==> Ongoing(trace, s)
  {
    ReadingIsStays(trace);
    if Whole(trace) {
      var items: seq<Item<S, E>> :| Spelling(items) == trace;
      ReadSpelling(items);
    }
    if Ongoing(trace, s) {
      var items: seq<Item<S, E>>, inputs: seq<Input<E>> :| Spelling(items) + Opening(s, inputs) == trace;
      ReadSpelling(items);
      ReadOpening(Spelling(items), s, inputs);
    }
  }

  // ---- What handlers and callbacks may rely on ------------------------------------------------

  lemma {:induction false} PrefixReads<S, E>(trace: seq<Event<S, E>>, k: nat)
    requires Reading(trace) != Broken && k <= |trace|
    ensures Reading(trace[..k]) != Broken
    decreases |trace|
  {
    if k < |trace| {
      var shorter := trace[..|trace| - 1];
      PrefixReads(shorter, k);
      assert shorter[..k] == trace[..k];
    } else {
      assert trace[..k] == trace;
    }
  }

  /** At any moment of the past, whatever runs finds exactly the locals it belongs to. */
  lemma {:induction false} EverythingInPlace<S, E>(m: Machine<S, E>, k: nat)
    requires Bracketed(m) && k < |m.trace|
    ensures m.trace[k].Callback? ==> Reading(m.trace[..k]) == Shut
    ensures m.trace[k].Construct? ==> Reading(m.trace[..k]) == Shut
    ensures m.trace[k].Handle? ==> Reading(m.trace[..k]) == Open(m.trace[k].state)
    ensures m.trace[k].Destruct? ==> Reading(m.trace[..k]) == Open(m.trace[k].state)
  {
    PrefixReads(m.trace, k + 1);
    assert m.trace[..k + 1][..k] == m.trace[..k];
  }

  // ---- Calls from outside ---------------------------------------------------------------------

  datatype Call<+E> = Start | Deliver(envelope: E) | Terminated | Restarted | Destroyed

  /** What the assertions of the operations ask of the caller. `bound` says that `start` has run. */
  predicate CallAllowed<S, E>(m: Machine<S, E>, bound: bool, c: Call<E>) {
    !m.faulted &&
    match c
    case Start => !m.active
    case Deliver(_) => m.active
    case Terminated => true
    case Restarted => bound
    case Destroyed => true
  }

  function Served<S, E>(m: Machine<S, E>, initial: S, c: Call<E>): Machine<S, E> {
    match c
    case Start => Enter(m, initial)
    case Deliver(e) => Step(m, initial, Message(e))
    case Terminated => Close(m)
    case Restarted => Enter(Close(m), initial)
    case Destroyed => Close(m)
  }

  predicate CallsAllowed<S, E>(m: Machine<S, E>, bound: bool, initial: S, calls: seq<Call<E>>)
    decreases |calls|
  {
    calls == [] ||
    (CallAllowed(m, bound, calls[0]) &&
     CallsAllowed(Served(m, initial, calls[0]), bound || calls[0].Start?, initial, calls[1..]))
  }

  function AfterCalls<S, E>(m: Machine<S, E>, initial: S, calls: seq<Call<E>>): Machine<S, E>
    decreases |calls|
  {
    if calls == [] then m else AfterCalls(Served(m, initial, calls[0]), initial, calls[1..])
  }

  lemma ServedKeeps<S, E>(m: Machine<S, E>, bound: bool, initial: S, c: Call<E>)
    requires Bracketed(m) && CallAllowed(m, bound, c)
    ensures Bracketed(Served(m, initial, c))
    ensures c.Terminated? || c.Destroyed? ==> !Served(m, initial, c).active
  {
    match c
    case Start => EnterKeeps(m, initial);
    case Deliver(e) => StepKeeps(m, initial, Message(e));
    case Terminated => CloseKeeps(m);
    case Restarted =>
      CloseKeeps(m);
      EnterKeeps(Close(m), initial);
    case Destroyed => CloseKeeps(m);
  }

  /** Whatever the handlers answer, whatever the callbacks ask for and whatever calls come in, the
      locals are bracketed. */
  lemma {:induction false} FlowsAreBracketed<S, E>(m: Machine<S, E>, bound: bool, initial: S, calls: seq<Call<E>>)
    requires Bracketed(m) && CallsAllowed(m, bound, initial, calls)
    ensures Bracketed(AfterCalls(m, initial, calls))
    decreases |calls|
  {
    if calls != [] {
      ServedKeeps(m, bound, initial, calls[0]);
      FlowsAreBracketed(Served(m, initial, calls[0]), bound || calls[0].Start?, initial, calls[1..]);
    }
  }

  lemma {:induction false} CallsInTwo<S, E>(m: Machine<S, E>, initial: S, calls: seq<Call<E>>, last: Call<E>)
    ensures AfterCalls(m, initial, calls + [last]) == Served(AfterCalls(m, initial, calls), initial, last)
    decreases |calls|
  {
    if calls == [] {
      assert calls + [last] == [last];
    } else {
      assert (calls + [last])[1..] == calls[1..] + [last];
      CallsInTwo(Served(m, initial, calls[0]), initial, calls[1..], last);
    }
  }

  function Constructs<S(==), E>(trace: seq<Event<S, E>>, s: S): nat {
    if trace == [] then 0
    else Constructs(trace[..|trace| - 1], s) + (if trace[|trace| - 1] == Construct(s) then 1 else 0)
  }

  function Destructs<S(==), E>(trace: seq<Event<S, E>>, s: S): nat {
    if trace == [] then 0
    else Destructs(trace[..|trace| - 1], s) + (if trace[|trace| - 1] == Destruct(s) then 1 else 0)
  }

  lemma {:induction false} ReadingBalances<S, E>(trace: seq<Event<S, E>>, s: S)
    requires Reading(trace) != Broken
    ensures Constructs(trace, s) == Destructs(trace, s) + (if Reading(trace) == Open(s) then 1 else 0)
    decreases |trace|
  {
    if trace != [] {
      ReadingBalances(trace[..|trace| - 1], s);
    }
  }

  /** A flow that is destroyed has destructed the locals of every state as often as it constructed
      them: subscriptions and timers held by locals are released exactly once. */
  lemma NothingLeaks<S, E>(initial: S, answers: seq<Directive<S>>, requests: seq<Request<E>>, calls: seq<Call<E>>, s: S)
    requires CallsAllowed(Machine(initial, false, false, answers, requests, []), false, initial, calls)
    ensures
      var end := AfterCalls(Machine(initial, false, false, answers, requests, []), initial, calls + [Destroyed]);
      Constructs(end.trace, s) == Destructs(end.trace, s)
  {
    var m := Machine(initial, false, false, answers, requests, []);
    FlowsAreBracketed(m, false, initial, calls);
    CallsInTwo(m, initial, calls, Destroyed);
    CloseKeeps(AfterCalls(m, initial, calls));
    ReadingBalances(AfterCalls(m, initial, calls + [Destroyed]).trace, s);
  }

  // ---- Chains on one envelope -----------------------------------------------------------------

  /** The states a chain enters: each names the next by `TransitionNow`. */
  function Chain<S>(answers: seq<Directive<S>>, n: nat): seq<S>
    requires n <= |answers| && forall k :: 0 <= k < n ==> answers[k].TransitionNow?
  {
    if n == 0 then [] else [answers[0].next] + Chain(answers[1..], n - 1)
  }

  /** The part of the trace that handles one envelope: every state of the chain is constructed, is
      handed that same envelope and is left again. */
  function ChainTrace<S, E>(s: S, states: seq<S>, input: Input<E>): seq<Event<S, E>>
    decreases |states|
  {
    if states == [] then []
    else [Handle(s, input), Destruct(s), Construct(states[0])] + ChainTrace(states[0], states[1..], input)
  }

  function LastOf<S>(s: S, states: seq<S>): S {
    if states == [] then s else states[|states| - 1]
  }

  /** The machine after one link of a chain, and after `n`. */
  function Linked<S, E>(m: Machine<S, E>, input: Input<E>): Machine<S, E>
    requires m.answers != [] && m.answers[0].TransitionNow?
  {
    Switch(Asked(m, input), m.answers[0].next)
  }

  function Chained<S, E>(m: Machine<S, E>, input: Input<E>, n: nat): Machine<S, E>
    requires n <= |m.answers| && forall k :: 0 <= k < n ==> m.answers[k].TransitionNow?
    decreases n
  {
    if n == 0 then m else Chained(Linked(m, input), input, n - 1)
  }

  lemma {:induction false} ChainSteps<S, E>(m: Machine<S, E>, initial: S, input: Input<E>, n: nat)
    requires n <= |m.answers| && forall k :: 0 <= k < n ==> m.answers[k].TransitionNow?
    ensures Step(m, initial, input) == Step(Chained(m, input, n), initial, input)
    decreases n
  {
    if n > 0 {
      ChainSteps(Linked(m, input), initial, input, n - 1);
    }
  }

  lemma LinkedIs<S, E>(m: Machine<S, E>, input: Input<E>)
    requires m.answers != [] && m.answers[0].TransitionNow?
    ensures Linked(m, input) == m.(current := m.answers[0].next, answers := m.answers[1..],
      trace := m.trace + [Handle(m.current, input), Destruct(m.current), Construct(m.answers[0].next)])
  {
    assert m.trace + [Handle(m.current, input)] + [Destruct(m.current), Construct(m.answers[0].next)] ==
      m.trace + [Handle(m.current, input), Destruct(m.current), Construct(m.answers[0].next)];
  }

  lemma {:induction false} ChainedIs<S, E>(m: Machine<S, E>, input: Input<E>, n: nat)
    requires n <= |m.answers| && forall k :: 0 <= k < n ==> m.answers[k].TransitionNow?
    ensures
      var states := Chain(m.answers, n);
      Chained(m, input, n) ==
      m.(current := LastOf(m.current, states), answers := m.answers[n..], trace := m.trace + ChainTrace(m.current, states, input))
    decreases n
  {
    if n > 0 {
      var next := m.answers[0].next;
      var events := [Handle(m.current, input), Destruct(m.current), Construct(next)];
      LinkedIs(m, input);
      ChainedIs(Linked(m, input), input, n - 1);
      var states := Chain(m.answers[1..], n - 1);
      assert ([next] + states)[1..] == states;
      assert m.trace + events + ChainTrace(next, states, input) == m.trace + (events + ChainTrace(next, states, input));
    } else {
      assert m.trace + ChainTrace(m.current, [], input) == m.trace;
    }
  }

  /** A step whose first answers are `TransitionNow` runs the chain on one envelope and goes on from the
      last state of it, with that envelope again. */
  lemma ChainIsOneEnvelope<S, E>(m: Machine<S, E>, initial: S, input: Input<E>, n: nat)
    requires n <= |m.answers| && forall k :: 0 <= k < n ==> m.answers[k].TransitionNow?
    ensures
      var states := Chain(m.answers, n);
      Step(m, initial, input) ==
      Step(m.(current := LastOf(m.current, states), answers := m.answers[n..],
              trace := m.trace + ChainTrace(m.current, states, input)), initial, input)
  {
    ChainSteps(m, initial, input, n);
    ChainedIs(m, input, n);
  }

  /** One step in full: the chain, then the last state answers, and its answer decides how the step ends.
      Only `TransitionNow` goes on with the same envelope; the callback comes when the locals are gone. */
  lemma StepInFull<S, E>(m: Machine<S, E>, initial: S, input: Input<E>, n: nat)
    requires m.active && n <= |m.answers| && forall k :: 0 <= k < n ==> m.answers[k].TransitionNow?
    requires n < |m.answers| ==> !m.answers[n].TransitionNow?
    ensures
      var states := Chain(m.answers, n);
      var last := LastOf(m.current, states);
      var rest := if n < |m.answers| then m.answers[n + 1..] else [];
      var end := m.(current := last, answers := rest,
                    trace := m.trace + ChainTrace(m.current, states, input) + [Handle(last, input)]);
      Step(m, initial, input) ==
        match if n < |m.answers| then m.answers[n] else Stay
        case Stay => end
        case Transition(next) => Log(end.(current := next), [Destruct(last), Construct(next)])
        case Done => Complete(Log(Log(end.(active := false), [Destruct(last)]), [Callback]), initial)
        case TransitionNow(_) => end
  {
    ChainIsOneEnvelope(m, initial, input, n);
    assert m.answers[n..] == if n < |m.answers| then [m.answers[n]] + m.answers[n + 1..] else [];
  }

  // ---- How often one envelope is handled ------------------------------------------------------

  /** How many answers in a row send the envelope on. */
  function Leading<S>(answers: seq<Directive<S>>): (n: nat)
    ensures n <= |answers| && forall k :: 0 <= k < n ==> answers[k].TransitionNow?
    ensures n < |answers| ==> !answers[n].TransitionNow?
  {
    if answers == [] || !answers[0].TransitionNow? then 0 else 1 + Leading(answers[1..])
  }

  function HandlesIn<S, E>(events: seq<Event<S, E>>): nat {
    if events == [] then 0 else (if events[0].Handle? then 1 else 0) + HandlesIn(events[1..])
  }

  lemma {:induction false} HandlesConcat<S, E>(a: seq<Event<S, E>>, b: seq<Event<S, E>>)
    ensures HandlesIn(a + b) == HandlesIn(a) + HandlesIn(b)
  {
    if a == [] {
      assert a + b == b;
    } else {
      assert (a + b)[1..] == a[1..] + b;
      HandlesConcat(a[1..], b);
    }
  }

  lemma {:induction false} NoHandles<S, E>(events: seq<Event<S, E>>)
    requires forall k :: 0 <= k < |events| ==> !events[k].Handle?
    ensures HandlesIn(events) == 0
  {
    if events != [] {
      NoHandles(events[1..]);
    }
  }

  /** Events of one envelope, without a callback. */
  predicate OnlyFor<S, E(==)>(events: seq<Event<S, E>>, input: Input<E>) {
    forall k :: 0 <= k < |events| ==> !events[k].Callback? && (events[k].Handle? ==> events[k].input == input)
  }

  lemma {:induction false} ChainTraceHandles<S, E>(s: S, states: seq<S>, input: Input<E>)
    ensures HandlesIn(ChainTrace(s, states, input)) == |states| && OnlyFor(ChainTrace(s, states, input), input)
    decreases |states|
  {
    if states != [] {
      var rest := ChainTrace(states[0], states[1..], input);
      var link: seq<Event<S, E>> := [Handle(s, input), Destruct(s), Construct(states[0])];
      ChainTraceHandles(states[0], states[1..], input);
      HandlesConcat(link, rest);
      NoHandles(link[1..]);
    }
  }

  lemma {:induction false} ChainLength<S>(answers: seq<Directive<S>>, n: nat)
    requires n <= |answers| && forall k :: 0 <= k < n ==> answers[k].TransitionNow?
    ensures |Chain(answers, n)| == n
    decreases n
  {
    if n > 0 {
      ChainLength(answers[1..], n - 1);
    }
  }

  lemma {:induction false} StepExtends<S, E>(m: Machine<S, E>, initial: S, input: Input<E>)
    ensures m.trace <= Step(m, initial, input).trace
    decreases Left(m), 0
  {
    var m1 := Asked(m, input);
    match Answer(m)
    case Stay =>
    case Transition(_) =>
    case TransitionNow(next) => StepExtends(Switch(m1, next), initial, input);
    case Done => CompleteExtends(Log(Close(m1), [Callback]), initial);
  }

  lemma {:induction false} EnterExtends<S, E>(m: Machine<S, E>, initial: S)
    ensures m.trace <= Enter(m, initial).trace
    decreases Left(m), 1
  {
    StepExtends(Log(m.(current := initial, active := true), [Construct(initial)]), initial, Init);
  }

  lemma {:induction false} CompleteExtends<S, E>(m: Machine<S, E>, initial: S)
    ensures m.trace <= Complete(m, initial).trace
    decreases Left(m), 2
  {
    if m.requests != [] && !m.faulted {
      var m1 := m.(requests := m.requests[1..]);
      match m.requests[0]
      case Return =>
      case Terminate => CompleteExtends(Close(m1), initial);
      case Restart =>
        EnterExtends(Close(m1), initial);
        CompleteExtends(Enter(Close(m1), initial), initial);
      case Deliver(e) =>
        if m1.active {
          StepExtends(m1, initial, Message(e));
          CompleteExtends(Step(m1, initial, Message(e)), initial);
        }
      case Begin =>
        if !m1.active {
          EnterExtends(m1, initial);
          CompleteExtends(Enter(m1, initial), initial);
        }
    }
  }

  /** What a step logs: `own` for its envelope, then what a callback causes, if there is one. */
  ghost predicate Logs<S, E>(before: seq<Event<S, E>>, after: seq<Event<S, E>>, own: seq<Event<S, E>>, rest: seq<Event<S, E>>) {
    after == before + own + rest && (rest == [] || rest[0] == Callback)
  }

  /** The envelope of a step is handled once for each `TransitionNow`, and once more. */
  lemma StepHandles<S(!new), E(!new)>(m: Machine<S, E>, initial: S, input: Input<E>)
    requires m.active
    ensures exists own: seq<Event<S, E>>, rest: seq<Event<S, E>> ::
      && Logs(m.trace, Step(m, initial, input).trace, own, rest)
      && OnlyFor(own, input) && HandlesIn(own) == Leading(m.answers) + 1
  {
    var n := Leading(m.answers);
    var states := Chain(m.answers, n);
    var last := LastOf(m.current, states);
    var chain: seq<Event<S, E>> := ChainTrace(m.current, states, input);
    var d := if n < |m.answers| then m.answers[n] else Stay;
    ChainLength(m.answers, n);
    ChainTraceHandles(m.current, states, input);
    StepInFull(m, initial, input, n);
    var own := chain + Ending(last, input, d);
    EndingHandles<S, E>(last, input, d);
    HandlesConcat(chain, Ending(last, input, d));
    var rest := StepRest(m, initial, input, own, d);
    assert Logs(m.trace, Step(m, initial, input).trace, own, rest);
  }

  /** The last handler of a step and what its answer does to the locals. */
  function Ending<S, E>(last: S, input: Input<E>, d: Directive<S>): seq<Event<S, E>> {
    [Handle(last, input)] +
    match d
    case Transition(next) => [Destruct(last), Construct(next)]
    case Done => [Destruct(last)]
    case _ => []
  }

  lemma EndingHandles<S, E>(last: S, input: Input<E>, d: Directive<S>)
    ensures HandlesIn<S, E>(Ending(last, input, d)) == 1 && OnlyFor<S, E>(Ending(last, input, d), input)
  {
    NoHandles<S, E>(Ending(last, input, d)[1..]);
  }

  lemma Regroup<X>(before: seq<X>, chain: seq<X>, one: seq<X>, more: seq<X>)
    ensures before + chain + one + more == before + (chain + (one + more))
  {
  }

  lemma StepRest<S, E>(m: Machine<S, E>, initial: S, input: Input<E>, own: seq<Event<S, E>>, d: Directive<S>)
    returns (rest: seq<Event<S, E>>)
    requires m.active
    requires
      var n := Leading(m.answers);
      var states := Chain(m.answers, n);
      var last := LastOf(m.current, states);
      && d == (if n < |m.answers| then m.answers[n] else Stay)
      && own == ChainTrace(m.current, states, input) + Ending(last, input, d)
    ensures Logs(m.trace, Step(m, initial, input).trace, own, rest)
  {
    var n := Leading(m.answers);
    var states := Chain(m.answers, n);
    var last := LastOf(m.current, states);
    StepInFull(m, initial, input, n);
    rest := EndingRest(m.(current := last, answers := if n < |m.answers| then m.answers[n + 1..] else []),
                       initial, ChainTrace(m.current, states, input), last, input, d);
  }

  /** The last handler of a step and what follows, seen from the machine before its events are logged. */
  lemma EndingRest<S, E>(m: Machine<S, E>, initial: S, chain: seq<Event<S, E>>, last: S, input: Input<E>, d: Directive<S>)
    returns (rest: seq<Event<S, E>>)
    requires !d.TransitionNow?
    ensures
      var end := m.(trace := m.trace + chain + [Handle(last, input)]);
      var after := match d
        case Stay => end
        case Transition(next) => Log(end.(current := next), [Destruct(last), Construct(next)])
        case Done => Complete(Log(Log(end.(active := false), [Destruct(last)]), [Callback]), initial)
        case TransitionNow(_) => end;
      Logs(m.trace, after.trace, chain + Ending(last, input, d), rest)
  {
    var handle: seq<Event<S, E>> := [Handle(last, input)];
    rest := [];
    match d
    case Stay => Regroup(m.trace, chain, handle, []);
    case Transition(next) => Regroup(m.trace, chain, handle, [Destruct(last), Construct(next)]);
    case Done =>
      Regroup(m.trace, chain, handle, [Destruct(last)]);
      var end := m.(active := false, trace := m.trace + chain + handle + [Destruct(last)] + [Callback]);
      CompleteExtends(end, initial);
      rest := Tail(m.trace + (chain + Ending(last, input, d)), end.trace, Complete(end, initial).trace);
  }

  lemma Tail<S, E>(before: seq<Event<S, E>>, called: seq<Event<S, E>>, after: seq<Event<S, E>>) returns (rest: seq<Event<S, E>>)
    requires called == before + [Callback] && called <= after
    ensures after == before + rest && rest != [] && rest[0] == Callback
  {
    rest := after[|before|..];
    assert after[|before|] == called[|before|];
    assert after[..|before|] == called[..|before|] == before;
  }

  /** The rank falls along every `TransitionNow` of a chain from `from`. */
  predicate Falls<S>(rank: S -> nat, from: S, answers: seq<Directive<S>>, n: nat)
    requires n <= |answers| && forall k :: 0 <= k < n ==> answers[k].TransitionNow?
    decreases n
  {
    n == 0 || (rank(answers[0].next) < rank(from) && Falls(rank, answers[0].next, answers[1..], n - 1))
  }

  /** So the chain is no longer than the rank it starts from, whatever the handlers depend on. */
  lemma {:induction false} RankBoundsChain<S>(rank: S -> nat, from: S, answers: seq<Directive<S>>, n: nat)
    requires n <= |answers| && forall k :: 0 <= k < n ==> answers[k].TransitionNow?
    requires Falls(rank, from, answers, n)
    ensures n <= rank(from)
    decreases n
  {
    if n > 0 {
      RankBoundsChain(rank, answers[0].next, answers[1..], n - 1);
    }
  }

  /** One step of any flow handles its envelope at most rank + 1 times, if the rank falls along the
      `TransitionNow` answers it gets. */
  lemma RankedStepEnds<S(!new), E(!new)>(m: Machine<S, E>, initial: S, input: Input<E>, rank: S -> nat)
    requires m.active && Falls(rank, m.current, m.answers, Leading(m.answers))
    ensures exists own: seq<Event<S, E>>, rest: seq<Event<S, E>> ::
      && Logs(m.trace, Step(m, initial, input).trace, own, rest)
      && OnlyFor(own, input) && HandlesIn(own) <= rank(m.current) + 1
  {
    RankBoundsChain(rank, m.current, m.answers, Leading(m.answers));
    StepHandles(m, initial, input);
  }

  function Again<S>(s: S, n: nat): (answers: seq<Directive<S>>)
    ensures |answers| == n && Leading(answers) == n
  {
    if n == 0 then []
    else
      var rest := Again(s, n - 1);
      assert ([TransitionNow(s)] + rest)[1..] == rest;
      [TransitionNow(s)] + rest
  }

  /** Without a rank there is no limit: a step that is sent on `n` times handles its envelope n + 1 times. */
  lemma NoChainLimit<S(!new), E(!new)>(s: S, input: Input<E>, n: nat)
    ensures exists m: Machine<S, E>, own: seq<Event<S, E>>, rest: seq<Event<S, E>> ::
      && m.active && m.current == s
      && Logs(m.trace, Step(m, s, input).trace, own, rest)
      && OnlyFor(own, input) && HandlesIn(own) == n + 1
  {
    var m := Machine<S, E>.Machine(s, true, false, Again(s, n), [], []);
    StepHandles(m, s, input);
  }
}
