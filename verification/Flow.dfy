/** The flow object: its fields, the step loop, the reentrancy flag and the completion callback, proved
    against the machine of FlowMachine. */
module Flows {
  import opened FlowSpec
  import M = FlowMachine
  import FlowEntries

  class Flow<S(==), E> {
    const initial: S
    var current: S
    var active: bool
    var inStep: bool
    var bound: bool         // the owner reference is set
    var located: bool       // the context points at the buffer of the locals

    // The world outside: what handlers will answer and callbacks will ask for, and what happened.
    var answers: seq<Directive<S>>
    var requests: seq<M.Request<E>>
    var trace: seq<M.Event<S, E>>

    /** Between calls: the context is bound exactly while the flow is active, and an active flow has an
        owner, so the assertions on both never fail. */
    ghost predicate Valid()
      reads this
    {
      !inStep && located == active && (active ==> bound)
    }

    ghost function State(): M.Machine<S, E>
      reads this
    {
      M.Machine(current, active, false, answers, requests, trace)
    }

    constructor (initial: S, answers: seq<Directive<S>>, requests: seq<M.Request<E>>)
      ensures Valid() && !active && !bound && this.initial == initial
      ensures State() == M.Machine(initial, false, false, answers, requests, [])
    {
      this.initial, current := initial, initial;
      active, inStep, bound, located := false, false, false, false;
      this.answers, this.requests, trace := answers, requests, [];
    }

    method Record(events: seq<M.Event<S, E>>)
      modifies this`trace
      ensures trace == old(trace) + events
    {
      trace := trace + events;
    }

    /** The handler of the current state runs. It finds its locals. */
    method Ask(input: M.Input<E>) returns (d: Directive<S>)
      requires active && located && inStep
      modifies this`trace, this`answers
      ensures d == M.Answer(old(State())) && State() == M.Asked(old(State()), input)
    {
      if answers == [] {
        d := Stay;
      } else {
        d, answers := answers[0], answers[1..];
      }
      Record([M.Handle(current, input)]);
    }

    /** The locals of the current state give way to those of the next one, in the same buffer. */
    method Move(next: S)
      requires active && located && inStep
      modifies this`trace, this`current, this`located
      ensures located && State() == M.Switch(old(State()), next)
    {
      ghost var before := trace;
      Record([M.Destruct(current)]);
      current := next;
      Record([M.Construct(current)]);
      located := true;
      assert trace == before + [M.Destruct(old(current)), M.Construct(next)];
    }

    method Start()
      requires Valid() && !active && !M.Enter(State(), initial).faulted
      modifies this
      ensures Valid() && bound
      ensures State() == M.Enter(old(State()), initial)
      ensures old(trace) + [M.Construct(initial), M.Handle(initial, M.Init)] <= trace
      decreases M.Left(State()), 2
    {
      bound := true;
      EnterInitial();
    }

    /** Neither here nor in a callback may an assertion fail. */
    method Step(input: M.Input<E>)
      requires Valid() && active && !M.Step(State(), initial, input).faulted
      modifies this
      ensures Valid() && bound
      ensures State() == M.Step(old(State()), initial, input)
      ensures old(trace) + [M.Handle(old(current), input)] <= trace
      decreases M.Left(State()), 0
    {
      FlowEntries.StepBegins(State(), initial, input);
      inStep := true;
      var donePending := false;
      while true
        invariant active && located && bound && inStep && !donePending
        invariant M.Step(State(), initial, input) == M.Step(old(State()), initial, input)
        invariant M.Left(State()) <= old(M.Left(State()))
        decreases |answers|
      {
        var d := Ask(input);
        if d.Stay? {
          break;
        }
        if d.Transition? || d.TransitionNow? {
          Move(d.next);
          if d.Transition? {
            break;
          }
          continue;
        }
        Record([M.Destruct(current)]);
        located := false;
        active := false;
        donePending := true;
        break;
      }
      inStep := false;
      if donePending {
        OnFlowDone();
      }
    }

    /** The callback of the owner, which may use the flow in every legal way before it returns. */
    method OnFlowDone()
      requires Valid() && !active && bound
      requires !M.Complete(M.Log(State(), [M.Callback]), initial).faulted
      modifies this
      ensures Valid() && bound
      ensures State() == M.Complete(M.Log(old(State()), [M.Callback]), initial)
      decreases M.Left(State()), 3
    {
      Record([M.Callback]);
      while requests != []
        invariant Valid() && bound
        invariant M.Complete(State(), initial) == M.Complete(M.Log(old(State()), [M.Callback]), initial)
        invariant M.Left(State()) <= old(M.Left(State()))
        decreases M.Left(State())
      {
        var request := requests[0];
        requests := requests[1..];
        match request {
          case Return => break;
          case Terminate => Terminate();
          case Restart => Restart();
          case Deliver(e) => Step(M.Message(e));
          case Begin => Start();
        }
      }
    }

    /** Ends the flow from outside a step. The callback is not called. */
    method Terminate()
      requires Valid()
      modifies this
      ensures Valid() && bound == old(bound) && !active
      ensures State() == M.Close(old(State()))
      ensures trace == old(trace) + if old(active) then [M.Destruct(old(current))] else []
    {
      if active {
        Record([M.Destruct(current)]);
        located := false;
        active := false;
      }
    }

    method Restart()
      requires Valid() && bound && !M.Enter(M.Close(State()), initial).faulted
      modifies this
      ensures Valid() && bound
      ensures State() == M.Enter(M.Close(old(State())), initial)
      ensures old(active) ==>
        old(trace) + [M.Destruct(old(current)), M.Construct(initial), M.Handle(initial, M.Init)] <= trace
      ensures !old(active) ==> old(trace) + [M.Construct(initial), M.Handle(initial, M.Init)] <= trace
      decreases M.Left(State()), 2
    {
      if active {
        Record([M.Destruct(current)]);
        located := false;
        active := false;
      }
      EnterInitial();
    }

    method EnterInitial()
      requires Valid() && !active && bound && !M.Enter(State(), initial).faulted
      modifies this
      ensures Valid() && bound
      ensures State() == M.Enter(old(State()), initial)
      ensures old(trace) + [M.Construct(initial), M.Handle(initial, M.Init)] <= trace
      decreases M.Left(State()), 1
    {
      FlowEntries.EnterBegins(State(), initial);
      current := initial;
      active := true;
      Record([M.Construct(current)]);
      located := true;
      Step(M.Init);
    }

    /** The destructor: releases the locals of a flow that is still active. */
    method Destroy()
      requires Valid()
      modifies this
      ensures State().trace == M.Close(old(State())).trace
    {
      if active {
        Record([M.Destruct(current)]);
      }
    }
  }
}
