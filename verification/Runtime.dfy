/** The runtime object on one thread, proved against RuntimeMachine. */
module Runtimes {
  import opened RuntimeMachine

  /** What the modules call when they start and stop, in the order of their declaration. */
  datatype Module<E> = Module(onStart: seq<Call<E>>, onStop: seq<Call<E>>)

  function Stops<E>(modules: seq<Module<E>>): (r: seq<seq<Call<E>>>)
    ensures |r| == |modules| && forall i :: 0 <= i < |r| ==> r[i] == modules[i].onStop
  {
    if modules == [] then [] else Stops(modules[..|modules| - 1]) + [modules[|modules| - 1].onStop]
  }

  function StartModules<E>(w: World<E>, modules: seq<Module<E>>): World<E>
    decreases |modules|
  {
    if modules == [] then w
    else PerformAll(StartModules(w, modules[..|modules| - 1]), modules[|modules| - 1].onStart)
  }

  class Runtime<E> {
    const drainBudget: nat
    const modules: seq<Module<E>>
    var queue: seq<E>
    var stopRequested: bool
    var started: bool

    // The world outside: what handlers will call, and what happened.
    var scripts: seq<seq<Call<E>>>
    ghost var accepted: seq<E>
    ghost var dispatched: seq<E>

    ghost function State(): World<E>
      reads this
    {
      World(queue, stopRequested, scripts, accepted, dispatched)
    }

    constructor (modules: seq<Module<E>>, drainBudget: nat, scripts: seq<seq<Call<E>>>)
      ensures this.modules == modules && this.drainBudget == drainBudget && !started
      ensures State() == World([], false, scripts, [], [])
    {
      this.modules, this.drainBudget, this.scripts := modules, drainBudget, scripts;
      queue, stopRequested, started, accepted, dispatched := [], false, false, [], [];
    }

    method Post(e: E)
      modifies this`queue, this`accepted
      ensures State() == Perform(old(State()), RuntimeMachine.Post(e))
    {
      if stopRequested {
        return;
      }
      queue := queue + [e];
      accepted := accepted + [e];
    }

    method Stop()
      modifies this`stopRequested
      ensures State() == Perform(old(State()), RuntimeMachine.Stop)
    {
      stopRequested := true;
    }

    /** A handler, or `on_start` or `on_stop` of a module, makes its calls. */
    method Make(calls: seq<Call<E>>)
      modifies this`queue, this`accepted, this`stopRequested
      ensures State() == PerformAll(old(State()), calls)
    {
      var i := 0;
      while i < |calls|
        invariant i <= |calls| && PerformAll(State(), calls[i..]) == PerformAll(old(State()), calls)
      {
        assert calls[i..][1..] == calls[i + 1..];
        match calls[i] {
          case Post(e) => Post(e);
          case Stop => Stop();
        }
        i := i + 1;
      }
    }

    method PopFront() returns (e: E)
      requires queue != []
      modifies this`queue, this`dispatched
      ensures queue == old(queue)[1..] && e == old(queue)[0] && dispatched == old(dispatched) + [e]
    {
      e := queue[0];
      queue := queue[1..];
      dispatched := dispatched + [e];
    }

    method Dispatch()
      modifies this`queue, this`accepted, this`stopRequested, this`scripts
      ensures State() == PerformAll(old(State()).(scripts := if old(scripts) == [] then [] else old(scripts)[1..]), Script(old(State())))
    {
      if scripts != [] {
        var calls := scripts[0];
        scripts := scripts[1..];
        Make(calls);
      }
    }

    method RunOne()
      requires started
      modifies this`queue, this`accepted, this`dispatched, this`stopRequested, this`scripts
      ensures State() == Drain(old(State())) && queue == []
    {
      while queue != []
        invariant Drain(State()) == Drain(old(State()))
        decreases Work(State())
      {
        DispatchWorks(State());
        var _ := PopFront();
        Dispatch();
      }
    }

    method Start()
      requires !started
      modifies this`queue, this`accepted, this`stopRequested, this`started
      ensures started && State() == StartModules(old(State()), modules)
    {
      var i := 0;
      while i < |modules|
        invariant i <= |modules| && State() == StartModules(old(State()), modules[..i])
      {
        Make(modules[i].onStart);
        assert modules[..i + 1][..i] == modules[..i];
        i := i + 1;
      }
      started := true;
      assert modules[..i] == modules;
    }

    method StopReverse()
      modifies this`queue, this`accepted, this`stopRequested
      ensures State() == StopModules(old(State()), Stops(modules))
    {
      ghost var stops := Stops(modules);
      var i := |modules|;
      assert stops[..i] == stops;
      while i > 0
        invariant i <= |modules| == |stops|
        invariant StopModules(State(), stops[..i]) == StopModules(old(State()), stops)
      {
        i := i - 1;
        assert stops[..i + 1][..i] == stops[..i];
        Make(modules[i].onStop);
      }
    }

    method Shutdown() returns (ghost discarded: seq<E>)
      requires started
      modifies this
      ensures !started && discarded == Discarded(old(State()), drainBudget)
      ensures State() == ShutDown(old(State()), drainBudget, Stops(modules))
    {
      var drained := 0;
      while drained < drainBudget && queue != []
        invariant drained <= drainBudget
        invariant DrainSome(State(), drainBudget - drained) == DrainSome(old(State()), drainBudget)
        decreases drainBudget - drained
      {
        var _ := PopFront();
        Dispatch();
        drained := drained + 1;
      }
      discarded := queue;
      if queue != [] {
        queue := [];
      }
      StopReverse();
      started := false;
      stopRequested := false;
    }
  }
}
