/** The runtime on one thread: posting, draining and shutting down, for arbitrary handlers.

    Handlers are given as what they call: `scripts` lists the posts and stops of the handlers that will
    run, in the order of their dispatch; a handler that is not listed calls nothing. Every drain that
    comes to an end is the one of its list. */
module RuntimeMachine {
  datatype Call<+E> = Post(envelope: E) | Stop

  /** `accepted` and `dispatched` are the history, oldest first. */
  datatype World<E> = World(
    queue: seq<E>,
    stopped: bool,
    scripts: seq<seq<Call<E>>>,
    accepted: seq<E>,
    dispatched: seq<E>)

  function Perform<E>(w: World<E>, c: Call<E>): World<E> {
    match c
    case Post(e) => if w.stopped then w else w.(queue := w.queue + [e], accepted := w.accepted + [e])
    case Stop => w.(stopped := true)
  }

  function PerformAll<E>(w: World<E>, calls: seq<Call<E>>): World<E>
    decreases |calls|
  {
    if calls == [] then w else PerformAll(Perform(w, calls[0]), calls[1..])
  }

  function Script<E>(w: World<E>): seq<Call<E>> {
    if w.scripts == [] then [] else w.scripts[0]
  }

  function Popped<E>(w: World<E>): World<E>
    requires w.queue != []
  {
    w.(queue := w.queue[1..], dispatched := w.dispatched + [w.queue[0]],
       scripts := if w.scripts == [] then [] else w.scripts[1..])
  }

  /** The oldest envelope leaves the queue, and its handler runs to completion. */
  function DispatchFront<E>(w: World<E>): World<E>
    requires w.queue != []
  {
    PerformAll(Popped(w), Script(w))
  }

  // ---- A drain ends ---------------------------------------------------------------------------

  function CallsIn<E>(scripts: seq<seq<Call<E>>>): nat {
    if scripts == [] then 0 else |scripts[0]| + CallsIn(scripts[1..])
  }

  function Work<E>(w: World<E>): nat {
    |w.queue| + CallsIn(w.scripts)
  }

  lemma {:induction false} PerformAllFrame<E>(w: World<E>, calls: seq<Call<E>>)
    ensures PerformAll(w, calls).scripts == w.scripts && PerformAll(w, calls).dispatched == w.dispatched
    ensures |PerformAll(w, calls).queue| <= |w.queue| + |calls|
    decreases |calls|
  {
    if calls != [] {
      PerformAllFrame(Perform(w, calls[0]), calls[1..]);
    }
  }

  lemma DispatchWorks<E>(w: World<E>)
    requires w.queue != []
    ensures Work(DispatchFront(w)) < Work(w)
    ensures DispatchFront(w).dispatched == w.dispatched + [w.queue[0]]
  {
    PerformAllFrame(Popped(w), Script(w));
  }

  /** `run_one`: until the queue is empty. */
  function Drain<E>(w: World<E>): World<E>
    decreases Work(w)
  {
    if w.queue == [] then w
    else
      DispatchWorks(w);
      Drain(DispatchFront(w))
  }

  /** The number of dispatches in that. */
  function DrainLength<E>(w: World<E>): nat
    decreases Work(w)
  {
    if w.queue == [] then 0
    else
      DispatchWorks(w);
      1 + DrainLength(DispatchFront(w))
  }

  /** The same with at most `budget` dispatches. */
  function DrainSome<E>(w: World<E>, budget: nat): World<E>
    decreases budget
  {
    if budget == 0 || w.queue == [] then w else DrainSome(DispatchFront(w), budget - 1)
  }

  // ---- Shutting down --------------------------------------------------------------------------

  /** What the bounded drain of `shutdown` throws away. */
  function Discarded<E>(w: World<E>, budget: nat): seq<E> {
    DrainSome(w, budget).queue
  }

  /** Then the modules stop, last one first. What they post in `on_stop` stays queued, and stop is reset. */
  function ShutDown<E>(w: World<E>, budget: nat, onStops: seq<seq<Call<E>>>): World<E> {
    StopModules(DrainSome(w, budget).(queue := []), onStops).(stopped := false)
  }

  function StopModules<E>(w: World<E>, onStops: seq<seq<Call<E>>>): World<E>
    decreases |onStops|
  {
    if onStops == [] then w
    else StopModules(PerformAll(w, onStops[|onStops| - 1]), onStops[..|onStops| - 1])
  }
}
