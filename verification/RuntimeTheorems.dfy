/** What draining and shutting down keep and lose, for arbitrary handlers. */
module RuntimeTheorems {
  import opened RuntimeMachine
  import R = Runtimes

  // ---- Accounting -----------------------------------------------------------------------------

  /** Accepted is dispatched followed by queued. */
  predicate Fifo<E(==)>(w: World<E>) {
    w.accepted == w.dispatched + w.queue
  }

  lemma {:induction false} PerformAllKeeps<E>(w: World<E>, calls: seq<Call<E>>)
    requires Fifo(w)
    ensures Fifo(PerformAll(w, calls))
    decreases |calls|
  {
    if calls != [] {
      PerformAllKeeps(Perform(w, calls[0]), calls[1..]);
    }
  }

  lemma DispatchKeeps<E>(w: World<E>)
    requires Fifo(w) && w.queue != []
    ensures Fifo(DispatchFront(w))
  {
    PerformAllKeeps(Popped(w), Script(w));
  }

  /** `run_one` returns with every accepted envelope dispatched, in the order of acceptance. */
  lemma {:induction false} DrainDispatchesAll<E>(w: World<E>)
    requires Fifo(w)
    ensures Drain(w).queue == [] && Drain(w).dispatched == Drain(w).accepted
    ensures |Drain(w).dispatched| == |w.dispatched| + DrainLength(w)
    decreases Work(w)
  {
    if w.queue != [] {
      DispatchWorks(w);
      DispatchKeeps(w);
      DrainDispatchesAll(DispatchFront(w));
    }
  }

  /** A bounded drain is the whole drain if the budget covers it; otherwise it dispatches as many as the
      budget allows and leaves something behind. */
  lemma {:induction false} BudgetDecides<E>(w: World<E>, budget: nat)
    requires Fifo(w)
    ensures Fifo(DrainSome(w, budget))
    ensures DrainLength(w) <= budget <==> DrainSome(w, budget).queue == []
    ensures DrainLength(w) <= budget ==> DrainSome(w, budget) == Drain(w)
    ensures DrainLength(w) > budget ==> |DrainSome(w, budget).dispatched| == |w.dispatched| + budget
    decreases budget
  {
    if w.queue != [] {
      DispatchWorks(w);
      if budget > 0 {
        DispatchKeeps(w);
        BudgetDecides(DispatchFront(w), budget - 1);
      }
    }
  }

  // ---- After stop -----------------------------------------------------------------------------

  lemma {:induction false} StoppedIgnores<E>(w: World<E>, calls: seq<Call<E>>)
    requires w.stopped
    ensures PerformAll(w, calls) == w
    decreases |calls|
  {
    if calls != [] {
      StoppedIgnores(w, calls[1..]);
    }
  }

  /** After stop every dispatch shortens the queue by one, whatever the handler posts: a drain is as long
      as the queue and dispatches just that. */
  lemma {:induction false} StoppedDrain<E>(w: World<E>)
    requires w.stopped
    ensures DrainLength(w) == |w.queue|
    ensures Drain(w).dispatched == w.dispatched + w.queue && Drain(w).accepted == w.accepted
    decreases |w.queue|
  {
    if w.queue != [] {
      StoppedIgnores(Popped(w), Script(w));
      DispatchWorks(w);
      StoppedDrain(DispatchFront(w));
    }
  }

  // ---- Shutting down --------------------------------------------------------------------------

  /** Accepted, dispatched and queued, with `lost` thrown away after the first `n` dispatches. */
  predicate Accounted<E(==)>(w: World<E>, n: nat, lost: seq<E>) {
    n <= |w.dispatched| && w.accepted == w.dispatched[..n] + lost + w.dispatched[n..] + w.queue
  }

  lemma {:induction false} PerformAllAccounts<E>(w: World<E>, calls: seq<Call<E>>, n: nat, lost: seq<E>)
    requires Accounted(w, n, lost)
    ensures Accounted(PerformAll(w, calls), n, lost)
    decreases |calls|
  {
    if calls != [] {
      PerformAllAccounts(Perform(w, calls[0]), calls[1..], n, lost);
    }
  }

  lemma {:induction false} StopModulesAccounts<E>(w: World<E>, onStops: seq<seq<Call<E>>>, n: nat, lost: seq<E>)
    requires Accounted(w, n, lost)
    ensures Accounted(StopModules(w, onStops), n, lost)
    ensures StopModules(w, onStops).dispatched == w.dispatched
    ensures w.stopped ==> StopModules(w, onStops) == w
    decreases |onStops|
  {
    if onStops != [] {
      var last := onStops[|onStops| - 1];
      PerformAllFrame(w, last);
      PerformAllAccounts(w, last, n, lost);
      StopModulesAccounts(PerformAll(w, last), onStops[..|onStops| - 1], n, lost);
      if w.stopped {
        StoppedIgnores(w, last);
      }
    }
  }

  /** Shutting down loses nothing silently: accepted is dispatched, then discarded, then what the modules
      posted in `on_stop`; something is discarded exactly when the drain is longer than the budget, and
      then the budget was used up. */
  lemma ShutdownAccounts<E>(w: World<E>, budget: nat, onStops: seq<seq<Call<E>>>)
    requires Fifo(w)
    ensures
      var w' := ShutDown(w, budget, onStops);
      && w'.accepted == w'.dispatched + Discarded(w, budget) + w'.queue
      && (Discarded(w, budget) != [] <==> DrainLength(w) > budget)
      && (Discarded(w, budget) != [] ==> |w'.dispatched| == |w.dispatched| + budget)
      && (Discarded(w, budget) == [] ==> w'.dispatched == Drain(w).dispatched)
  {
    BudgetDecides(w, budget);
    var d := DrainSome(w, budget);
    var n := |d.dispatched|;
    assert d.dispatched[..n] == d.dispatched && d.dispatched[n..] == [];
    StopModulesAccounts(d.(queue := []), onStops, n, d.queue);
  }

  lemma {:induction false} DrainStaysStopped<E>(w: World<E>, budget: nat)
    requires w.stopped
    ensures DrainSome(w, budget).stopped
    decreases budget
  {
    if budget > 0 && w.queue != [] {
      StoppedIgnores(Popped(w), Script(w));
      DrainStaysStopped(DispatchFront(w), budget - 1);
    }
  }

  /** After stop the outcome can be read off the queue: it is dispatched up to the budget and the rest is
      discarded; nothing is left for a later start. */
  lemma ShutdownAfterStop<E>(w: World<E>, budget: nat, onStops: seq<seq<Call<E>>>)
    requires Fifo(w) && w.stopped
    ensures
      var k := if |w.queue| <= budget then |w.queue| else budget;
      && Discarded(w, budget) == w.queue[k..]
      && ShutDown(w, budget, onStops).dispatched == w.dispatched + w.queue[..k]
      && ShutDown(w, budget, onStops).queue == []
  {
    StoppedSome(w, budget);
    DrainStaysStopped(w, budget);
    BudgetDecides(w, budget);
    var d := DrainSome(w, budget);
    var n := |d.dispatched|;
    assert d.dispatched[..n] == d.dispatched && d.dispatched[n..] == [];
    StopModulesAccounts(d.(queue := []), onStops, n, d.queue);
  }

  lemma TakeOneMore<E>(q: seq<E>, k: nat)
    requires 1 <= k <= |q|
    ensures q[1..][k - 1..] == q[k..] && [q[0]] + q[1..][..k - 1] == q[..k]
  {
  }

  lemma {:induction false} StoppedSome<E>(w: World<E>, budget: nat)
    requires w.stopped
    ensures
      var k := if |w.queue| <= budget then |w.queue| else budget;
      DrainSome(w, budget).queue == w.queue[k..] && DrainSome(w, budget).dispatched == w.dispatched + w.queue[..k]
    decreases budget
  {
    if budget > 0 && w.queue != [] {
      StoppedIgnores(Popped(w), Script(w));
      StoppedSome(DispatchFront(w), budget - 1);
      TakeOneMore(w.queue, if |w.queue| <= budget then |w.queue| else budget);
    }
  }

  // ---- What a shutdown leaves to the next start -----------------------------------------------

  function PostsBeforeStop<E>(calls: seq<Call<E>>): seq<E> {
    if calls == [] || calls[0].Stop? then [] else [calls[0].envelope] + PostsBeforeStop(calls[1..])
  }

  function InReverse<E>(onStops: seq<seq<Call<E>>>): seq<Call<E>> {
    if onStops == [] then [] else onStops[|onStops| - 1] + InReverse(onStops[..|onStops| - 1])
  }

  lemma {:induction false} PerformAllQueues<E>(w: World<E>, calls: seq<Call<E>>)
    ensures PerformAll(w, calls).queue == w.queue + if w.stopped then [] else PostsBeforeStop(calls)
    decreases |calls|
  {
    if w.stopped {
      StoppedIgnores(w, calls);
    } else if calls != [] {
      PerformAllQueues(Perform(w, calls[0]), calls[1..]);
    }
  }

  lemma {:induction false} PerformInTwo<E>(w: World<E>, first: seq<Call<E>>, second: seq<Call<E>>)
    ensures PerformAll(w, first + second) == PerformAll(PerformAll(w, first), second)
    decreases |first|
  {
    if first == [] {
      assert first + second == second;
    } else {
      assert (first + second)[1..] == first[1..] + second;
      PerformInTwo(Perform(w, first[0]), first[1..], second);
    }
  }

  lemma {:induction false} StopModulesIsOneList<E>(w: World<E>, onStops: seq<seq<Call<E>>>)
    ensures StopModules(w, onStops) == PerformAll(w, InReverse(onStops))
    decreases |onStops|
  {
    if onStops != [] {
      var last := onStops[|onStops| - 1];
      StopModulesIsOneList(PerformAll(w, last), onStops[..|onStops| - 1]);
      PerformInTwo(w, last, InReverse(onStops[..|onStops| - 1]));
    }
  }

  /** The queue is cleared before the modules stop, so what they post then is still there for the next
      start, unless stop was requested by then. */
  lemma ShutdownLeavesOnStopPosts<E>(w: World<E>, budget: nat, onStops: seq<seq<Call<E>>>)
    ensures ShutDown(w, budget, onStops).queue ==
      if DrainSome(w, budget).stopped then [] else PostsBeforeStop(InReverse(onStops))
  {
    var d := DrainSome(w, budget).(queue := []);
    StopModulesIsOneList(d, onStops);
    PerformAllQueues(d, InReverse(onStops));
  }

  // ---- What handlers and modules call ---------------------------------------------------------

  predicate Stops<E(==)>(calls: seq<Call<E>>) {
    Call<E>.Stop in calls
  }

  lemma {:induction false} PostsConcat<E>(a: seq<Call<E>>, b: seq<Call<E>>)
    ensures PostsBeforeStop(a + b) == PostsBeforeStop(a) + if Stops(a) then [] else PostsBeforeStop(b)
    decreases |a|
  {
    if a == [] {
      assert a + b == b;
    } else {
      assert (a + b)[1..] == a[1..] + b && a == [a[0]] + a[1..];
      PostsConcat(a[1..], b);
    }
  }

  lemma {:induction false} PerformAllStops<E>(w: World<E>, calls: seq<Call<E>>)
    ensures PerformAll(w, calls).stopped <==> w.stopped || Stops(calls)
    decreases |calls|
  {
    if calls != [] {
      assert calls == [calls[0]] + calls[1..];
      PerformAllStops(Perform(w, calls[0]), calls[1..]);
    }
  }

  lemma {:induction false} PerformAllPosts<E>(w: World<E>, calls: seq<Call<E>>)
    requires !w.stopped
    ensures PerformAll(w, calls).accepted == w.accepted + PostsBeforeStop(calls)
    decreases |calls|
  {
    if calls != [] {
      var w' := Perform(w, calls[0]);
      if w'.stopped {
        StoppedIgnores(w', calls[1..]);
      } else {
        PerformAllPosts(w', calls[1..]);
      }
    }
  }

  /** Calls up to a stop are accepted in order, and a stop is remembered. */
  lemma PerformAllAccepts<E>(w: World<E>, calls: seq<Call<E>>)
    ensures PerformAll(w, calls).accepted == w.accepted + if w.stopped then [] else PostsBeforeStop(calls)
    ensures PerformAll(w, calls).stopped <==> w.stopped || Stops(calls)
  {
    PerformAllStops(w, calls);
    if w.stopped {
      StoppedIgnores(w, calls);
    } else {
      PerformAllPosts(w, calls);
    }
  }

  /** The calls of the first `n` handlers, in the order of their dispatch. */
  function FirstCalls<E>(scripts: seq<seq<Call<E>>>, n: nat): seq<Call<E>> {
    if n == 0 || scripts == [] then [] else scripts[0] + FirstCalls(scripts[1..], n - 1)
  }

  lemma DispatchStops<E>(w: World<E>)
    requires w.queue != []
    ensures DispatchFront(w).stopped <==> w.stopped || Stops(Script(w))
    ensures DispatchFront(w).scripts == if w.scripts == [] then [] else w.scripts[1..]
  {
    PerformAllStops(Popped(w), Script(w));
    PerformAllFrame(Popped(w), Script(w));
  }

  lemma DispatchAccepts<E>(w: World<E>, more: seq<Call<E>>)
    requires w.queue != []
    ensures var w' := DispatchFront(w);
            var rest := if w'.stopped then [] else PostsBeforeStop(more);
            w'.accepted + rest == w.accepted + if w.stopped then [] else PostsBeforeStop(Script(w) + more)
  {
    DispatchStops(w);
    if w.stopped {
      StoppedIgnores(Popped(w), Script(w));
    } else {
      PerformAllPosts(Popped(w), Script(w));
      PostsConcat(Script(w), more);
      Regroup(w.accepted, PostsBeforeStop(Script(w)), if Stops(Script(w)) then [] else PostsBeforeStop(more));
    }
  }

  lemma Regroup<X>(a: seq<X>, b: seq<X>, c: seq<X>)
    ensures a + (b + c) == (a + b) + c
  {
  }

  /** The handlers of the dispatched envelopes make all their calls: what they post is accepted, up to the
      first stop. */
  lemma {:induction false} DrainMakesTheCalls<E>(w: World<E>, n: nat)
    requires n <= DrainLength(w)
    ensures var calls := FirstCalls(w.scripts, n);
            && DrainSome(w, n).accepted == w.accepted + (if w.stopped then [] else PostsBeforeStop(calls))
            && (DrainSome(w, n).stopped <==> w.stopped || Stops(calls))
    decreases n
  {
    if n > 0 {
      DispatchWorks(w);
      var rest := if w.scripts == [] then [] else w.scripts[1..];
      DispatchStops(w);
      DispatchAccepts(w, FirstCalls(rest, n - 1));
      DrainMakesTheCalls(DispatchFront(w), n - 1);
      if w.scripts == [] { assert FirstCalls(rest, n - 1) == [] && Script(w) + [] == Script(w); }
    }
  }

  /** `run_one` in the same terms. */
  lemma RunOneMakesTheCalls<E>(w: World<E>)
    requires Fifo(w)
    ensures var calls := FirstCalls(w.scripts, DrainLength(w));
            && Drain(w).accepted == w.accepted + (if w.stopped then [] else PostsBeforeStop(calls))
            && (Drain(w).stopped <==> w.stopped || Stops(calls))
  {
    DrainMakesTheCalls(w, DrainLength(w));
    BudgetDecides(w, DrainLength(w));
  }

  /** What all modules call in `on_start`, in the order of their declaration. */
  function InOrder<E>(modules: seq<R.Module<E>>): seq<Call<E>> {
    if modules == [] then [] else modules[0].onStart + InOrder(modules[1..])
  }

  lemma {:induction false} InOrderLast<E>(modules: seq<R.Module<E>>, last: R.Module<E>)
    ensures InOrder(modules + [last]) == InOrder(modules) + last.onStart
  {
    if modules == [] {
      assert modules + [last] == [last] && [last][1..] == [];
    } else {
      assert (modules + [last])[1..] == modules[1..] + [last];
      InOrderLast(modules[1..], last);
    }
  }

  lemma {:induction false} StartIsOneList<E>(w: World<E>, modules: seq<R.Module<E>>)
    ensures R.StartModules(w, modules) == PerformAll(w, InOrder(modules))
    decreases |modules|
  {
    if modules != [] {
      var before, last := modules[..|modules| - 1], modules[|modules| - 1];
      assert modules == before + [last];
      StartIsOneList(w, before);
      InOrderLast(before, last);
      PerformInTwo(w, InOrder(before), last.onStart);
    }
  }

  /** A start queues what the modules post in `on_start` behind what an earlier shutdown left, module by
      module in the order of declaration, up to the first stop. */
  lemma StartQueuesInOrder<E>(w: World<E>, modules: seq<R.Module<E>>)
    ensures R.StartModules(w, modules).queue == w.queue + if w.stopped then [] else PostsBeforeStop(InOrder(modules))
    ensures R.StartModules(w, modules).stopped <==> w.stopped || Stops(InOrder(modules))
  {
    StartIsOneList(w, modules);
    PerformAllQueues(w, InOrder(modules));
    PerformAllAccepts(w, InOrder(modules));
  }

  /** After a shutdown the runtime accepts again, whoever had stopped it: the modules of a second start find
      their posts queued behind those left over. */
  lemma ShutdownReopens<E>(w: World<E>, budget: nat, onStops: seq<seq<Call<E>>>, modules: seq<R.Module<E>>)
    ensures R.StartModules(ShutDown(w, budget, onStops), modules).queue
         == ShutDown(w, budget, onStops).queue + PostsBeforeStop(InOrder(modules))
  {
    StartQueuesInOrder(ShutDown(w, budget, onStops), modules);
  }
}
