/** What the loop of `run` does besides moving envelopes: it makes every call of its handlers, a stop ends
    its wait at once, and a wait that times out goes on to the timers. */
module LoopTheorems {
  import opened Concurrency

  // ---- Calls of the handlers ------------------------------------------------------------------

  /** What `fire_due` collects in a step, or the handler of a popped envelope is going to call. */
  function ScriptOf(s: State, a: Action): seq<Call> {
    match a
    case Collect(todo) => todo
    case PopFront(todo) => if s.queue == [] then [] else todo
    case _ => []
  }

  function Scripts(s: State, run: seq<Action>): seq<Call>
    requires Allowed(s, run)
    decreases |run|
  {
    if run == [] then [] else ScriptOf(s, run[0]) + Scripts(Apply(s, run[0]), run[1..])
  }

  /** The calls that a thread has begun, in order. */
  function Made(run: seq<Action>, t: nat): seq<Call> {
    if run == [] then []
    else (if run[0].Begin? && run[0].thread == t then [run[0].call] else []) + Made(run[1..], t)
  }

  function PostsIn(calls: seq<Call>): seq<Envelope> {
    if calls == [] then [] else (if calls[0].Post? then [calls[0].envelope] else []) + PostsIn(calls[1..])
  }

  lemma Regroup<X>(a: seq<X>, b: seq<X>, c: seq<X>)
    ensures a + (b + c) == (a + b) + c
  {
  }

  lemma BeginCarriesOn(s: State, t: nat, c: Call)
    requires Enabled(s, Begin(t, c))
    ensures Made([Begin(t, c)], LOOP) + Todo(DoBegin(s, t, c).loop) == Todo(s.loop)
  {
    assert [Begin(t, c)][1..] == [];
    if t == LOOP {
      assert Todo(s.loop) == [c] + Todo(s.loop)[1..];
    }
  }

  lemma StepCarriesOn(s: State, a: Action)
    requires Enabled(s, a)
    ensures Made([a], LOOP) + Todo(Apply(s, a).loop) == Todo(s.loop) + ScriptOf(s, a)
  {
    if a.Begin? {
      BeginCarriesOn(s, a.thread, a.call);
    } else {
      assert [a][1..] == [] && Made([a], LOOP) == [];
      assert Todo(Apply(s, a).loop) == Todo(s.loop) + ScriptOf(s, a);
    }
  }

  lemma MadeFirst(a: Action, run: seq<Action>, t: nat)
    ensures Made([a] + run, t) == Made([a], t) + Made(run, t)
  {
    assert ([a] + run)[1..] == run && [a][1..] == [];
  }

  lemma {:induction false} ScriptsCarriedOn(s: State, run: seq<Action>)
    requires Allowed(s, run)
    ensures Made(run, LOOP) + Todo(After(s, run).loop) == Todo(s.loop) + Scripts(s, run)
    decreases |run|
  {
    if run == [] {
      assert Todo(s.loop) + [] == Todo(s.loop);
    } else {
      var a, rest := run[0], run[1..];
      var s' := Apply(s, a);
      assert [a] + rest == run;
      StepCarriesOn(s, a);
      ScriptsCarriedOn(s', rest);
      MadeFirst(a, rest, LOOP);
      Regroup(Made([a], LOOP), Made(rest, LOOP), Todo(After(s', rest).loop));
      Regroup(Made([a], LOOP), Todo(s'.loop), Scripts(s', rest));
      Regroup(Todo(s.loop), ScriptOf(s, a), Scripts(s', rest));
    }
  }

  /** The loop makes the calls of its handlers, posts and stops, and posts what `fire_due` has collected, all
      of them once and in order; what is left is still to be called. */
  lemma HandlersCallsAreMade(run: seq<Action>)
    requires Allowed(START, run)
    ensures Made(run, LOOP) + Todo(After(START, run).loop) == Scripts(START, run)
  {
    ScriptsCarriedOn(START, run);
    assert [] + Scripts(START, run) == Scripts(START, run);
  }

  lemma {:induction false} IssuedOnward(s: State, run: seq<Action>, t: nat)
    requires Allowed(s, run)
    ensures Issued(After(s, run), t) == Issued(s, t) + PostsIn(Made(run, t))
    decreases |run|
  {
    if run != [] {
      var a := run[0];
      IssuedOnward(Apply(s, a), run[1..], t);
      IssuedByStep(s, a, t);
      PostsInFirst(a, run[1..], t);
      assert [a] + run[1..] == run;
      MadeFirst(a, run[1..], t);
      Regroup(Issued(s, t), PostsIn(Made([a], t)), PostsIn(Made(run[1..], t)));
    }
  }

  lemma IssuedByStep(s: State, a: Action, t: nat)
    requires Enabled(s, a)
    ensures Issued(Apply(s, a), t) == Issued(s, t) + PostsIn(Made([a], t))
  {
    assert [a][1..] == [];
    if a.Begin? {
      assert [a.call][1..] == [];
    }
  }

  lemma PostsInFirst(a: Action, run: seq<Action>, t: nat)
    ensures PostsIn(Made([a], t) + Made(run, t)) == PostsIn(Made([a], t)) + PostsIn(Made(run, t))
  {
    assert [a][1..] == [];
    if a.Begin? && a.thread == t {
      assert ([a.call] + Made(run, t))[1..] == Made(run, t) && [a.call][1..] == [];
    } else {
      assert [] + Made(run, t) == Made(run, t);
    }
  }

  /** What a thread counts as posted is what it has called `post` with. */
  lemma IssuedIsMade(run: seq<Action>, t: nat)
    requires Allowed(START, run)
    ensures Issued(After(START, run), t) == PostsIn(Made(run, t))
  {
    IssuedOnward(START, run, t);
    assert [] + PostsIn(Made(run, t)) == PostsIn(Made(run, t));
  }

  // ---- The wait -------------------------------------------------------------------------------

  /** From the top of the loop to the end of its wait, and after the return. */
  predicate Waits(l: LoopPc) {
    l.Top? || l.Evaluating? || l.Parked? || l.Woken? || l.Reevaluating? || l.Leaving? || l.Returned?
  }

  /** A stop with nothing queued ends the wait for good: no timer is fired and nothing dispatched, however
      the threads and the clock go on. */
  lemma {:induction false} StopEndsTheWait(s: State, run: seq<Action>)
    requires s.stop && s.queue == [] && Waits(s.loop) && Allowed(s, run)
    ensures Waits(After(s, run).loop) && After(s, run).dispatched == s.dispatched
    ensures forall i :: 0 <= i < |run| ==> !run[i].Collect? && !run[i].PopFront?
    decreases |run|
  {
    if run != [] {
      StopEndsTheWait(Apply(s, run[0]), run[1..]);
    }
  }

  predicate InWait(l: LoopPc) {
    l.Parked? || l.Woken? || l.Reevaluating?
  }

  /** A spurious wake-up neither takes the bound off a wait nor puts one on it, and an expiry is not
      forgotten. */
  lemma WaitKeepsItsBound(s: State, a: Action)
    requires Enabled(s, a) && InWait(s.loop) && InWait(Apply(s, a).loop)
    ensures Apply(s, a).loop.timed == s.loop.timed
    ensures s.loop.Woken? && s.loop.expired ==> !Apply(s, a).loop.Parked? && Apply(s, a).loop.expired
    ensures s.loop.Reevaluating? && s.loop.expired ==> !Apply(s, a).loop.Parked?
  {
  }

  /** The thread that holds the mutex gives it back, and the wait goes on. */
  lemma MutexGivenBack(s: State) returns (run: seq<Action>)
    requires Inv(s) && s.loop.Parked?
    ensures Allowed(s, run) && (forall i :: 0 <= i < |run| ==> Internal(run[i]))
    ensures After(s, run).loop == s.loop && After(s, run).mutex == Nobody
  {
    if s.mutex == Nobody {
      run := [];
    } else {
      var t := s.mutex.id;
      assert Holds(PcOf(s, t));
      if PcOf(s, t).Locked? || PcOf(s, t).StopLocked? {
        var s1 := DoRecheck(s, t);
        run := [Recheck(t), Unlock(t)];
        OneMore(s1, Unlock(t));
        assert run[1..] == [Unlock(t)];
      } else {
        run := [Unlock(t)];
        OneMore(s, Unlock(t));
      }
    }
  }

  lemma OneMore(s: State, a: Action)
    requires Enabled(s, a)
    ensures Allowed(s, [a]) && After(s, [a]) == Apply(s, a)
  {
    assert [a][1..] == [];
  }

  const EXPIRES: seq<Action> := [Timeout, Acquire, Evaluate(false), Leave]

  lemma ExpiryLeavesTheWait(s: State)
    requires s.loop == Parked(true) && s.mutex == Nobody
    ensures Allowed(s, EXPIRES)
    ensures After(s, EXPIRES).loop == if s.queue == [] && s.stop then Returned else Collecting
  {
    assert EXPIRES[1..] == [Acquire, Evaluate(false), Leave];
    assert EXPIRES[1..][1..] == [Evaluate(false), Leave] && EXPIRES[1..][1..][1..] == [Leave];
    assert EXPIRES[1..][1..][1..][1..] == [];
  }

  lemma {:induction false} AllowedBoth(s: State, a: seq<Action>, b: seq<Action>)
    requires Allowed(s, a) && Allowed(After(s, a), b)
    ensures Allowed(s, a + b) && After(s, a + b) == After(After(s, a), b)
    decreases |a|
  {
    if a == [] {
      assert a + b == b;
    } else {
      assert (a + b)[1..] == a[1..] + b;
      AllowedBoth(Apply(s, a[0]), a[1..], b);
    }
  }

  /** A bounded wait can always run out, and the loop then goes on to the timers although nothing is
      queued, unless a stop has ended it. */
  lemma TimeoutLeadsToFiring(s: State) returns (run: seq<Action>)
    requires Inv(s) && s.loop == Parked(true)
    ensures Allowed(s, run) && run != [] && (forall i :: 0 <= i < |run| ==> Internal(run[i]) || run[i].Timeout?)
    ensures After(s, run).loop.Collecting? || (After(s, run).loop.Returned? && After(s, run).stop)
  {
    var first := MutexGivenBack(s);
    var t := After(s, first);
    ExpiryLeavesTheWait(t);
    AllowedBoth(s, first, EXPIRES);
    run := first + EXPIRES;
    assert forall i :: 0 <= i < |EXPIRES| ==> Internal(EXPIRES[i]) || EXPIRES[i].Timeout?;
  }

  // ---- Rounds ---------------------------------------------------------------------------------

  function CollectsIn(run: seq<Action>): nat {
    if run == [] then 0 else (if run[0].Collect? then 1 else 0) + CollectsIn(run[1..])
  }

  /** How often a drain has found the queue empty. */
  function DrainsIn(s: State, run: seq<Action>): nat
    requires Allowed(s, run)
    decreases |run|
  {
    if run == [] then 0
    else (if run[0].PopFront? && s.queue == [] then 1 else 0) + DrainsIn(Apply(s, run[0]), run[1..])
  }

  /** The loop has not yet gone to the timers in this round. */
  predicate BeforeTimers(l: LoopPc) {
    l.Top? || InWait(l) || l.Evaluating? || l.Leaving? || l.Collecting?
  }

  /** Before it goes to the timers again, the loop drains the queue until it is empty. */
  lemma {:induction false} DrainedBetweenRounds(s: State, run: seq<Action>)
    requires Allowed(s, run)
    ensures CollectsIn(run) <= DrainsIn(s, run) + if BeforeTimers(s.loop) || s.loop.Deciding? then 1 else 0
    decreases |run|
  {
    if run != [] {
      DrainedBetweenRounds(Apply(s, run[0]), run[1..]);
    }
  }

  /** A stop ends the rounds: only the one that is under way goes to the timers, if it has yet to. */
  lemma {:induction false} NoRoundAfterStop(s: State, run: seq<Action>)
    requires s.stop && Allowed(s, run)
    ensures CollectsIn(run) <= if BeforeTimers(s.loop) then 1 else 0
    decreases |run|
  {
    if run != [] {
      NoRoundAfterStop(Apply(s, run[0]), run[1..]);
    }
  }
}
