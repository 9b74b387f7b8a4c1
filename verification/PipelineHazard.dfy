/** The two states that the counterexamples start from, and how they are reached: a release queued while
    the long-press timer is about to expire, and an open double-click window under a steady clock. */
module PipelineHazard {
  import opened Options
  import opened PipelineModel
  import opened PipelineInvariant
  import opened PipelineDispatch
  import opened PipelineReference
  import opened PipelineTheorems
  import opened PipelineClient
  import opened PipelineSessions
  import opened PipelineSteady
  import T = TimerSpec

  /** Press, settle, and hold until two milliseconds before the long-press threshold. */
  const ALMOST_LONG: seq<Stimulus> := [Burst([true]), Wait(5), Wait(493)]

  lemma AlmostLong(now: int)
    ensures Responses(Button(now, false, None, Up, []), ALMOST_LONG)
         == Button(now + 498, true, None, Down(now + 500), [])
  {
    var b0 := Button(now, false, None, Up, []);
    var b1 := Button(now, true, Some(now + 5), Down(now + 500), []);
    assert Readings(b1, [true][1..]) == b1;
    assert Respond(b0, Burst([true])) == b1;
    var b2 := Button(now + 5, true, None, Down(now + 500), []);
    assert Respond(b1, Wait(5)) == b2;
    assert ALMOST_LONG[1..] == [Wait(5), Wait(493)] && ALMOST_LONG[1..][1..] == [Wait(493)];
    assert Responses(b2, [Wait(493)]) == Respond(b2, Wait(493));
  }

  lemma HoldExists(now: int, capacity: nat) returns (run: seq<Action>)
    requires capacity >= 1
    ensures Allowed(Start(now, true, capacity), run)
    ensures Holding(After(Start(now, true, capacity), run))
  {
    StartInv(now, true, capacity);
    StartEffect(now, true, capacity);
    var s0 := Start(now, true, capacity);
    run := SessionExists(s0, ALMOST_LONG);
    Served(s0, ALMOST_LONG, run);
    AlmostLong(now);
  }

  /** The release has just been committed; its `KeyChanged` is the whole queue. */
  function Released(s: Sys): Sys {
    CommitEdge(s.(queue := [RawTransition(false)], pos := OneDrain), false)
  }

  /** Settled, with the button down: the next release is accepted. */
  ghost predicate Holding(s: Sys) {
    Quiet(s) && View(s) == Button(s.now, true, None, Down(s.now + 2), [])
  }

  lemma HoldingState(s: Sys)
    requires Holding(s)
    ensures s.deb.state == Settled && s.hist.commits != [] && LastCommit(s).pressed && s.cls.state == Pressed
  {
  }

  lemma ReleaseEffect(s: Sys)
    requires Resources(s) && Mirrors(s) && s.deb.state == Settled && s.hist.commits != [] && LastCommit(s).pressed
    ensures Dispatch(s.(queue := [RawTransition(false)], pos := OneDrain)) == Released(s)
  {
    var s2 := s.(queue := [RawTransition(false)], pos := OneDrain);
    forall k | k in s2.timers.live ensures OwnedTimer(s2, k, s2.timers.live[k]) {
      assert OwnedTimer(s, k, s.timers.live[k]);
    }
    CommitEffect(s2);
  }

  lemma ReleaseRun(s: Sys)
    requires s.pos == Outside && s.queue == [] && !s.stopped
    ensures Allowed(s, [ExternalPost(false), CallRunOne, DispatchFront])
    ensures After(s, [ExternalPost(false), CallRunOne, DispatchFront])
         == Dispatch(s.(queue := [RawTransition(false)], pos := OneDrain))
  {
    var s1 := s.(queue := [RawTransition(false)]);
    var s2 := s1.(pos := OneDrain);
    assert s.queue + [RawTransition(false)] == s1.queue;
    OneDispatch(s2);
    Cons(s1, CallRunOne, [DispatchFront]);
    Cons(s, ExternalPost(false), [CallRunOne, DispatchFront]);
  }

  lemma OneDispatch(s: Sys)
    requires s.queue != [] && Draining(s.pos)
    ensures Allowed(s, [DispatchFront]) && After(s, [DispatchFront]) == Dispatch(s)
  {
    JustOne(s, DispatchFront);
  }

  const RELEASE: seq<Action> := [ExternalPost(false), CallRunOne, DispatchFront]

  lemma ReleaseReached(s0: Sys, a: seq<Action>)
    requires Allowed(s0, a) && Holding(After(s0, a))
    ensures Allowed(s0, a + RELEASE) && After(s0, a + RELEASE) == Released(After(s0, a))
  {
    var s := After(s0, a);
    HoldingState(s);
    ReleaseRun(s);
    ReleaseEffect(s);
    AfterSplit(s0, a, RELEASE);
  }

  lemma ReleasedBatch(s: Sys)
    requires Holding(s)
    ensures s.cls.timer.Some? && T.IsBatch(Released(s).timers, s.now + 2, [s.cls.timer.value])
    ensures var t := Released(s);
            && t.cls == s.cls && t.cls.state == Pressed && t.now == s.now && t.manual && !t.stopped
            && t.pos == OneDrain && |t.queue| == 1 && t.queue[0].KeyChanged?
  {
    Armament(s);
    Owned(s);
    HoldingState(s);
    assert T.DueBy(Released(s).timers, s.now + 2) == {s.cls.timer.value};
  }

  lemma ReleaseExists(now: int, capacity: nat) returns (r: Run, batch: seq<nat>)
    requires capacity >= 1
    ensures Legal(r) && r.manual && Inv(Final(r)) && Final(r).pos == OneDrain && !Final(r).stopped
    ensures Final(r).cls.state == Pressed && |Final(r).queue| == 1 && Final(r).queue[0].KeyChanged?
    ensures Final(r).cls.timer.Some? && batch == [Final(r).cls.timer.value]
    ensures T.IsBatch(Final(r).timers, Final(r).now + 2, batch)
  {
    var a := HoldExists(now, capacity);
    var s0 := Start(now, true, capacity);
    ReleaseReached(s0, a);
    r := Run(now, true, capacity, a + RELEASE);
    Reached(r);
    ReleasedBatch(After(s0, a));
    batch := [After(s0, a).cls.timer.value];
  }

  // ---- An open double-click window ---------------------------------------------------------------

  lemma StartRests(now: int, capacity: nat) returns (s: Sys)
    requires capacity >= 1
    ensures Reaches(Start(now, false, capacity), s) && Resting(s, Button(now, false, None, Up, []))
  {
    StartInv(now, false, capacity);
    StartEffect(now, false, capacity);
    var s0 := Start(now, false, capacity);
    s := s0.(pos := RunWait);
    ReachesOne(s0, CallRun);
    ReachedInv(s0, s);
  }

  /** A transition, and 5 ms later the end of its lockout. */
  lemma EdgeRounds(s: Sys, b: Button, x: bool, b': Button) returns (t: Sys)
    requires Resting(s, b) && InTime(b) && Passed(Reading(b, x), 5) == b'
    ensures Reaches(s, t) && Resting(t, b')
  {
    var t1 := ReadRound(s, b, x);
    t := WaitRound(t1, Reading(b, x), 5);
    ReachesOver(s, t1, t);
  }

  lemma ButtonRounds(now: int)
    ensures Passed(Reading(Button(now, false, None, Up, []), true), 5) == Button(now + 5, true, None, Down(now + 500), [])
    ensures Passed(Reading(Button(now + 5, true, None, Down(now + 500), []), false), 5)
         == Button(now + 10, false, None, Between(now + 305), [])
  {
  }

  /** Press, settle, release, settle: the double-click window is open. */
  lemma WindowOpens(now: int, capacity: nat) returns (s: Sys)
    requires capacity >= 1
    ensures Reaches(Start(now, false, capacity), s)
    ensures Resting(s, Button(now + 10, false, None, Between(now + 305), []))
  {
    var s0 := Start(now, false, capacity);
    ButtonRounds(now);
    var down := Button(now + 5, true, None, Down(now + 500), []);
    var s1 := StartRests(now, capacity);
    var s2 := EdgeRounds(s1, Button(now, false, None, Up, []), true, down);
    s := EdgeRounds(s2, down, false, Button(now + 10, false, None, Between(now + 305), []));
    ReachesOver(s0, s1, s2);
    ReachesOver(s0, s2, s);
  }
}
