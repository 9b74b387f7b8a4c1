/** Whole sessions of a client: each behaves like the reference button, and each can be served. */
module PipelineSessions {
  import opened Options
  import opened PipelineModel
  import opened PipelineInvariant
  import opened PipelineReference
  import opened PipelineTheorems
  import opened PipelineClient
  import C = CacheSpec
  import T = TimerSpec

  /** `run` serves the stimuli one after the other. */
  ghost predicate Serves(s: Sys, xs: seq<Stimulus>, run: seq<Action>)
    decreases |xs|
  {
    if xs == [] then run == [] else exists k: nat :: ServesFrom(s, xs, run, k)
  }

  /** The first stimulus is served by the first `k` actions, the others by the rest. */
  ghost predicate ServesFrom(s: Sys, xs: seq<Stimulus>, run: seq<Action>, k: nat)
    requires xs != []
    decreases |xs|, 0
  {
    k <= |run| && ServesOne(s, xs[0], run[..k]) && Serves(After(s, run[..k]), xs[1..], run[k..])
  }

  lemma ServedFirst(s: Sys, x: Stimulus, a: seq<Action>, b: seq<Action>)
    requires Quiet(s) && ServesOne(s, x, a)
    ensures Quiet(After(s, a)) && View(After(s, a)) == Respond(View(s), x)
    ensures Allowed(After(s, a), b) ==> Allowed(s, a + b) && After(s, a + b) == After(After(s, a), b)
  {
    ServedOne(s, x, a);
    AfterSplit(s, a, b);
  }

  /** `run` is possible and ends, quiet again, with the pipeline standing for `r`. */
  ghost predicate Ends(s: Sys, run: seq<Action>, r: Button) {
    Allowed(s, run) && Quiet(After(s, run)) && View(After(s, run)) == r
  }

  lemma ServedRest(s: Sys, xs: seq<Stimulus>, a: seq<Action>, b: seq<Action>)
    requires xs != [] && Quiet(s) && ServesOne(s, xs[0], a)
    requires Ends(After(s, a), b, Responses(View(After(s, a)), xs[1..]))
    ensures Ends(s, a + b, Responses(View(s), xs))
  {
    ServedFirst(s, xs[0], a, b);
  }

  lemma ServedNone(s: Sys, run: seq<Action>)
    requires Quiet(s) && Serves(s, [], run)
    ensures Ends(s, run, Responses(View(s), []))
  {
  }

  /** The first stimulus is served by the first part of the run. */
  lemma ServesSplit(s: Sys, xs: seq<Stimulus>, run: seq<Action>) returns (a: seq<Action>, b: seq<Action>)
    requires xs != [] && Serves(s, xs, run)
    ensures run == a + b && ServesOne(s, xs[0], a) && Serves(After(s, a), xs[1..], b)
  {
    var k: nat :| ServesFrom(s, xs, run, k);
    a, b := run[..k], run[k..];
  }

  lemma {:induction false} Served(s: Sys, xs: seq<Stimulus>, run: seq<Action>)
    requires Quiet(s) && Serves(s, xs, run)
    ensures Ends(s, run, Responses(View(s), xs))
    decreases |xs|
  {
    if xs == [] {
      ServedNone(s, run);
    } else {
      var a, b := ServesSplit(s, xs, run);
      ServedOne(s, xs[0], a);
      Served(After(s, a), xs[1..], b);
      ServedRest(s, xs, a, b);
    }
  }

  /** Every session of a client is the reference button: the same committed value, lockout, gesture
      phase and gestures, and the published mode is the fold of those gestures. */
  lemma PipelineIsButton(now: int, capacity: nat, xs: seq<Stimulus>, run: seq<Action>)
    requires capacity >= 1 && Serves(Start(now, true, capacity), xs, run)
    ensures Allowed(Start(now, true, capacity), run)
    ensures var s := After(Start(now, true, capacity), run);
            && View(s) == Responses(Button(now, false, None, Up, []), xs)
            && C.Get(s.cache, ButtonKey).GetOr(Bit(false)) == Bit(View(s).pressed)
            && C.Get(s.cache, UiModeKey) == Some(Mode(UiAfter(View(s).gestures)))
  {
    StartInv(now, true, capacity);
    StartEffect(now, true, capacity);
    var s0 := Start(now, true, capacity);
    assert View(s0) == Button(now, false, None, Up, []);
    Served(s0, xs, run);
    QuietShows(After(s0, run));
  }

  lemma QuietShows(s: Sys)
    requires Quiet(s)
    ensures C.Get(s.cache, ButtonKey).GetOr(Bit(false)) == Bit(View(s).pressed)
    ensures C.Get(s.cache, UiModeKey) == Some(Mode(UiAfter(View(s).gestures)))
  {
    assert s.hist.handled + Gestures([]) == s.hist.handled;
  }

  // ---- Every session can be served ------------------------------------------------------------

  /** Two timers at most, so a batch always exists. */
  lemma BatchExists(s: Sys, now: int) returns (batch: seq<nat>)
    requires Resources(s)
    ensures T.IsBatch(s.timers, now, batch)
  {
    Owned(s);
    var due := T.DueBy(s.timers, now);
    var d := s.deb.timer.Some? && s.deb.timer.value in due;
    var c := s.cls.timer.Some? && s.cls.timer.value in due;
    if d && c {
      var i, j := s.deb.timer.value, s.cls.timer.value;
      batch := if s.timers.live[i].due <= s.timers.live[j].due then [i, j] else [j, i];
    } else if d {
      batch := [s.deb.timer.value];
    } else if c {
      batch := [s.cls.timer.value];
    } else {
      batch := [];
    }
  }

  lemma RunOneAllowed(s: Sys, n: nat)
    requires s.pos == Outside && Allowed(s.(pos := OneDrain), Times(DispatchFront, n))
    requires var t := After(s.(pos := OneDrain), Times(DispatchFront, n)); t.queue == [] && t.pos == OneDrain
    ensures Allowed(s, RunOne(n))
  {
    var s1 := s.(pos := OneDrain);
    Cons(After(s1, Times(DispatchFront, n)), DrainDone, []);
    AfterSplit(s1, Times(DispatchFront, n), [DrainDone]);
    Cons(s, CallRunOne, Times(DispatchFront, n) + [DrainDone]);
  }

  lemma DrainedExists(s: Sys) returns (n: nat)
    requires Inv(s) && Draining(s.pos)
    ensures Allowed(s, Times(DispatchFront, n))
    ensures After(s, Times(DispatchFront, n)).queue == [] && After(s, Times(DispatchFront, n)).pos == s.pos
  {
    n := DispatchesExist(s);
    TimesAll(DispatchFront, n);
    DispatchesRun(s, Times(DispatchFront, n));
    DrainPos(s);
  }

  lemma RunOneExists(s: Sys) returns (n: nat)
    requires Inv(s) && s.pos == Outside
    ensures Allowed(s, RunOne(n))
  {
    CallInv(s);
    n := DrainedExists(s.(pos := OneDrain));
    RunOneAllowed(s, n);
  }

  lemma FiringAllowed(s: Sys)
    requires s.pos.ManualFiring? && !s.stopped
    ensures Allowed(s, Times(PostFired, |s.pos.todo|) + [FiringDone])
  {
    var posts := Times(PostFired, |s.pos.todo|);
    FiresRun(s);
    JustOne(After(s, posts), FiringDone);
    AfterSplit(s, posts, [FiringDone]);
  }

  lemma AdvanceAllowed(s: Sys, d: int, batch: seq<nat>)
    requires Enabled(s, Advance(d, batch)) && !s.stopped
    ensures Allowed(s, AdvanceAll(d, batch))
  {
    FiringAllowed(Fire(s, s.now + d, batch, true));
    Cons(s, Advance(d, batch), Times(PostFired, |batch|) + [FiringDone]);
  }

  lemma AdvanceExists(s: Sys, d: int) returns (batch: seq<nat>)
    requires Quiet(s) && d >= 0
    ensures Allowed(s, AdvanceAll(d, batch))
  {
    batch := BatchExists(s, s.now + d);
    AdvanceAllowed(s, d, batch);
  }

  lemma ServeExists(s: Sys, x: Stimulus) returns (run: seq<Action>)
    requires Quiet(s) && (x.Wait? ==> x.delta >= 0)
    ensures ServesOne(s, x, run)
  {
    match x
    case Burst(bs) =>
      PostsRun(s, bs);
      PostsInv(s, bs);
      var n := RunOneExists(After(s, Posts(bs)));
      AfterSplit(s, Posts(bs), RunOne(n));
      run := Posts(bs) + RunOne(n);
    case Wait(d) =>
      var batch := AdvanceExists(s, d);
      AdvancedInv(s, d, batch);
      var n := RunOneExists(Advanced(s, d, batch));
      AfterSplit(s, AdvanceAll(d, batch), RunOne(n));
      run := AdvanceAll(d, batch) + RunOne(n);
  }

  /** Whatever the client does, the pipeline can serve it. */
  lemma {:induction false} SessionExists(s: Sys, xs: seq<Stimulus>) returns (run: seq<Action>)
    requires Quiet(s) && forall i :: 0 <= i < |xs| && xs[i].Wait? ==> xs[i].delta >= 0
    ensures Serves(s, xs, run)
    decreases |xs|
  {
    if xs == [] {
      run := [];
    } else {
      var a := ServeExists(s, xs[0]);
      ServedOne(s, xs[0], a);
      var b := SessionExists(After(s, a), xs[1..]);
      run := a + b;
      assert run[..|a|] == a && run[|a|..] == b;
      assert ServesFrom(s, xs, run, |a|);
    }
  }
}
