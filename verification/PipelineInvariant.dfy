/** The inductive invariant of the pipeline, in seven parts. */
module PipelineInvariant {
  import opened Options
  import opened PipelineModel
  import C = CacheSpec
  import T = TimerSpec

  // ---- Views of the queue ---------------------------------------------------------------------

  function Notes(q: seq<Envelope>): seq<Note> {
    if q == [] then [] else (if q[0].KeyChanged? then [q[0].note] else []) + Notes(q[1..])
  }

  function Gestures(q: seq<Envelope>): seq<Gesture> {
    if q == [] then [] else (if q[0].Send? then [q[0].gesture] else []) + Gestures(q[1..])
  }

  function Count(q: seq<Envelope>, e: Envelope): nat {
    if q == [] then 0 else B(q[0] == e) + Count(q[1..], e)
  }

  function B(b: bool): nat {
    if b then 1 else 0
  }

  lemma {:induction false} CountAppend(q: seq<Envelope>, x: Envelope, e: Envelope)
    ensures Count(q + [x], e) == Count(q, e) + B(x == e)
  {
    if q == [] {
      assert q + [x] == [x];
    } else {
      assert (q + [x])[1..] == q[1..] + [x];
      CountAppend(q[1..], x, e);
    }
  }

  lemma {:induction false} NotesAppend(q: seq<Envelope>, e: Envelope)
    ensures Notes(q + [e]) == Notes(q) + (if e.KeyChanged? then [e.note] else [])
  {
    if q == [] {
      assert q + [e] == [e];
    } else {
      NotesAppend(q[1..], e);
      assert (q + [e])[1..] == q[1..] + [e] && (q + [e])[0] == q[0];
      var head := if q[0].KeyChanged? then [q[0].note] else [];
      var last := if e.KeyChanged? then [e.note] else [];
      assert head + (Notes(q[1..]) + last) == head + Notes(q[1..]) + last;
    }
  }

  lemma {:induction false} GesturesAppend(q: seq<Envelope>, e: Envelope)
    ensures Gestures(q + [e]) == Gestures(q) + (if e.Send? then [e.gesture] else [])
  {
    if q == [] {
      assert q + [e] == [e];
    } else {
      GesturesAppend(q[1..], e);
      assert (q + [e])[1..] == q[1..] + [e] && (q + [e])[0] == q[0];
      var head := if q[0].Send? then [q[0].gesture] else [];
      var last := if e.Send? then [e.gesture] else [];
      assert head + (Gestures(q[1..]) + last) == head + Gestures(q[1..]) + last;
    }
  }

  lemma ViewsAppend(q: seq<Envelope>, e: Envelope)
    ensures Notes(q + [e]) == Notes(q) + (if e.KeyChanged? then [e.note] else [])
    ensures Gestures(q + [e]) == Gestures(q) + (if e.Send? then [e.gesture] else [])
  {
    NotesAppend(q, e);
    GesturesAppend(q, e);
  }

  lemma {:induction false} NoNotes(q: seq<Envelope>)
    ensures Notes(q) == [] <==> forall i :: 0 <= i < |q| ==> !q[i].KeyChanged?
  {
    if q != [] {
      NoNotes(q[1..]);
      assert forall i :: 1 <= i < |q| ==> q[i] == q[1..][i - 1];
    }
  }

  /** Envelopes collected by `fire_due` and not yet posted. */
  function Todo(p: Position): seq<Envelope> {
    match p
    case ManualFiring(todo) => todo
    case RunFiring(todo) => todo
    case _ => []
  }

  /** How many `e` are queued or about to be posted. */
  function Pending(s: Sys, e: Envelope): nat {
    Count(s.queue, e) + Count(Todo(s.pos), e)
  }

  /** No timer envelope sits behind a `KeyChanged`. */
  ghost predicate TimersFirst(q: seq<Envelope>) {
    forall i, j :: 0 <= i < j < |q| && q[i].KeyChanged? ==> !IsTimer(q[j])
  }

  // ---- Views of the history -------------------------------------------------------------------

  function Presses(commits: seq<Commit>): nat {
    if commits == [] then 0
    else Presses(commits[..|commits| - 1]) + (if commits[|commits| - 1].pressed then 1 else 0)
  }

  function Credit(g: Gesture): nat {
    if g == DoubleClick then 2 else 1
  }

  /** Presses accounted for by the gestures sent. */
  function Credits(sent: seq<Sent>): nat {
    if sent == [] then 0
    else Credits(sent[..|sent| - 1]) + Credit(sent[|sent| - 1].gesture)
  }

  function Kinds(sent: seq<Sent>): (r: seq<Gesture>)
    ensures |r| == |sent|
  {
    seq(|sent|, i requires 0 <= i < |sent| => sent[i].gesture)
  }

  function Undelivered(s: ClsState): nat {
    match s
    case Idle => 0
    case Pressed => 1
    case AwaitingSecondClick => 1
    case SecondPressed => 2
  }

  function QueuedPresses(q: seq<Envelope>): nat {
    var n := Notes(q);
    if |n| == 1 && n[0].after == Bit(true) then 1 else 0
  }

  function UiAfterOne(ui: UiMode, g: Gesture): UiMode {
    match g
    case Click => if ui == UiIdle then UiActive else if ui == UiActive then UiIdle else ui
    case LongPress => if ui == UiConfiguring then UiIdle else UiConfiguring
    case DoubleClick => ui
  }

  function UiAfter(gs: seq<Gesture>): UiMode {
    if gs == [] then UiIdle else UiAfterOne(UiAfter(gs[..|gs| - 1]), gs[|gs| - 1])
  }

  // ---- The invariant --------------------------------------------------------------------------

  predicate IsArmed(s: Sys, timer: Option<nat>) {
    timer.Some? && timer.value in s.timers.live
  }

  function LastCommit(s: Sys): Commit
    requires s.hist.commits != []
  {
    s.hist.commits[|s.hist.commits| - 1]
  }

  ghost predicate OwnedTimer(s: Sys, k: nat, t: T.Armed<Envelope>) {
    || (s.deb.timer == Some(k) && s.hist.commits != [] && t == T.Armed(LastCommit(s).at + DEBOUNCE_WINDOW, DebounceExpired))
    || (s.cls.timer == Some(k) && s.cls.state == Pressed && t == T.Armed(s.hist.entered + LONG_PRESS_THRESHOLD, LongPressExpired))
    || (s.cls.timer == Some(k) && s.cls.state == AwaitingSecondClick && t == T.Armed(s.hist.entered + DOUBLE_CLICK_WINDOW, DoubleClickExpired))
  }

  /** Subscriptions and timers live exactly as long as the states that own them. */
  ghost predicate Resources(s: Sys) {
    && !s.faulted && s.capacity >= 1
    && s.cls.sub.Some?
    && s.cache.subs == [C.Subscriber(s.cls.sub.value, ButtonKey, ClickClassifier)]
    && (s.deb.timer.Some? <==> s.deb.state == CoolingDown)
    && (s.cls.timer.Some? <==> s.cls.state == Pressed || s.cls.state == AwaitingSecondClick)
    && 1 <= s.timers.next
    && (s.deb.timer.Some? ==> s.deb.timer.value < s.timers.next)
    && (s.cls.timer.Some? ==> s.cls.timer.value < s.timers.next)
    && (s.deb.timer.Some? ==> s.deb.timer != s.cls.timer)
    && forall k :: k in s.timers.live ==> OwnedTimer(s, k, s.timers.live[k])
  }

  /** Each owned timer is armed or its envelope is pending, never both. Its envelope may be lost
      when it is posted after stop, which cannot happen while a `KeyChanged` is queued. */
  ghost predicate TimerCounts(s: Sys) {
    var deb := Pending(s, DebounceExpired) + B(IsArmed(s, s.deb.timer));
    var long := Pending(s, LongPressExpired) + B(s.cls.state == Pressed && IsArmed(s, s.cls.timer));
    var double := Pending(s, DoubleClickExpired) + B(s.cls.state == AwaitingSecondClick && IsArmed(s, s.cls.timer));
    && deb <= B(s.deb.state == CoolingDown)
    && long <= B(s.cls.state == Pressed)
    && double <= B(s.cls.state == AwaitingSecondClick)
    && (!s.stopped || Notes(s.queue) != [] ==>
          && deb == B(s.deb.state == CoolingDown)
          && long == B(s.cls.state == Pressed)
          && double == B(s.cls.state == AwaitingSecondClick))
  }

  ghost predicate QueueShape(s: Sys) {
    && TimersFirst(s.queue)
    && |Notes(s.queue)| <= 1
    && (forall i :: 0 <= i < |Todo(s.pos)| ==> IsTimer(Todo(s.pos)[i]))
    && (!Draining(s.pos) ==> Notes(s.queue) == [] && Gestures(s.queue) == [])
  }

  /** The classifier has seen every committed value except the one still queued. */
  ghost predicate InSync(s: Sys) {
    && (s.cls.state == Pressed || s.cls.state == SecondPressed ==> s.hist.seen == Some(Bit(true)))
    && (s.cls.state == AwaitingSecondClick ==> s.hist.seen == Some(Bit(false)))
    && (s.cls.state == Idle && s.hist.seen == Some(Bit(true)) ==>
          s.hist.sent != [] && s.hist.sent[|s.hist.sent| - 1].gesture == LongPress)
    && (s.hist.seen.Some? ==> s.hist.seen.value.Bit?)
    && (Notes(s.queue) == [] && !s.stopped ==> s.hist.seen == C.Get(s.cache, ButtonKey))
    && (Notes(s.queue) != [] ==>
          && IsArmed(s, s.deb.timer)
          && C.Get(s.cache, ButtonKey).Some? && C.Get(s.cache, ButtonKey) != s.hist.seen
          && (s.hist.seen == None ==> C.Get(s.cache, ButtonKey) == Some(Bit(true)))
          && Notes(s.queue)[0] == C.Note(ClickClassifier, ButtonKey, s.hist.seen, C.Get(s.cache, ButtonKey).value))
  }

  ghost predicate Mirrors(s: Sys) {
    && C.Get(s.cache, UiModeKey) == Some(Mode(s.ui))
    && s.ui == UiAfter(s.hist.handled)
    && C.Get(s.cache, ButtonKey) == (if s.hist.commits == [] then None else Some(Bit(LastCommit(s).pressed)))
    && (s.deb.state == CoolingDown ==> s.hist.commits != [])
  }

  ghost predicate CommitsAlternate(c: seq<Commit>) {
    forall i :: 0 <= i < |c| ==> c[i].pressed == (i % 2 == 0)
  }

  ghost predicate CommitsSpaced(c: seq<Commit>) {
    forall i :: 0 < i < |c| ==> c[i].at >= c[i - 1].at + DEBOUNCE_WINDOW
  }

  /** Time bounds on a gesture. A double click's window was still open when timers were last fired before
      its second press; the manual clock fires as it advances, so there that is the time of the press. */
  ghost predicate Timely(manual: bool, g: Sent) {
    match g.gesture
    case LongPress => g.at >= g.entered + LONG_PRESS_THRESHOLD
    case Click => g.at >= g.entered + DOUBLE_CLICK_WINDOW
    case DoubleClick =>
      g.at >= g.entered >= g.asOf && g.asOf < g.awaited + DOUBLE_CLICK_WINDOW && (manual ==> g.asOf == g.entered)
  }

  ghost predicate Timing(s: Sys) {
    && s.hist.entered <= s.now
    && CommitsAlternate(s.hist.commits) && CommitsSpaced(s.hist.commits)
    && (s.hist.commits != [] ==> LastCommit(s).at <= s.now)
    && (s.hist.commits != [] && !IsArmed(s, s.deb.timer) ==> LastCommit(s).at + DEBOUNCE_WINDOW <= s.now)
    && (s.cls.state == Pressed && !IsArmed(s, s.cls.timer) ==> s.hist.entered + LONG_PRESS_THRESHOLD <= s.now)
    && (s.cls.state == AwaitingSecondClick && !IsArmed(s, s.cls.timer) ==> s.hist.entered + DOUBLE_CLICK_WINDOW <= s.now)
    && (s.cls.state == AwaitingSecondClick ==> s.hist.awaited == s.hist.entered)
    && s.hist.fired <= s.now && (s.manual ==> s.hist.fired == s.now)
    && (forall k :: k in s.timers.live ==> s.timers.live[k].due > s.hist.fired)
    && s.hist.asOf <= s.hist.entered && (s.manual ==> s.hist.asOf == s.hist.entered)
    && (s.cls.state == SecondPressed ==> s.hist.asOf < s.hist.awaited + DOUBLE_CLICK_WINDOW)
    && forall i :: 0 <= i < |s.hist.sent| ==> Timely(s.manual, s.hist.sent[i])
  }

  ghost predicate Conserved(s: Sys) {
    !s.stopped ==>
      && Presses(s.hist.commits) == Credits(s.hist.sent) + Undelivered(s.cls.state) + QueuedPresses(s.queue)
      && Kinds(s.hist.sent) == s.hist.handled + Gestures(s.queue)
  }

  ghost predicate Inv(s: Sys) {
    && Resources(s) && TimerCounts(s) && QueueShape(s) && InSync(s)
    && Mirrors(s) && Timing(s) && Conserved(s)
  }

  // ---- Writes to the cache --------------------------------------------------------------------

  /** With the classifier as the only subscriber, publishing the mode posts nothing. */
  lemma PublishMode(s: Sys, m: UiMode)
    requires |s.cache.subs| == 1 && s.cache.subs[0].key == ButtonKey
    ensures SetKey(s, UiModeKey, Mode(m)) == s.(cache := C.Set(s.cache, UiModeKey, Mode(m)))
  {
    assert C.Notes(s.cache.subs[1..], UiModeKey, C.Get(s.cache, UiModeKey), Mode(m)) == [];
    assert C.SetNotes(s.cache, UiModeKey, Mode(m)) == [];
  }

  /** A changed button value is posted once, to that subscriber. */
  lemma CommitButton(s: Sys, v: Value)
    requires |s.cache.subs| == 1 && s.cache.subs[0].key == ButtonKey
    requires C.Changed(s.cache, ButtonKey, v)
    ensures SetKey(s, ButtonKey, v)
         == Post(s.(cache := C.Set(s.cache, ButtonKey, v)),
                 KeyChanged(C.Note(s.cache.subs[0].who, ButtonKey, C.Get(s.cache, ButtonKey), v)))
  {
    var n := C.Note(s.cache.subs[0].who, ButtonKey, C.Get(s.cache, ButtonKey), v);
    assert C.Notes(s.cache.subs[1..], ButtonKey, C.Get(s.cache, ButtonKey), v) == [];
    assert C.SetNotes(s.cache, ButtonKey, v) == [n];
    var s' := Post(s.(cache := C.Set(s.cache, ButtonKey, v)), KeyChanged(n));
    assert PostNotes(s', [n][1..]) == s';
  }

  // ---- Start ----------------------------------------------------------------------------------

  function Initial(now: int, manual: bool, capacity: nat): Sys {
    Sys([], false, false, now, manual, capacity,
        C.Cache(map[UiModeKey := Mode(UiIdle)], [C.Subscriber(0, ButtonKey, ClickClassifier)]), T.Timers(map[], 1),
        DebouncerFlow(Settled, None), ClassifierFlow(Idle, Some(0), None), UiIdle, Outside,
        History([], None, [], [], now, now, now, now))
  }

  lemma StartEffect(now: int, manual: bool, capacity: nat)
    requires capacity >= 1
    ensures Start(now, manual, capacity) == Initial(now, manual, capacity)
  {
    var s0 := Sys([], false, false, now, manual, capacity, C.Cache(map[], []), T.Timers(map[], 1),
                  DebouncerFlow(Settled, None), ClassifierFlow(Idle, None, None), UiIdle, Outside,
                  History([], None, [], [], now, now, now, now));
    var s1 := ClassifierEnter(DebouncerEnter(s0, Settled), Idle);
    assert s1.cache.subs == [C.Subscriber(0, ButtonKey, ClickClassifier)];
    PublishMode(s1, UiIdle);
  }

  lemma StartInv(now: int, manual: bool, capacity: nat)
    requires capacity >= 1
    ensures Inv(Start(now, manual, capacity)) && Start(now, manual, capacity).manual == manual
  {
    StartEffect(now, manual, capacity);
    var s := Initial(now, manual, capacity);
    assert Resources(s) && TimerCounts(s) && QueueShape(s);
    assert InSync(s) && Mirrors(s) && Timing(s) && Conserved(s);
  }
}
