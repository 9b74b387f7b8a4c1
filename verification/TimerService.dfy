/** The timer service: a heap with lazily cancelled entries and the set of live sequence numbers.
    Every operation is the corresponding one of TimerSpec on the map it stands for. */
module TimerServices {
  import opened Options
  import opened TimerHeap
  import opened PostSinks
  import T = TimerSpec

  class Clock {
    var now: int

    constructor (initial: int)
      ensures now == initial
    {
      now := initial;
    }
  }

  /** Identifiers occur once, in the range already handed out. */
  ghost predicate Distinct<E(!new)>(m: multiset<Entry<E>>, next: nat) {
    && (forall e :: e in m ==> m[e] == 1 && 1 <= e.id < next)
    && (forall e, f :: e in m && f in m && e.id == f.id ==> e == f)
  }

  /** The live timers are the entries of the heap that were not cancelled. */
  ghost predicate Represents<E(!new)>(m: multiset<Entry<E>>, live: set<nat>, t: T.Timers<E>) {
    && t.live.Keys == live
    && (forall k :: k in live ==> Entry(t.live[k].due, k, t.live[k].envelope) in m)
  }

  lemma ArmRepresents<E(!new)>(m: multiset<Entry<E>>, live: set<nat>, t: T.Timers<E>, now: int, delay: int, envelope: E)
    requires 1 <= t.next && Distinct(m, t.next) && Represents(m, live, t)
    ensures Distinct(m + multiset{Entry(now + delay, t.next, envelope)}, t.next + 1)
    ensures Represents(m + multiset{Entry(now + delay, t.next, envelope)}, live + {t.next}, T.Arm(t, now, delay, envelope))
    ensures t.next !in t.live
  {
  }

  // ---- Firing ---------------------------------------------------------------------------------

  function Ids<E>(fired: seq<Entry<E>>): (ids: seq<nat>)
    ensures |ids| == |fired| && forall i :: 0 <= i < |ids| ==> ids[i] == fired[i].id
  {
    if fired == [] then [] else [fired[0].id] + Ids(fired[1..])
  }

  /** The entries of the live timers are still in the heap. */
  ghost predicate StillThere<E(!new)>(before: T.Timers<E>, m: multiset<Entry<E>>, live: set<nat>) {
    forall k :: k in live ==> k in before.live && Entry(before.live[k].due, k, before.live[k].envelope) in m
  }

  ghost predicate Taken<E>(before: T.Timers<E>, now: int, live: set<nat>, e: Entry<E>) {
    Matches(before, e) && e.due <= now && e.id !in live
  }

  ghost predicate Matches<E>(before: T.Timers<E>, e: Entry<E>) {
    e.id in before.live && before.live[e.id] == T.Armed(e.due, e.envelope)
  }

  ghost predicate InOrder<E>(fired: seq<Entry<E>>) {
    forall i, j :: 0 <= i < j < |fired| ==> fired[i].id != fired[j].id && fired[i].due <= fired[j].due
  }

  ghost predicate NotAfter<E(!new)>(e: Entry<E>, m: multiset<Entry<E>>) {
    forall f :: f in m ==> e.due <= f.due
  }

  /** Half-way through `fire_due`: `fired` was popped alive from a service that stood for `before`,
      `m` and `live` are left. */
  ghost predicate Underway<E(!new)>(before: T.Timers<E>, now: int, m: multiset<Entry<E>>, live: set<nat>, fired: seq<Entry<E>>) {
    && StillThere(before, m, live)
    && (forall i :: 0 <= i < |fired| ==> Taken(before, now, live, fired[i]) && NotAfter(fired[i], m))
    && InOrder(fired)
    && (forall k :: k in before.live ==> k in live || k in Ids(fired))
  }

  ghost predicate IsEarliest<E(!new)>(m: multiset<Entry<E>>, top: Entry<E>) {
    top in m && NotAfter(top, m)
  }

  lemma PopOne<E(!new)>(before: T.Timers<E>, m: multiset<Entry<E>>, live: set<nat>, top: Entry<E>)
    requires StillThere(before, m, live)
    ensures StillThere(before, m - multiset{top}, live - {top.id})
    ensures top.id !in live ==> StillThere(before, m - multiset{top}, live)
    ensures forall e: Entry<E> :: NotAfter(e, m) ==> NotAfter(e, m - multiset{top})
  {
    forall e: Entry<E> | NotAfter(e, m) ensures NotAfter(e, m - multiset{top}) {
      assert forall f :: f in m - multiset{top} ==> f in m;
    }
  }

  lemma TopMatches<E(!new)>(before: T.Timers<E>, m: multiset<Entry<E>>, live: set<nat>, next: nat, top: Entry<E>)
    requires StillThere(before, m, live) && Distinct(m, next) && top in m && top.id in live
    ensures Matches(before, top)
  {
    assert Entry(before.live[top.id].due, top.id, before.live[top.id].envelope) in m;
  }

  lemma PopLive<E(!new)>(before: T.Timers<E>, now: int, m: multiset<Entry<E>>, live: set<nat>, fired: seq<Entry<E>>, top: Entry<E>)
    requires Underway(before, now, m, live, fired) && Distinct(m, before.next) && IsEarliest(m, top)
    requires top.due <= now && top.id in live
    ensures Underway(before, now, m - multiset{top}, live - {top.id}, fired + [top])
  {
    PopOne(before, m, live, top);
    TopMatches(before, m, live, before.next, top);
    IdsAppend(fired, top);
    var fired' := fired + [top];
    forall i | 0 <= i < |fired'|
      ensures Taken(before, now, live - {top.id}, fired'[i]) && NotAfter(fired'[i], m - multiset{top})
    {
      if i < |fired| {
        assert fired'[i] == fired[i];
      }
    }
    forall i, j | 0 <= i < j < |fired'| ensures fired'[i].id != fired'[j].id && fired'[i].due <= fired'[j].due {
      assert Taken(before, now, live, fired[i]) && NotAfter(fired[i], m);
    }
  }

  lemma PopTombstone<E(!new)>(before: T.Timers<E>, now: int, m: multiset<Entry<E>>, live: set<nat>, fired: seq<Entry<E>>, top: Entry<E>)
    requires Underway(before, now, m, live, fired) && top.id !in live
    ensures Underway(before, now, m - multiset{top}, live, fired)
  {
    PopOne(before, m, live, top);
  }

  lemma DistinctLess<E(!new)>(m: multiset<Entry<E>>, next: nat, top: Entry<E>)
    requires Distinct(m, next)
    ensures Distinct(m - multiset{top}, next)
  {
    assert forall f :: f in m - multiset{top} ==> f in m && (m - multiset{top})[f] == 1;
  }

  lemma {:induction false} IdsAppend<E>(fired: seq<Entry<E>>, e: Entry<E>)
    ensures Ids(fired + [e]) == Ids(fired) + [e.id]
  {
  }

  lemma LiveIsLater<E(!new)>(before: T.Timers<E>, now: int, m: multiset<Entry<E>>, live: set<nat>)
    requires StillThere(before, m, live) && forall e :: e in m ==> e.due > now
    ensures forall k :: k in live ==> k in before.live && before.live[k].due > now
  {
    forall k | k in live ensures k in before.live && before.live[k].due > now {
      assert Entry(before.live[k].due, k, before.live[k].envelope).due > now;
    }
  }

  /** When everything left is later than `now`, the popped entries are the batch of the specification. */
  lemma FiringEnds<E(!new)>(before: T.Timers<E>, now: int, m: multiset<Entry<E>>, live: set<nat>, fired: seq<Entry<E>>)
    requires Underway(before, now, m, live, fired)
    requires forall e :: e in m ==> e.due > now
    ensures T.IsBatch(before, now, Ids(fired))
    ensures Represents(m, live, T.AfterFire(before, now))
    ensures forall i :: 0 <= i < |fired| ==> Matches(before, fired[i])
  {
    LiveIsLater(before, now, m, live);
    assert forall i :: 0 <= i < |fired| ==> Taken(before, now, live, fired[i]);
    FiredIsDue(before, now, live, fired);
    assert T.AfterFire(before, now).live.Keys == live;
  }

  lemma FiredIsDue<E(!new)>(before: T.Timers<E>, now: int, live: set<nat>, fired: seq<Entry<E>>)
    requires forall k :: k in live ==> k in before.live && before.live[k].due > now
    requires forall i :: 0 <= i < |fired| ==> Taken(before, now, live, fired[i])
    requires InOrder(fired)
    requires forall k :: k in before.live ==> k in live || k in Ids(fired)
    ensures T.IsBatch(before, now, Ids(fired))
    ensures forall k :: k in before.live ==> (k in live <==> k !in T.DueBy(before, now))
  {
    var ids := Ids(fired);
    forall k | k in ids ensures k in before.live && before.live[k].due <= now && k !in live {
      var i :| 0 <= i < |ids| && ids[i] == k;
      assert Taken(before, now, live, fired[i]);
    }
    forall i, j | 0 <= i < j < |ids|
      ensures ids[i] != ids[j] && ids[i] in before.live && ids[j] in before.live
           && before.live[ids[i]].due <= before.live[ids[j]].due
    {
      assert Taken(before, now, live, fired[i]) && Taken(before, now, live, fired[j]);
    }
  }

  lemma FiredEnvelopes<E(!new)>(before: T.Timers<E>, fired: seq<Entry<E>>)
    requires forall i :: 0 <= i < |fired| ==> Matches(before, fired[i])
    ensures forall k :: k in Ids(fired) ==> k in before.live
    ensures forall i :: 0 <= i < |fired| ==> T.Envelopes(before, Ids(fired))[i] == fired[i].envelope
  {
    assert forall i :: 0 <= i < |fired| ==> Ids(fired)[i] == fired[i].id;
  }

  lemma Appending<E>(h: seq<Entry<E>>, e: Entry<E>)
    ensures (h + [e])[..|h|] == h && multiset(h + [e]) == multiset(h) + multiset{e}
  {
  }

  lemma SetsOut<E(!new)>(before: T.Timers<E>, now: int, m: multiset<Entry<E>>, live: set<nat>)
    requires Represents(m, live, before)
    ensures Underway(before, now, m, live, [])
  {
  }

  ghost predicate AllMatch<E(!new)>(before: T.Timers<E>, fired: seq<Entry<E>>) {
    forall i :: 0 <= i < |fired| ==> Matches(before, fired[i])
  }

  /** The loop has stopped at a root that is later than `now`, or at an empty heap. */
  lemma CollectingEnds<E(!new)>(before: T.Timers<E>, now: int, h: seq<Entry<E>>, live: set<nat>, fired: seq<Entry<E>>)
    requires HeapOrdered(h) && (h == [] || h[0].due > now) && Underway(before, now, multiset(h), live, fired)
    ensures Represents(multiset(h), live, T.AfterFire(before, now))
    ensures T.IsBatch(before, now, Ids(fired)) && AllMatch(before, fired)
    ensures forall i :: 0 <= i < |h| ==> h[i].due > now
  {
    AllLater(h, now);
    FiringEnds(before, now, multiset(h), live, fired);
  }

  class TimerService<E(!new)> {
    const clock: Clock
    var buffer: array<Entry<E>>
    var size: nat
    var live: set<nat>
    var next: nat
    var sink: PostSink?<E>
    ghost var timers: T.Timers<E>

    ghost function Heap(): seq<Entry<E>>
      reads this, buffer
      requires size <= buffer.Length
    {
      buffer[..size]
    }

    ghost predicate Valid()
      reads this, buffer
    {
      && 1 <= next == timers.next
      && size <= buffer.Length
      && HeapOrdered(Heap())
      && Distinct(multiset(Heap()), next)
      && Represents(multiset(Heap()), live, timers)
    }

    constructor (clock: Clock)
      ensures Valid() && fresh(buffer) && this.clock == clock && sink == null
      ensures timers == T.Timers(map[], 1)
    {
      this.clock := clock;
      buffer, size, live, next, sink := new Entry<E>[0], 0, {}, 1, null;
      timers := T.Timers(map[], 1);
    }

    method BindPost(s: PostSink<E>)
      requires Valid()
      modifies this`sink
      ensures Valid() && sink == s
    {
      sink := s;
    }

    /** Appends to the vector, which grows when it is full. */
    method PushBack(e: Entry<E>)
      requires size <= buffer.Length
      modifies this`buffer, this`size, buffer
      ensures size == old(size) + 1 <= buffer.Length && Heap() == old(Heap()) + [e]
      ensures buffer == old(buffer) || fresh(buffer)
    {
      if size == buffer.Length {
        var bigger := new Entry<E>[2 * size + 1](_ => e);
        var i := 0;
        while i < size
          invariant i <= size && bigger[..i] == buffer[..i]
          modifies bigger
        {
          bigger[i] := buffer[i];
          i := i + 1;
        }
        buffer := bigger;
      }
      buffer[size] := e;
      size := size + 1;
      assert buffer[..size] == buffer[..size - 1] + [e];
    }

    method PushEntry(e: Entry<E>)
      requires size <= buffer.Length && HeapOrdered(Heap())
      modifies this`buffer, this`size, buffer
      ensures size <= buffer.Length && HeapOrdered(Heap())
      ensures multiset(Heap()) == multiset(old(Heap())) + multiset{e}
      ensures buffer == old(buffer) || fresh(buffer)
    {
      ghost var h := Heap();
      PushBack(e);
      Appending(h, e);
      assert buffer[..size - 1] == Heap()[..size - 1];
      PushHeap(buffer, size);
    }

    /** Hands out the sequence number of the entry just pushed. */
    method Admit(delay: int, envelope: E, ghost m: multiset<Entry<E>>) returns (k: nat)
      requires size <= buffer.Length && HeapOrdered(Heap()) && 1 <= next == timers.next
      requires Distinct(m, next) && Represents(m, live, timers)
      requires multiset(Heap()) == m + multiset{Entry(clock.now + delay, next, envelope)}
      modifies this`live, this`next, this`timers
      ensures Valid() && k == old(next) && timers == T.Arm(old(timers), clock.now, delay, envelope)
    {
      ArmRepresents(m, live, timers, clock.now, delay, envelope);
      k := next;
      timers := T.Arm(timers, clock.now, delay, envelope);
      next := next + 1;
      live := live + {k};
    }

    /** Returns the sequence number that the `Timer` handle carries. */
    method Arm(delay: int, envelope: E) returns (k: nat)
      requires Valid() && delay >= 0
      modifies this`buffer, this`size, this`live, this`next, this`timers, buffer
      ensures Valid() && (buffer == old(buffer) || fresh(buffer))
      ensures k == old(next) && timers == T.Arm(old(timers), clock.now, delay, envelope)
    {
      ghost var m := multiset(Heap());
      PushEntry(Entry(clock.now + delay, next, envelope));
      k := Admit(delay, envelope, m);
    }

    /** Lazy: the entry stays in the heap. A second cancel, or one after firing, does nothing. */
    method CancelBySeq(k: nat)
      requires Valid()
      modifies this`live, this`timers
      ensures Valid() && timers == T.Cancel(old(timers), k)
    {
      live := live - {k};
      timers := T.Cancel(timers, k);
    }

    method Clear()
      requires Valid()
      modifies this`size, this`live, this`sink, this`timers
      ensures Valid() && timers == T.Clear(old(timers)) && sink == null && size == 0
    {
      size, live, sink := 0, {}, null;
      timers := T.Clear(timers);
      assert Heap() == [];
    }

    method ArmedCount() returns (n: nat)
      requires Valid()
      ensures n == |timers.live|
    {
      n := |live|;
      assert |timers.live| == |timers.live.Keys|;
    }

    /** Pops the root of the heap off the vector. */
    method PopRoot() returns (top: Entry<E>)
      requires 0 < size <= buffer.Length && HeapOrdered(Heap())
      modifies this`size, buffer
      ensures size == old(size) - 1 && HeapOrdered(Heap())
      ensures top == old(Heap())[0] && multiset(Heap()) == multiset(old(Heap())) - multiset{top}
    {
      ghost var h := Heap();
      PopHeap(buffer, size);
      assert buffer[..size] == buffer[..size - 1] + [buffer[size - 1]];
      size := size - 1;
      top := buffer[size];
    }

    /** One round of the loop of `fire_due`. */
    method CollectOne(ghost before: T.Timers<E>, fired: seq<Entry<E>>) returns (fired': seq<Entry<E>>)
      requires 0 < size <= buffer.Length && HeapOrdered(Heap()) && Distinct(multiset(Heap()), before.next)
      requires Underway(before, clock.now, multiset(Heap()), live, fired) && buffer[0].due <= clock.now
      modifies this`size, this`live, buffer
      ensures size == old(size) - 1 && HeapOrdered(Heap()) && Distinct(multiset(Heap()), before.next)
      ensures Underway(before, clock.now, multiset(Heap()), live, fired')
    {
      ghost var m := multiset(Heap());
      RootFirst(Heap());
      var top := PopRoot();
      DistinctLess(m, before.next, top);
      if top.id in live {
        PopLive(before, clock.now, m, live, fired, top);
        live := live - {top.id};
        fired' := fired + [top];
      } else {
        PopTombstone(before, clock.now, m, live, fired, top);
        fired' := fired;
      }
    }

    /** The loop of `fire_due`, with its result in terms of the map that heap and live set stand for. */
    method CollectAll(ghost before: T.Timers<E>) returns (fired: seq<Entry<E>>)
      requires size <= buffer.Length && HeapOrdered(Heap()) && Distinct(multiset(Heap()), before.next)
      requires Represents(multiset(Heap()), live, before)
      modifies this`size, this`live, buffer
      ensures size <= buffer.Length && HeapOrdered(Heap()) && Distinct(multiset(Heap()), before.next)
      ensures Represents(multiset(Heap()), live, T.AfterFire(before, clock.now))
      ensures T.IsBatch(before, clock.now, Ids(fired)) && AllMatch(before, fired)
      ensures forall i :: 0 <= i < size ==> Heap()[i].due > clock.now
    {
      fired := [];
      SetsOut(before, clock.now, multiset(Heap()), live);
      while size > 0 && buffer[0].due <= clock.now
        invariant size <= buffer.Length && HeapOrdered(Heap()) && Distinct(multiset(Heap()), before.next)
        invariant Underway(before, clock.now, multiset(Heap()), live, fired)
        decreases size
      {
        fired := CollectOne(before, fired);
      }
      CollectingEnds(before, clock.now, Heap(), live, fired);
    }

    /** The critical section of `fire_due`: every due entry leaves the heap, the cancelled ones dropped. */
    method Collect() returns (fired: seq<Entry<E>>)
      requires Valid()
      modifies this`size, this`live, this`timers, buffer
      ensures Valid() && timers == T.AfterFire(old(timers), clock.now)
      ensures T.IsBatch(old(timers), clock.now, Ids(fired)) && AllMatch(old(timers), fired)
      ensures forall i :: 0 <= i < size ==> Heap()[i].due > clock.now
    {
      fired := CollectAll(timers);
      timers := T.AfterFire(timers, clock.now);
    }

    /** Posts the envelopes of the fired entries, in order. */
    method PostAll(s: PostSink<E>, fired: seq<Entry<E>>, ghost envelopes: seq<E>)
      requires |envelopes| == |fired| && forall i :: 0 <= i < |fired| ==> envelopes[i] == fired[i].envelope
      modifies s
      ensures s.stopped == old(s.stopped) && s.queue == if s.stopped then old(s.queue) else old(s.queue) + envelopes
    {
      var i := 0;
      while i < |fired|
        invariant i <= |fired| && s.stopped == old(s.stopped)
        invariant s.queue == if s.stopped then old(s.queue) else old(s.queue) + envelopes[..i]
      {
        s.Post(fired[i].envelope);
        assert envelopes[..i + 1] == envelopes[..i] + [envelopes[i]];
        i := i + 1;
      }
      assert envelopes[..i] == envelopes;
    }

    /** Collects under the lock, then posts one by one. An unbound sink is a fault, unless nothing fires. */
    method FireDue() returns (ghost batch: seq<nat>)
      requires Valid() && (sink != null || T.DueBy(timers, clock.now) == {})
      modifies this`size, this`live, this`timers, buffer, sink
      ensures Valid() && T.IsBatch(old(timers), clock.now, batch)
      ensures timers == T.AfterFire(old(timers), clock.now)
      ensures sink != null ==> sink.stopped == old(sink.stopped)
      ensures sink != null ==>
        sink.queue == if sink.stopped then old(sink.queue) else old(sink.queue) + T.Envelopes(old(timers), batch)
      ensures forall i :: 0 <= i < size ==> Heap()[i].due > clock.now
    {
      ghost var before := timers;
      var fired := Collect();
      batch := Ids(fired);
      FiredEnvelopes(before, fired);
      if fired != [] {
        assert batch[0] in batch;
        PostAll(sink, fired, T.Envelopes(before, batch));
      } else {
        assert T.Envelopes(before, batch) == [];
      }
    }

    /** The minimum over the live entries of the first `i`. */
    ghost predicate Earliest(i: nat, r: Option<int>)
      reads this, buffer
      requires i <= size <= buffer.Length
    {
      match r
      case None => forall j :: 0 <= j < i ==> buffer[j].id !in live
      case Some(due) =>
        && (exists j :: 0 <= j < i && buffer[j].id in live && buffer[j].due == due)
        && (forall j :: 0 <= j < i && buffer[j].id in live ==> due <= buffer[j].due)
    }

    /** A linear scan, because the root may have been cancelled. */
    method ScanLive() returns (r: Option<int>)
      requires size <= buffer.Length
      ensures Earliest(size, r)
    {
      r := None;
      var i := 0;
      while i < size
        invariant i <= size && Earliest(i, r)
      {
        if buffer[i].id in live && (r == None || buffer[i].due < r.value) {
          r := Some(buffer[i].due);
        }
        i := i + 1;
      }
    }

    method NextDueAt() returns (r: Option<int>)
      requires Valid()
      ensures r == None <==> timers.live == map[]
      ensures r.Some? ==> exists k :: k in timers.live && timers.live[k].due == r.value
      ensures r.Some? ==> forall k :: k in timers.live ==> r.value <= timers.live[k].due
    {
      r := ScanLive();
      forall k | k in live ensures exists j :: 0 <= j < size && buffer[j].id == k && buffer[j].due == timers.live[k].due {
        LiveEntry(Heap(), live, timers, k);
      }
      if r.Some? {
        ghost var j :| 0 <= j < size && buffer[j].id in live && buffer[j].due == r.value;
        EntryMatches(multiset(Heap()), live, timers, next, Heap()[j]);
      }
    }
  }

  lemma LiveEntry<E(!new)>(h: seq<Entry<E>>, live: set<nat>, t: T.Timers<E>, k: nat)
    requires Represents(multiset(h), live, t) && k in live
    ensures exists j :: 0 <= j < |h| && h[j].id == k && h[j].due == t.live[k].due
  {
    var e := Entry(t.live[k].due, k, t.live[k].envelope);
    assert e in h;
  }

  lemma RootFirst<E(!new)>(h: seq<Entry<E>>)
    requires h != [] && HeapOrdered(h)
    ensures IsEarliest(multiset(h), h[0])
  {
    forall e | e in multiset(h) ensures h[0].due <= e.due {
      var k :| 0 <= k < |h| && h[k] == e;
      RootIsEarliest(h, k);
    }
  }

  lemma AllLater<E(!new)>(h: seq<Entry<E>>, now: int)
    requires HeapOrdered(h) && (h == [] || h[0].due > now)
    ensures forall e :: e in multiset(h) ==> e.due > now
    ensures forall i :: 0 <= i < |h| ==> h[i].due > now
  {
    if h != [] {
      RootFirst(h);
      assert forall i :: 0 <= i < |h| ==> h[i] in multiset(h);
    }
  }

  lemma EntryMatches<E(!new)>(m: multiset<Entry<E>>, live: set<nat>, t: T.Timers<E>, next: nat, e: Entry<E>)
    requires Distinct(m, next) && Represents(m, live, t) && e in m && e.id in live
    ensures t.live[e.id] == T.Armed(e.due, e.envelope)
  {
    assert Entry(t.live[e.id].due, e.id, t.live[e.id].envelope) in m;
  }

  /** `Runtime::compute_wait_budget`: how long the loop may sleep. At any later moment something is due
      exactly if that time has passed; without live timers nothing ever is. */
  method ComputeWaitBudget<E(!new)>(service: TimerService<E>) returns (budget: Option<int>)
    requires service.Valid()
    ensures budget == None <==> service.timers.live == map[]
    ensures budget == None ==> forall t :: T.DueBy(service.timers, t) == {}
    ensures budget.Some? ==> budget.value >= 0
    ensures budget.Some? ==> forall t :: t >= service.clock.now ==>
      (T.DueBy(service.timers, t) != {} <==> t >= service.clock.now + budget.value)
  {
    var earliest := service.NextDueAt();
    match earliest
    case None =>
      budget := None;
    case Some(due) =>
      var remaining := due - service.clock.now;
      budget := Some(if remaining <= 0 then 0 else remaining);
      ghost var k :| k in service.timers.live && service.timers.live[k].due == due;
      assert forall t :: t >= due ==> k in T.DueBy(service.timers, t);
  }

  /** `ManualClock::advance`: the installed handler fires synchronously, at the new time. */
  method Advance<E(!new)>(clock: Clock, handler: TimerService?<E>, delta: int) returns (ghost batch: seq<nat>)
    requires delta >= 0
    requires handler != null ==>
      handler.Valid() && handler.clock == clock
      && (handler.sink != null || T.DueBy(handler.timers, clock.now + delta) == {})
    modifies clock, handler, if handler != null then {handler.buffer} else {}, if handler != null then {handler.sink} else {}
    ensures clock.now == old(clock.now) + delta
    ensures handler != null ==>
      && handler.Valid() && T.IsBatch(old(handler.timers), clock.now, batch)
      && handler.timers == T.AfterFire(old(handler.timers), clock.now)
      && (forall k :: k in handler.timers.live ==> handler.timers.live[k].due > clock.now)
      && (old(handler.sink) != null ==>
            handler.sink == old(handler.sink) && handler.sink.stopped == old(handler.sink.stopped)
            && handler.sink.queue ==
                 if handler.sink.stopped then old(handler.sink.queue)
                 else old(handler.sink.queue) + T.Envelopes(old(handler.timers), batch))
  {
    clock.now := clock.now + delta;
    batch := [];
    if handler != null {
      batch := handler.FireDue();
    }
  }
}
