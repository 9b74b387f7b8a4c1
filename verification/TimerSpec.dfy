/** What the timer service means to its clients: a finite map from sequence numbers to armed
    envelopes. The heap and its tombstones (TimerHeap.dfy) refine this view. */
module TimerSpec {
  datatype Armed<+E> = Armed(due: int, envelope: E)

  /** `live` holds the timers that are neither fired nor cancelled; `next` is the next sequence number. */
  datatype Timers<+E> = Timers(live: map<nat, Armed<E>>, next: nat)

  function Arm<E>(t: Timers<E>, now: int, delay: int, e: E): Timers<E> {
    Timers(t.live[t.next := Armed(now + delay, e)], t.next + 1)
  }

  function Cancel<E>(t: Timers<E>, k: nat): Timers<E> {
    t.(live := t.live - {k})
  }

  function DueBy<E>(t: Timers<E>, now: int): set<nat> {
    set k | k in t.live && t.live[k].due <= now
  }

  function AfterFire<E>(t: Timers<E>, now: int): Timers<E> {
    t.(live := t.live - DueBy(t, now))
  }

  function Clear<E>(t: Timers<E>): Timers<E> {
    t.(live := map[])
  }

  /** `batch` lists every due timer once, earliest first. Timers with equal due times come in any order. */
  ghost predicate IsBatch<E>(t: Timers<E>, now: int, batch: seq<nat>) {
    && (forall k :: k in batch <==> k in DueBy(t, now))
    && (forall i, j :: 0 <= i < j < |batch| ==> batch[i] != batch[j])
    && (forall i, j :: 0 <= i < j < |batch| ==>
          batch[i] in t.live && batch[j] in t.live && t.live[batch[i]].due <= t.live[batch[j]].due)
  }

  /** The envelopes of a batch, in firing order. */
  function Envelopes<E>(t: Timers<E>, batch: seq<nat>): (es: seq<E>)
    requires forall k :: k in batch ==> k in t.live
    ensures |es| == |batch|
    ensures forall i :: 0 <= i < |es| ==> es[i] == t.live[batch[i]].envelope
  {
    if batch == [] then [] else [t.live[batch[0]].envelope] + Envelopes(t, batch[1..])
  }
}
