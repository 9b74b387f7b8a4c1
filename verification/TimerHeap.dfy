/** The binary min-heap behind the timer service: `std::push_heap` and `std::pop_heap` on an array. */
module TimerHeap {
  datatype Entry<+E> = Entry(due: int, id: nat, envelope: E)

  function Parent(k: nat): nat
    requires k > 0
  {
    (k - 1) / 2
  }

  /** Entry `k` is not earlier than its parent. */
  predicate Below<E>(s: seq<Entry<E>>, k: nat)
    requires 0 < k < |s|
  {
    s[Parent(k)].due <= s[k].due
  }

  ghost predicate HeapOrdered<E>(s: seq<Entry<E>>) {
    forall k :: 0 < k < |s| ==> Below(s, k)
  }

  /** The root of a heap is its earliest entry. */
  lemma {:induction false} RootIsEarliest<E>(s: seq<Entry<E>>, k: nat)
    requires HeapOrdered(s) && k < |s|
    ensures s[0].due <= s[k].due
  {
    if k > 0 {
      assert Below(s, k);
      RootIsEarliest(s, Parent(k));
    }
  }

  // ---- One step of a sift ---------------------------------------------------------------------

  function Exchanged<E>(s: seq<E>, i: nat, j: nat): seq<E>
    requires i < |s| && j < |s|
  {
    s[i := s[j]][j := s[i]]
  }

  /** A heap but for entry `i`, which may be earlier than its parent. */
  ghost predicate Climbing<E>(s: seq<Entry<E>>, i: nat) {
    && (forall k :: 0 < k < |s| && k != i ==> Below(s, k))
    && (forall k :: 0 < k < |s| && 0 < i < |s| && Parent(k) == i ==> s[Parent(i)].due <= s[k].due)
  }

  /** A heap but for entry `i`, which may be later than its children. */
  ghost predicate Sinking<E>(s: seq<Entry<E>>, i: nat) {
    && (forall k :: 0 < k < |s| && Parent(k) != i ==> Below(s, k))
    && (forall k :: 0 < k < |s| && 0 < i < |s| && Parent(k) == i ==> s[Parent(i)].due <= s[k].due)
  }

  lemma Climb<E>(s: seq<Entry<E>>, i: nat)
    requires 0 < i < |s| && Climbing(s, i) && s[Parent(i)].due > s[i].due
    ensures Climbing(Exchanged(s, Parent(i), i), Parent(i))
  {
    var t := Exchanged(s, Parent(i), i);
    forall k | 0 < k < |t| && k != Parent(i) ensures Below(t, k) {
      if k != i { assert Below(s, k); }
    }
    forall k | 0 < k < |t| && 0 < Parent(i) && Parent(k) == Parent(i)
      ensures t[Parent(Parent(i))].due <= t[k].due
    {
      assert Below(s, Parent(i));
      if k != i { assert Below(s, k); }
    }
  }

  ghost predicate EarliestChild<E>(s: seq<Entry<E>>, i: nat, c: nat) {
    && 0 < c < |s| && Parent(c) == i
    && (forall k :: 0 < k < |s| && Parent(k) == i ==> s[c].due <= s[k].due)
  }

  lemma Children<E>(s: seq<Entry<E>>, i: nat)
    requires 2 * i + 1 < |s|
    ensures EarliestChild(s, i, if 2 * i + 2 < |s| && s[2 * i + 2].due < s[2 * i + 1].due then 2 * i + 2 else 2 * i + 1)
  {
    assert forall k :: 0 < k < |s| && Parent(k) == i ==> k == 2 * i + 1 || k == 2 * i + 2;
  }

  /** The sift-down ends below no later entry, or at a leaf. */
  lemma SinkEnds<E>(s: seq<Entry<E>>, i: nat)
    requires Sinking(s, i)
    requires 2 * i + 1 >= |s| || exists c: nat :: EarliestChild(s, i, c) && s[i].due <= s[c].due
    ensures HeapOrdered(s)
  {
    forall k | 0 < k < |s| ensures Below(s, k) {
      if Parent(k) == i {
        assert k >= 2 * i + 1;
      }
    }
  }

  lemma Sink<E>(s: seq<Entry<E>>, i: nat, c: nat)
    requires EarliestChild(s, i, c) && Sinking(s, i) && s[i].due > s[c].due
    ensures Sinking(Exchanged(s, i, c), c)
  {
    var t := Exchanged(s, i, c);
    forall k | 0 < k < |t| && Parent(k) != c ensures Below(t, k) {
      if Parent(k) != i { assert Below(s, k); }
    }
    forall k | 0 < k < |t| && Parent(k) == c ensures t[Parent(c)].due <= t[k].due {
      assert Below(s, k);
    }
  }

  // ---- The two operations ---------------------------------------------------------------------

  method Swap<E>(a: array<Entry<E>>, n: nat, i: nat, j: nat)
    requires i < n <= a.Length && j < n
    modifies a
    ensures a[..n] == Exchanged(old(a[..n]), i, j)
    ensures multiset(a[..n]) == multiset(old(a[..n]))
    ensures a[n..] == old(a[n..])
  {
    a[i], a[j] := a[j], a[i];
    assert a[..n] == Exchanged(old(a[..n]), i, j);
  }

  /** `std::push_heap` on `[0, n)`: the last entry climbs to its place. */
  method PushHeap<E>(a: array<Entry<E>>, n: nat)
    requires 0 < n <= a.Length && HeapOrdered(a[..n - 1])
    modifies a
    ensures HeapOrdered(a[..n]) && multiset(a[..n]) == multiset(old(a[..n]))
    ensures a[n..] == old(a[n..])
  {
    var i := n - 1;
    assert a[..n][..n - 1] == a[..n - 1];
    LastClimbs(a[..n]);
    while i > 0 && a[(i - 1) / 2].due > a[i].due
      invariant 0 <= i < n && Climbing(a[..n], i)
      invariant multiset(a[..n]) == multiset(old(a[..n])) && a[n..] == old(a[n..])
    {
      Climb(a[..n], i);
      Swap(a, n, (i - 1) / 2, i);
      i := (i - 1) / 2;
    }
    assert i > 0 ==> Below(a[..n], i);
  }

  lemma LastClimbs<E>(s: seq<Entry<E>>)
    requires s != [] && HeapOrdered(s[..|s| - 1])
    ensures Climbing(s, |s| - 1)
  {
    forall k | 0 < k < |s| - 1 ensures Below(s, k) {
      assert Below(s[..|s| - 1], k);
    }
  }

  /** The root goes to the back, and what was there is now too late for the root. */
  method RootToBack<E>(a: array<Entry<E>>, n: nat)
    requires 0 < n <= a.Length && HeapOrdered(a[..n])
    modifies a
    ensures Sinking(a[..n - 1], 0) && a[n - 1] == old(a[0])
    ensures multiset(a[..n]) == multiset(old(a[..n])) && a[n..] == old(a[n..])
  {
    ghost var s := a[..n];
    RootSinks(s);
    Swap(a, n, 0, n - 1);
    Cut(a[..], n);
  }

  lemma Cut<E>(s: seq<E>, n: nat)
    requires 0 < n <= |s|
    ensures s[..n - 1] == s[..n][..n - 1] && s[n - 1] == s[..n][n - 1]
  {
  }

  /** `std::pop_heap` on `[0, n)`: the root goes to the back, the old last entry sinks to its place. */
  method PopHeap<E>(a: array<Entry<E>>, n: nat)
    requires 0 < n <= a.Length && HeapOrdered(a[..n])
    modifies a
    ensures HeapOrdered(a[..n - 1]) && a[n - 1] == old(a[0])
    ensures multiset(a[..n]) == multiset(old(a[..n]))
    ensures a[n..] == old(a[n..])
  {
    RootToBack(a, n);
    ghost var s := a[..];
    SinkRoot(a, n - 1);
    assert s[..n] == s[..][..n] && a[..][..n] == a[..n] && a[..][n..] == a[n..];
    assert a[..][..n - 1] == a[..n - 1] && a[..][n - 1..] == a[n - 1..];
    Glue(s, a[..], n);
  }

  /** A change of the first `n - 1` elements only. */
  lemma Glue<E>(s: seq<Entry<E>>, t: seq<Entry<E>>, n: nat)
    requires 0 < n <= |s| == |t| && s[n - 1..] == t[n - 1..] && multiset(s[..n - 1]) == multiset(t[..n - 1])
    ensures multiset(s[..n]) == multiset(t[..n]) && s[n..] == t[n..] && s[n - 1] == t[n - 1]
  {
    assert s[..n] == s[..n - 1] + [s[n - 1]] && t[..n] == t[..n - 1] + [t[n - 1]];
    assert s[n - 1..][0] == t[n - 1..][0];
    assert s[n..] == s[n - 1..][1..] && t[n..] == t[n - 1..][1..];
  }

  lemma RootSinks<E>(s: seq<Entry<E>>)
    requires s != [] && HeapOrdered(s)
    ensures Sinking(Exchanged(s, 0, |s| - 1)[..|s| - 1], 0) && Exchanged(s, 0, |s| - 1)[|s| - 1] == s[0]
  {
    var t := Exchanged(s, 0, |s| - 1)[..|s| - 1];
    forall k | 0 < k < |t| && Parent(k) != 0 ensures Below(t, k) {
      assert Below(s, k);
    }
  }

  method SinkRoot<E>(a: array<Entry<E>>, m: nat)
    requires m <= a.Length && Sinking(a[..m], 0)
    modifies a
    ensures HeapOrdered(a[..m]) && multiset(a[..m]) == multiset(old(a[..m]))
    ensures a[m..] == old(a[m..])
  {
    var i := 0;
    while 2 * i + 1 < m
      invariant 0 <= i && Sinking(a[..m], i)
      invariant multiset(a[..m]) == multiset(old(a[..m])) && a[m..] == old(a[m..])
      decreases m - i
    {
      var c := if 2 * i + 2 < m && a[2 * i + 2].due < a[2 * i + 1].due then 2 * i + 2 else 2 * i + 1;
      Children(a[..m], i);
      if a[i].due <= a[c].due {
        break;
      }
      Sink(a[..m], i, c);
      Swap(a, m, i, c);
      i := c;
    }
    SinkEnds(a[..m], i);
  }
}
