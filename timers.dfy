/**
 * One-shot `setTimeout` callbacks on a discrete millisecond clock.
 *
 * Every timer the components schedule is set `Delay` milliseconds after the
 * moment it is scheduled, and none is ever cancelled, so the pending timers
 * form a queue ordered by deadline. A timer is due at time `t` when its
 * deadline is at most `t`; due timers fire in deadline order.
 */
module Timers {

  /** The delay, in milliseconds, passed to every `setTimeout` in the components. */
  const Delay: nat := 2000

  /** A pending callback: when it fires and which piece of state it resets. */
  datatype Timer<T> = Timer(deadline: nat, tag: T)

  /** The queue is in firing order. */
  predicate Ordered<T>(q: seq<Timer<T>>) {
    forall i, j :: 0 <= i < j < |q| ==> q[i].deadline <= q[j].deadline
  }

  /** Every pending deadline is in the future, and at most `Delay` ahead of `now`. */
  predicate Window<T>(q: seq<Timer<T>>, now: nat) {
    forall i :: 0 <= i < |q| ==> now < q[i].deadline <= now + Delay
  }

  /** Some pending timer resets `tag`. */
  predicate Tagged<T(==)>(q: seq<Timer<T>>, tag: T) {
    exists i :: 0 <= i < |q| && q[i].tag == tag
  }

  /** The number of timers at the head of the queue that are due at time `t`. */
  function DueCount<T>(q: seq<Timer<T>>, t: nat): (k: nat)
    ensures k <= |q|
    ensures forall i :: 0 <= i < k ==> q[i].deadline <= t
    ensures k < |q| ==> t < q[k].deadline
  {
    if q == [] || t < q[0].deadline then 0 else 1 + DueCount(q[1..], t)
  }

  /** In an ordered queue the due timers are exactly those with a deadline at most `t`. */
  lemma {:induction false} DueCountExact<T>(q: seq<Timer<T>>, t: nat)
    requires Ordered(q)
    ensures forall i :: 0 <= i < |q| ==> (i < DueCount(q, t) <==> q[i].deadline <= t)
  {
    var k := DueCount(q, t);
    forall i | 0 <= i < |q| && k <= i
      ensures t < q[i].deadline
    {
      assert q[k].deadline <= q[i].deadline;
    }
  }

  /** A loop that has fired the first `i` timers, each of them due, and stopped before
      a timer in the future (or at the end), has fired exactly the due ones. */
  lemma {:induction false} DueCountStop<T>(q: seq<Timer<T>>, t: nat, i: nat)
    requires i <= |q|
    requires forall j :: 0 <= j < i ==> q[j].deadline <= t
    requires i < |q| ==> t < q[i].deadline
    ensures DueCount(q, t) == i
  {
    if 0 < i {
      DueCountStop(q[1..], t, i - 1);
    }
  }

  /** Scheduling a timer `Delay` ahead keeps the queue ordered and inside the window. */
  lemma Schedule<T>(q: seq<Timer<T>>, now: nat, tag: T)
    requires Ordered(q) && Window(q, now)
    ensures Ordered(q + [Timer(now + Delay, tag)]) && Window(q + [Timer(now + Delay, tag)], now)
  {
  }

  /** Firing the due timers and moving the clock to `t` keeps the rest ordered and inside the window. */
  lemma Advance<T>(q: seq<Timer<T>>, now: nat, t: nat)
    requires Ordered(q) && Window(q, now) && now <= t
    ensures Ordered(q[DueCount(q, t)..]) && Window(q[DueCount(q, t)..], t)
  {
    DueCountExact(q, t);
  }

  /** `Delay` milliseconds after `now`, every pending timer has come due. */
  lemma AllDueAfterDelay<T>(q: seq<Timer<T>>, now: nat, t: nat)
    requires Window(q, now) && now + Delay <= t
    ensures DueCount(q, t) == |q|
  {
    DueCountStop(q, t, |q|);
  }

  /** What a loop that fires timers from the head of the queue, while they are due,
      leaves behind when it stops after `k` of them. */
  lemma FiredPrefix<T>(q: seq<Timer<T>>, now: nat, t: nat, k: nat)
    requires Ordered(q) && Window(q, now) && now <= t
    requires k <= |q| && forall j :: 0 <= j < k ==> q[j].deadline <= t
    requires k < |q| ==> t < q[k].deadline
    ensures DueCount(q, t) == k
    ensures Ordered(q[k..]) && Window(q[k..], t)
    ensures forall i :: 0 <= i < |q| && q[i].deadline <= t ==> Tagged(q[..k], q[i].tag)
    ensures now + Delay <= t ==> k == |q|
  {
    DueCountStop(q, t, k);
    Advance(q, now, t);
    forall i | 0 <= i < |q| && q[i].deadline <= t
      ensures Tagged(q[..k], q[i].tag)
    {
      DueIsFired(q, t, i);
    }
    if now + Delay <= t {
      AllDueAfterDelay(q, now, t);
    }
  }

  /** A tag present in the queue is in the fired part or in the remaining part. */
  lemma TaggedSplit<T>(q: seq<Timer<T>>, k: nat, tag: T)
    requires k <= |q| && Tagged(q, tag)
    ensures Tagged(q[..k], tag) || Tagged(q[k..], tag)
  {
    var i :| 0 <= i < |q| && q[i].tag == tag;
    if i < k {
      assert q[..k][i] == q[i];
    } else {
      assert q[k..][i - k] == q[i];
    }
  }

  /** Firing one more timer adds its tag to the fired part. */
  lemma TaggedSnoc<T>(q: seq<Timer<T>>, x: Timer<T>, tag: T)
    ensures Tagged(q + [x], tag) <==> Tagged(q, tag) || x.tag == tag
  {
    if Tagged(q, tag) {
      var i :| 0 <= i < |q| && q[i].tag == tag;
      assert (q + [x])[i] == q[i];
    }
    if x.tag == tag {
      assert (q + [x])[|q|] == x;
    }
  }

  /** A timer that is due by `t` is among the fired ones. */
  lemma DueIsFired<T>(q: seq<Timer<T>>, t: nat, i: nat)
    requires Ordered(q) && i < |q| && q[i].deadline <= t
    ensures Tagged(q[..DueCount(q, t)], q[i].tag)
  {
    DueCountExact(q, t);
    assert q[..DueCount(q, t)][i] == q[i];
  }
}
