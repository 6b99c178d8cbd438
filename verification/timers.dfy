/** Pending `setTimeout` callbacks, kept in the order the event loop runs them.

A timer is a deadline in milliseconds plus the action it performs. The queue is
sorted by deadline; a timer scheduled for the same deadline as earlier ones runs
after them, which is the order browsers give to equal-delay timeouts.
 */
module Timers {

  datatype Timer<A> = Timer(due: int, action: A)

  /** Deadlines never decrease along the queue. */
  ghost predicate Sorted<A>(q: seq<Timer<A>>) {
    forall i, j :: 0 <= i < j < |q| ==> q[i].due <= q[j].due
  }

  /** No timer in the queue is due before `now`. */
  ghost predicate NotBefore<A>(q: seq<Timer<A>>, now: int) {
    forall i :: 0 <= i < |q| ==> now <= q[i].due
  }

  /** Registers `t`: it is placed after every timer due no later than it and
      before every timer due strictly later. */
  function Schedule<A>(q: seq<Timer<A>>, t: Timer<A>): (r: seq<Timer<A>>)
    ensures |r| == |q| + 1
  {
    if q == [] || t.due < q[0].due then [t] + q
    else [q[0]] + Schedule(q[1..], t)
  }

  /** Scheduling adds `t` and loses nothing. */
  lemma {:induction false} ScheduleContents<A>(q: seq<Timer<A>>, t: Timer<A>)
    ensures multiset(Schedule(q, t)) == multiset(q) + multiset{t}
  {
    if q != [] && q[0].due <= t.due {
      ScheduleContents(q[1..], t);
      assert q == [q[0]] + q[1..];
    }
  }

  /** Two registrations in a row add exactly the two timers. */
  lemma ScheduleTwice<A>(q: seq<Timer<A>>, a: Timer<A>, b: Timer<A>)
    ensures multiset(Schedule(Schedule(q, a), b)) == multiset(q) + multiset{a, b}
  {
    ScheduleContents(q, a);
    ScheduleContents(Schedule(q, a), b);
    assert multiset{a} + multiset{b} == multiset{a, b};
  }

  lemma InSchedule<A>(q: seq<Timer<A>>, t: Timer<A>, x: Timer<A>)
    requires x in Schedule(q, t)
    ensures x in q || x == t
  {
    ScheduleContents(q, t);
    assert x in multiset(Schedule(q, t));
  }

  /** Scheduling keeps the queue sorted. */
  lemma {:induction false} ScheduleSorted<A>(q: seq<Timer<A>>, t: Timer<A>)
    requires Sorted(q)
    ensures Sorted(Schedule(q, t))
  {
    if q == [] || t.due < q[0].due {
    } else {
      var rest := Schedule(q[1..], t);
      ScheduleSorted(q[1..], t);
      forall j | 0 <= j < |rest| ensures q[0].due <= rest[j].due {
        InSchedule(q[1..], t, rest[j]);
      }
    }
  }

  /** Where registration puts `t` in a sorted queue: at the position `k` after
      every timer due no later than it and before every timer due strictly
      later, so timers with equal deadlines run in registration order. */
  lemma {:induction false} ScheduleSlot<A>(q: seq<Timer<A>>, t: Timer<A>) returns (k: nat)
    requires Sorted(q)
    ensures k <= |q| && Schedule(q, t) == q[..k] + [t] + q[k..]
    ensures forall i :: 0 <= i < k ==> q[i].due <= t.due
    ensures forall i :: k <= i < |q| ==> t.due < q[i].due
  {
    if q == [] || t.due < q[0].due {
      k := 0;
      assert q[..0] == [] && q[0..] == q;
    } else {
      var k' := ScheduleSlot(q[1..], t);
      k := k' + 1;
      assert q[..k] == [q[0]] + q[1..][..k'];
      assert q[k..] == q[1..][k'..];
      forall i | 1 <= i < k ensures q[i].due <= t.due {
        assert q[i] == q[1..][i - 1];
      }
      forall i | k <= i < |q| ensures t.due < q[i].due {
        assert q[i] == q[1..][i - 1];
      }
    }
  }

  /** Registration in a sorted queue is stable: it inserts `t` after every
      timer due no later than it and before every timer due strictly later. */
  lemma ScheduleStable<A>(q: seq<Timer<A>>, t: Timer<A>)
    requires Sorted(q)
    ensures exists k ::
      && 0 <= k <= |q| && Schedule(q, t) == q[..k] + [t] + q[k..]
      && (forall i :: 0 <= i < k ==> q[i].due <= t.due)
      && (forall i :: k <= i < |q| ==> t.due < q[i].due)
  {
    var k := ScheduleSlot(q, t);
  }

  /** A timer registered at or after `now` keeps every deadline at or after `now`. */
  lemma ScheduleNotBefore<A>(q: seq<Timer<A>>, t: Timer<A>, now: int)
    requires NotBefore(q, now) && now <= t.due
    ensures NotBefore(Schedule(q, t), now)
  {
    var r := Schedule(q, t);
    forall i | 0 <= i < |r| ensures now <= r[i].due {
      InSchedule(q, t, r[i]);
    }
  }

  /** The head of a sorted queue is due no later than any other timer. */
  lemma HeadIsEarliest<A>(q: seq<Timer<A>>)
    requires Sorted(q) && q != []
    ensures NotBefore(q, q[0].due)
    ensures Sorted(q[1..])
  {
  }
}
