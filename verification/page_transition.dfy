/** The page-transition coordinator, composed with the animator it renders.

The coordinator holds three flags (`isTransitioning`, `showTransition`,
`isReady`) and the current path. An accepted request raises both flags, shows
the overlay (which starts the animator's phase chain) and registers one
navigation 1200 ms later; the animator's completion callback hides the overlay
at once and clears the busy flag 200 ms later. While the overlay is shown the
page is locked against scrolling and pointer input.

Everything that happens later is a timer in one queue (`Timers`); `Fire` runs the
earliest one. Each event sees the state left by the previous one.
 */
module PageTransition {
  import opened Timers
  import M = MarioTransition

  const ReadyDelay: nat := 100
  const NavigateDelay: nat := 1200
  const CooldownDelay: nat := 200

  /** What a pending timer of the site does when it fires. */
  datatype Action =
    | BecomeReady               // the provider's mount effect: isReady := true
    | Navigate(href: string)    // router.push(href) of an accepted request
    | EndCooldown               // the completion handler's isTransitioning := false
    | Animate(target: M.Target) // the next cue of the animator's phase chain

  datatype Coordinator = Coordinator(
    isTransitioning: bool,
    showTransition: bool,
    isReady: bool,
    pathname: string)

  /** The whole page: clock, coordinator, animator phase, the interaction lock
      on the document, pending timers, and the paths pushed to the router. */
  datatype Site = Site(
    now: int,
    coord: Coordinator,
    phase: M.Phase,
    locked: bool,
    timers: seq<Timer<Action>>,
    pushed: seq<string>)

  /** The page as first mounted at `path`, with the readiness timer pending. */
  function Init(path: string): (s: Site)
    ensures !s.coord.isReady && !s.coord.isTransitioning && !s.coord.showTransition
    ensures s.coord.pathname == path && !s.locked && s.pushed == []
    ensures s.timers == [Timer(ReadyDelay, BecomeReady)]
  {
    Site(0, Coordinator(false, false, false, path), M.Idle, false, [Timer(ReadyDelay, BecomeReady)], [])
  }

  datatype Verdict = AlreadyThere | Blocked | Accepted

  /** The request gate: a request for the current path is dropped first; one
      made while busy, while the overlay is shown or before readiness is blocked. */
  function Admit(c: Coordinator, href: string): (v: Verdict)
    ensures v == Accepted <==> href != c.pathname && !c.isTransitioning && !c.showTransition && c.isReady
    ensures v == AlreadyThere <==> href == c.pathname
  {
    if c.pathname == href then AlreadyThere
    else if c.isTransitioning || c.showTransition || !c.isReady then Blocked
    else Accepted
  }

  /** `startTransition(href)`, followed by the effects that the flag change
      triggers: the lock effect locks the page and the animator restarts. */
  function Request(s: Site, href: string): (r: Site)
    ensures Admit(s.coord, href) != Accepted ==> r == s
    ensures Admit(s.coord, href) == Accepted ==>
      && r.coord == s.coord.(isTransitioning := true, showTransition := true)
      && r.locked && r.phase == M.Idle
      && r.now == s.now && r.pushed == s.pushed
  {
    if Admit(s.coord, href) != Accepted then s
    else
      var v := M.OnVisibility(true);
      var queued := Schedule(s.timers, Timer(s.now + NavigateDelay, Navigate(href)));
      s.(coord := s.coord.(isTransitioning := true, showTransition := true),
         phase := v.phase,
         locked := true,
         timers := if v.starts then Schedule(queued, Timer(s.now + v.first.delay, Animate(v.first.target)))
                   else queued)
  }

  /** `handleTransitionComplete`: the overlay goes at once, the busy flag 200 ms
      later. Hiding the overlay re-runs the lock effect and the animator's
      visibility effect; if it was already hidden, neither runs. */
  function Complete(s: Site): (r: Site)
    ensures !r.coord.showTransition
    ensures r.coord == s.coord.(showTransition := false)
    ensures s.coord.showTransition ==> !r.locked && r.phase == M.Idle
    ensures !s.coord.showTransition ==> r.locked == s.locked && r.phase == s.phase
    ensures r.now == s.now && r.pushed == s.pushed
  {
    var hides := s.coord.showTransition;
    s.(coord := s.coord.(showTransition := false),
       locked := if hides then false else s.locked,
       phase := if hides then M.OnVisibility(false).phase else s.phase,
       timers := Schedule(s.timers, Timer(s.now + CooldownDelay, EndCooldown)))
  }

  /** An accepted request registers exactly two timers: the navigation to
      `href` at +1200 ms and the animator's first cue at +100 ms. */
  lemma RequestSchedules(s: Site, href: string)
    requires Admit(s.coord, href) == Accepted
    ensures multiset(Request(s, href).timers) == multiset(s.timers)
      + multiset{Timer(s.now + 1200, Navigate(href)), Timer(s.now + 100, Animate(M.Enter(M.Jumping)))}
  {
    var q := s.timers;
    var nav := Timer(s.now + NavigateDelay, Navigate(href));
    var jump := Timer(s.now + M.IdleDelay, Animate(M.Enter(M.Jumping)));
    ScheduleTwice(q, nav, jump);
    assert Request(s, href).timers == Schedule(Schedule(q, nav), jump);
  }

  /** Completion registers exactly one timer: the end of the cooldown, 200 ms on. */
  lemma CompleteSchedules(s: Site)
    ensures multiset(Complete(s).timers) == multiset(s.timers) + multiset{Timer(s.now + 200, EndCooldown)}
  {
    ScheduleContents(s.timers, Timer(s.now + CooldownDelay, EndCooldown));
  }

  /** Entering a phase registers exactly the animator's next cue. */
  lemma EnterSchedules(s: Site, p: M.Phase)
    ensures multiset(Perform(s, Animate(M.Enter(p))).timers) == multiset(s.timers)
      + multiset{Timer(s.now + M.OnEnter(p).delay, Animate(M.OnEnter(p).target))}
  {
    var c := M.OnEnter(p);
    var q, t := s.timers, Timer(s.now + c.delay, Animate(c.target));
    ScheduleContents(q, t);
    assert Perform(s, Animate(M.Enter(p))).timers == Schedule(q, t);
  }

  /** The effect of one timer firing, the timer already removed from the queue. */
  function Perform(s: Site, a: Action): (r: Site)
    ensures r.now == s.now
    ensures a.BecomeReady? ==> r == s.(coord := s.coord.(isReady := true))
    ensures a.Navigate? ==> r == s.(coord := s.coord.(pathname := a.href), pushed := s.pushed + [a.href])
    ensures a.EndCooldown? ==> r == s.(coord := s.coord.(isTransitioning := false))
    ensures a == Animate(M.Finish) ==> r == Complete(s)
    ensures a.Animate? && a.target.Enter? ==>
      r.phase == a.target.phase && r.coord == s.coord && r.locked == s.locked && r.pushed == s.pushed
  {
    match a
    case BecomeReady => s.(coord := s.coord.(isReady := true))
    case Navigate(h) => s.(coord := s.coord.(pathname := h), pushed := s.pushed + [h])
    case EndCooldown => s.(coord := s.coord.(isTransitioning := false))
    case Animate(target) =>
      if target.Finish? then Complete(s)
      else
        var c := M.OnEnter(target.phase);
        s.(phase := target.phase, timers := Schedule(s.timers, Timer(s.now + c.delay, Animate(c.target))))
  }

  /** The event loop runs the earliest pending timer; the clock jumps to its
      deadline. With nothing pending, nothing happens. */
  function Fire(s: Site): (r: Site)
    ensures s.timers == [] ==> r == s
    ensures s.timers != [] ==> r.now == s.timers[0].due
    ensures s.timers != [] && Sorted(s.timers) ==> NotBefore(s.timers, r.now)
    ensures s.timers != [] && !s.timers[0].action.Animate? ==> r.timers == s.timers[1..]
    ensures s.timers != [] && s.timers[0].action == BecomeReady ==>
      r.coord == s.coord.(isReady := true) && r.pushed == s.pushed
    ensures s.timers != [] && s.timers[0].action.Navigate? ==>
      r.coord == s.coord.(pathname := s.timers[0].action.href) && r.pushed == s.pushed + [s.timers[0].action.href]
    ensures s.timers != [] && s.timers[0].action == EndCooldown ==>
      r.coord == s.coord.(isTransitioning := false) && r.pushed == s.pushed
    ensures s.timers != [] && s.timers[0].action == Animate(M.Finish) ==>
      && !r.coord.showTransition && r.coord.isTransitioning == s.coord.isTransitioning
      && (s.coord.showTransition ==> !r.locked && r.phase == M.Idle) && r.pushed == s.pushed
    ensures s.timers != [] && s.timers[0].action.Animate? && s.timers[0].action.target.Enter? ==>
      r.phase == s.timers[0].action.target.phase && r.coord == s.coord && r.locked == s.locked
  {
    if s.timers == [] then s
    else
      var t := s.timers[0];
      Perform(s.(now := t.due, timers := s.timers[1..]), t.action)
  }

  /** A firing animator timer leaves the queue, and exactly one timer takes its
      place: the next cue, or after the callback the end of the cooldown. */
  lemma FireAnimates(s: Site)
    requires s.timers != [] && s.timers[0].action.Animate?
    ensures var t := s.timers[0];
      && (t.action.target.Enter? ==>
            multiset(Fire(s).timers) == multiset(s.timers[1..])
              + multiset{Timer(t.due + M.OnEnter(t.action.target.phase).delay,
                               Animate(M.OnEnter(t.action.target.phase).target))})
      && (t.action.target.Finish? ==>
            multiset(Fire(s).timers) == multiset(s.timers[1..])
              + multiset{Timer(t.due + CooldownDelay, EndCooldown)})
  {
    var t := s.timers[0];
    if t.action.target.Enter? {
      FireCueQueue(s, t.action.target.phase);
    } else {
      FireFinishQueue(s);
    }
  }

  lemma FireCueQueue(s: Site, p: M.Phase)
    requires s.timers != [] && s.timers[0].action == Animate(M.Enter(p))
    ensures multiset(Fire(s).timers) == multiset(s.timers[1..])
      + multiset{Timer(s.timers[0].due + M.OnEnter(p).delay, Animate(M.OnEnter(p).target))}
  {
    var popped := s.(now := s.timers[0].due, timers := s.timers[1..]);
    assert Fire(s) == Perform(popped, Animate(M.Enter(p)));
    EnterSchedules(popped, p);
  }

  lemma FireFinishQueue(s: Site)
    requires s.timers != [] && s.timers[0].action == Animate(M.Finish)
    ensures multiset(Fire(s).timers) == multiset(s.timers[1..])
      + multiset{Timer(s.timers[0].due + CooldownDelay, EndCooldown)}
  {
    var popped := s.(now := s.timers[0].due, timers := s.timers[1..]);
    assert Fire(s) == Perform(popped, Animate(M.Finish));
    CompleteSchedules(popped);
  }

  /** Time passes without any timer firing: the clock moves towards `until`
      but never past the earliest pending deadline. */
  function Wait(s: Site, until: int): (r: Site)
    ensures r == s.(now := r.now)
    ensures s.now <= r.now
    ensures s.timers != [] && s.now <= s.timers[0].due ==> r.now <= s.timers[0].due
    ensures (s.timers == [] || until <= s.timers[0].due) && s.now <= until ==> r.now == until
  {
    var t := if s.timers != [] && s.timers[0].due < until then s.timers[0].due else until;
    if t <= s.now then s else s.(now := t)
  }

  datatype Event = Click(href: string) | Tick | Pause(until: int)

  function Step(s: Site, e: Event): (r: Site)
    ensures s.coord.isReady ==> r.coord.isReady
  {
    match e
    case Click(h) => Request(s, h)
    case Tick => Fire(s)
    case Pause(u) => Wait(s, u)
  }

  function Run(s: Site, es: seq<Event>): Site
    decreases |es|
  {
    if es == [] then s else Run(Step(s, es[0]), es[1..])
  }

  /** The provider unmounts: the lock effect's cleanup releases the page and the
      readiness timer is cleared, but a registered navigation still fires.
      Nothing else about the page changes. */
  function Unmount(s: Site): (r: Site)
    ensures !r.locked
    ensures r == s.(locked := false, timers := r.timers)
    ensures forall i :: 0 <= i < |r.timers| ==> !r.timers[i].action.BecomeReady?
    ensures forall t :: t in s.timers && !t.action.BecomeReady? ==> t in r.timers
    ensures forall t :: t in r.timers ==> t in s.timers
    ensures Sorted(s.timers) ==> Sorted(r.timers)
  {
    s.(locked := false, timers := WithoutReady(s.timers))
  }

  /** The queue with its readiness timers cleared: exactly the other timers,
      in the order they were. */
  function WithoutReady(q: seq<Timer<Action>>): (r: seq<Timer<Action>>)
    ensures forall i :: 0 <= i < |r| ==> !r[i].action.BecomeReady?
    ensures forall t :: t in q && !t.action.BecomeReady? ==> t in r
    ensures forall t :: t in r ==> t in q
    ensures Sorted(q) ==> Sorted(r)
  {
    if q == [] then []
    else if q[0].action.BecomeReady? then WithoutReady(q[1..])
    else [q[0]] + WithoutReady(q[1..])
  }

  /** Clearing works timer by timer: a readiness timer goes, any other stays. */
  lemma WithoutReadyOne(t: Timer<Action>)
    ensures WithoutReady([t]) == if t.action.BecomeReady? then [] else [t]
  {
    assert [t][1..] == [];
  }

  /** Clearing a queue clears each part of it in place, so the kept timers
      keep their number and their relative order. */
  lemma {:induction false} WithoutReadyAppend(a: seq<Timer<Action>>, b: seq<Timer<Action>>)
    ensures WithoutReady(a + b) == WithoutReady(a) + WithoutReady(b)
  {
    if a == [] {
      assert a + b == b;
    } else {
      var t, tail := a[0], a[1..];
      WithoutReadyAppend(tail, b);
      assert a == [t] + tail;
      assert a + b == [t] + (tail + b);
      WithoutReadyCons(t, tail);
      WithoutReadyCons(t, tail + b);
      if !t.action.BecomeReady? {
        KeptInFront(t, WithoutReady(tail), WithoutReady(b));
      }
    }
  }

  /** Putting a kept timer in front of a concatenation. */
  lemma KeptInFront(t: Timer<Action>, x: seq<Timer<Action>>, y: seq<Timer<Action>>)
    ensures [t] + (x + y) == ([t] + x) + y
  {
  }

  lemma WithoutReadyCons(t: Timer<Action>, q: seq<Timer<Action>>)
    ensures WithoutReady([t] + q) == if t.action.BecomeReady? then WithoutReady(q) else [t] + WithoutReady(q)
  {
    assert ([t] + q)[0] == t && ([t] + q)[1..] == q;
  }

  /** A queue with no readiness timer is left as it is. */
  lemma {:induction false} WithoutReadyKeeps(q: seq<Timer<Action>>)
    requires forall i :: 0 <= i < |q| ==> !q[i].action.BecomeReady?
    ensures WithoutReady(q) == q
  {
    if q != [] {
      WithoutReadyKeeps(q[1..]);
    }
  }

  /** Unmounting twice is unmounting once. */
  lemma UnmountTwice(s: Site)
    ensures Unmount(Unmount(s)) == Unmount(s)
  {
    WithoutReadyKeeps(Unmount(s).timers);
  }

  // ---------------------------------------------------------------------------
  // Invariants of every reachable state

  /** How many readiness timers, animator cues and cooldown timers are pending. */
  datatype Tally = Tally(ready: nat, cues: nat, cooldowns: nat)

  /** The tally of `t` plus one timer running action `a`. */
  function Plus(t: Tally, a: Action): Tally {
    Tally(t.ready + (if a.BecomeReady? then 1 else 0),
          t.cues + (if a.Animate? then 1 else 0),
          t.cooldowns + (if a.EndCooldown? then 1 else 0))
  }

  function TallyOf(q: seq<Timer<Action>>): Tally {
    if q == [] then Tally(0, 0, 0) else Plus(TallyOf(q[1..]), q[0].action)
  }

  /** Scheduling adds exactly the new timer to the tally. */
  lemma {:induction false} TallySchedule(q: seq<Timer<Action>>, t: Timer<Action>)
    ensures TallyOf(Schedule(q, t)) == Plus(TallyOf(q), t.action)
  {
    if q == [] || t.due < q[0].due {
      assert Schedule(q, t)[1..] == q;
    } else {
      TallySchedule(q[1..], t);
      assert Schedule(q, t)[1..] == Schedule(q[1..], t);
    }
  }

  /** Every readiness timer is due at 100 ms. */
  ghost predicate ReadyTimersAt(q: seq<Timer<Action>>) {
    forall i :: 0 <= i < |q| && q[i].action.BecomeReady? ==> q[i].due == ReadyDelay
  }

  /** Sorted, nothing overdue, readiness timers due at 100 ms. */
  ghost predicate QueueOk(q: seq<Timer<Action>>, now: int) {
    Sorted(q) && NotBefore(q, now) && ReadyTimersAt(q)
  }

  /** The three stages of the coordinator: settled; showing the overlay with
      exactly one animator cue pending; cooling down with exactly one cooldown
      timer pending. A readiness timer is pending exactly until readiness. */
  ghost predicate Stage(c: Coordinator, phase: M.Phase, t: Tally) {
    && t.ready == (if c.isReady then 0 else 1)
    && (|| (!c.isTransitioning && !c.showTransition && t.cooldowns == 0 && t.cues == 0 && phase == M.Idle)
        || (c.isTransitioning && c.showTransition && t.cooldowns == 0 && t.cues == 1 && c.isReady)
        || (c.isTransitioning && !c.showTransition && t.cooldowns == 1 && t.cues == 0 && phase == M.Idle))
  }

  ghost predicate Inv(s: Site) {
    && QueueOk(s.timers, s.now)
    && s.locked == s.coord.showTransition
    && (s.coord.isReady ==> ReadyDelay <= s.now)
    && 0 <= s.now
    && Stage(s.coord, s.phase, TallyOf(s.timers))
  }

  /** What holds of a state whose next timer, running `a`, has just been
      taken off the queue and the clock set to its deadline. */
  ghost predicate Popped(s: Site, a: Action) {
    && QueueOk(s.timers, s.now)
    && s.locked == s.coord.showTransition
    && (s.coord.isReady ==> ReadyDelay <= s.now)
    && (a.BecomeReady? ==> s.now == ReadyDelay)
    && 0 <= s.now
    && Stage(s.coord, s.phase, Plus(TallyOf(s.timers), a))
  }

  lemma ScheduleKeepsReadyTimers(q: seq<Timer<Action>>, t: Timer<Action>)
    requires ReadyTimersAt(q) && !t.action.BecomeReady?
    ensures ReadyTimersAt(Schedule(q, t))
  {
    var r := Schedule(q, t);
    forall i | 0 <= i < |r| && r[i].action.BecomeReady? ensures r[i].due == ReadyDelay {
      InSchedule(q, t, r[i]);
    }
  }

  /** Registering a timer at or after `now` keeps the queue well formed and
      adds it to the tally. */
  lemma ScheduleKeeps(q: seq<Timer<Action>>, t: Timer<Action>, now: int)
    requires QueueOk(q, now) && now <= t.due && !t.action.BecomeReady?
    ensures QueueOk(Schedule(q, t), now)
    ensures TallyOf(Schedule(q, t)) == Plus(TallyOf(q), t.action)
  {
    ScheduleSorted(q, t);
    ScheduleNotBefore(q, t, now);
    ScheduleKeepsReadyTimers(q, t);
    TallySchedule(q, t);
  }

  /** Taking the head off a well-formed queue. */
  lemma PopKeeps(q: seq<Timer<Action>>, now: int)
    requires QueueOk(q, now) && q != []
    ensures QueueOk(q[1..], q[0].due) && now <= q[0].due
    ensures TallyOf(q) == Plus(TallyOf(q[1..]), q[0].action)
    ensures q[0].action.BecomeReady? ==> q[0].due == ReadyDelay
  {
    HeadIsEarliest(q);
    var r := q[1..];
    forall i | 0 <= i < |r| && r[i].action.BecomeReady? ensures r[i].due == ReadyDelay {
      assert r[i] == q[i + 1];
    }
  }

  lemma InitInv(path: string)
    ensures Inv(Init(path))
  {
    var s := Init(path);
    assert s.timers[1..] == [];
  }

  /** The queue after an accepted request, from a queue with no animator cue
      and no cooldown timer. */
  lemma AcceptedQueue(q: seq<Timer<Action>>, now: int, href: string)
    requires QueueOk(q, now)
    ensures var q2 := Schedule(Schedule(q, Timer(now + NavigateDelay, Navigate(href))),
                               Timer(now + M.IdleDelay, Animate(M.Enter(M.Jumping))));
      && QueueOk(q2, now)
      && TallyOf(q2) == TallyOf(q).(cues := TallyOf(q).cues + 1)
  {
    var nav := Timer(now + NavigateDelay, Navigate(href));
    var jump := Timer(now + M.IdleDelay, Animate(M.Enter(M.Jumping)));
    ScheduleKeeps(q, nav, now);
    ScheduleKeeps(Schedule(q, nav), jump, now);
  }

  lemma RequestInv(s: Site, href: string)
    requires Inv(s)
    ensures Inv(Request(s, href))
  {
    if Admit(s.coord, href) == Accepted {
      var q, now := s.timers, s.now;
      AcceptedQueue(q, now, href);
      var q2 := Schedule(Schedule(q, Timer(now + NavigateDelay, Navigate(href))),
                         Timer(now + M.IdleDelay, Animate(M.Enter(M.Jumping))));
      assert QueueOk(q2, now);
      assert Request(s, href).timers == q2;
    }
  }

  lemma CompleteInv(s: Site)
    requires Popped(s, Animate(M.Finish))
    ensures Inv(Perform(s, Animate(M.Finish)))
  {
    var q, t := s.timers, Timer(s.now + CooldownDelay, EndCooldown);
    ScheduleKeeps(q, t, s.now);
    assert Perform(s, Animate(M.Finish)).timers == Schedule(q, t);
  }

  lemma EnterInv(s: Site, p: M.Phase)
    requires Popped(s, Animate(M.Enter(p)))
    ensures Inv(Perform(s, Animate(M.Enter(p))))
  {
    var c := M.OnEnter(p);
    var q, t := s.timers, Timer(s.now + c.delay, Animate(c.target));
    ScheduleKeeps(q, t, s.now);
    assert Perform(s, Animate(M.Enter(p))).timers == Schedule(q, t);
  }

  lemma PerformInv(s: Site, a: Action)
    requires Popped(s, a)
    ensures Inv(Perform(s, a))
  {
    match a
    case BecomeReady =>
    case Navigate(h) =>
    case EndCooldown =>
    case Animate(target) =>
      if target.Finish? {
        CompleteInv(s);
      } else {
        EnterInv(s, target.phase);
      }
  }

  lemma FireInv(s: Site)
    requires Inv(s)
    ensures Inv(Fire(s))
  {
    if s.timers != [] {
      var t := s.timers[0];
      PopKeeps(s.timers, s.now);
      var s' := s.(now := t.due, timers := s.timers[1..]);
      assert Popped(s', t.action);
      PerformInv(s', t.action);
    }
  }

  lemma WaitInv(s: Site, until: int)
    requires Inv(s)
    ensures Inv(Wait(s, until))
  {
    var r := Wait(s, until);
    if s.timers != [] {
      HeadIsEarliest(s.timers);
    }
    assert NotBefore(r.timers, r.now);
  }

  lemma StepInv(s: Site, e: Event)
    requires Inv(s)
    ensures Inv(Step(s, e))
  {
    match e
    case Click(h) => RequestInv(s, h);
    case Tick => FireInv(s);
    case Pause(u) => WaitInv(s, u);
  }

  /** Every state reachable from mounting satisfies the invariant; in
      particular the overlay is never shown unless a transition is in flight,
      the lock is held exactly while the overlay is shown, and readiness is
      never reached before 100 ms. */
  lemma Reachable(path: string, es: seq<Event>)
    ensures Inv(Run(Init(path), es))
    ensures var s := Run(Init(path), es);
      && (s.coord.showTransition ==> s.coord.isTransitioning)
      && (s.locked <==> s.coord.showTransition)
      && (s.now < ReadyDelay ==> !s.coord.isReady)
  {
    InitInv(path);
    RunInv(Init(path), es);
  }

  lemma {:induction false} RunInv(s: Site, es: seq<Event>)
    requires Inv(s)
    ensures Inv(Run(s, es))
    decreases |es|
  {
    if es != [] {
      StepInv(s, es[0]);
      RunInv(Step(s, es[0]), es[1..]);
    }
  }

  /** Nothing reverts readiness, and the clock never runs backwards. */
  lemma StepMonotone(s: Site, e: Event)
    requires Inv(s)
    ensures s.coord.isReady ==> Step(s, e).coord.isReady
    ensures s.now <= Step(s, e).now
  {
    if e.Tick? && s.timers != [] {
      assert s.now <= s.timers[0].due;
    }
  }

  /** The readiness timer is the first thing to fire after mounting, at 100 ms. */
  lemma ReadyAfterDelay(path: string)
    ensures Fire(Init(path)).coord.isReady
    ensures Fire(Init(path)).now == ReadyDelay
    ensures Fire(Init(path)).timers == []
  {
  }

  // ---------------------------------------------------------------------------
  // The timeline of one transition

  /** Nothing pending, nothing shown, ready for a request. */
  ghost predicate Settled(s: Site) {
    && s.coord.isReady && !s.coord.isTransitioning && !s.coord.showTransition
    && !s.locked && s.phase == M.Idle && s.timers == []
  }

  /** `k` timers fire in a row. */
  function Ticks(s: Site, k: nat): Site
    decreases k
  {
    if k == 0 then s else Ticks(Fire(s), k - 1)
  }

  /** A firing animator cue enters its phase and registers the next cue. */
  lemma FireEnter(x: Site, d: int, p: M.Phase, rest: seq<Timer<Action>>)
    requires x.timers == [Timer(d, Animate(M.Enter(p)))] + rest
    ensures Fire(x) == x.(now := d, phase := p,
      timers := Schedule(rest, Timer(d + M.OnEnter(p).delay, Animate(M.OnEnter(p).target))))
  {
    assert x.timers[1..] == rest;
  }

  lemma TicksStep(x: Site, k: nat)
    ensures Ticks(x, k + 1) == Ticks(Fire(x), k)
  {
  }

  /** From a settled page, one accepted request runs: jump at +100, hit at +800,
      the single navigation at +1200, complete at +1300, overlay off at +1900,
      and the page settled again (so new requests are accepted) at +2100. The
      busy flag stays raised until then, so the gate blocks every request in
      between. */
  lemma TransitionTimeline(s: Site, href: string)
    requires Settled(s) && href != s.coord.pathname
    ensures var t0 := s.now; var r := Request(s, href);
      && r.coord.isTransitioning && r.coord.showTransition && r.locked && r.phase == M.Idle
      && Ticks(r, 1).now == t0 + 100 && Ticks(r, 1).phase == M.Jumping
      && Ticks(r, 2).now == t0 + 800 && Ticks(r, 2).phase == M.Hitting
      && Ticks(r, 3).now == t0 + 1200 && Ticks(r, 3).phase == M.Hitting
      && Ticks(r, 3).coord.pathname == href
      && Ticks(r, 4).now == t0 + 1300 && Ticks(r, 4).phase == M.Complete
      && Ticks(r, 5).now == t0 + 1900 && Ticks(r, 5).phase == M.Idle
      && !Ticks(r, 5).coord.showTransition && !Ticks(r, 5).locked
      && Ticks(r, 6).now == t0 + 2100 && Settled(Ticks(r, 6)) && Ticks(r, 6).coord.pathname == href
      && r.pushed == s.pushed && Ticks(r, 1).pushed == s.pushed && Ticks(r, 2).pushed == s.pushed
      && Ticks(r, 3).pushed == s.pushed + [href] && Ticks(r, 6).pushed == s.pushed + [href]
      && Ticks(r, 1).coord.showTransition && Ticks(r, 2).coord.showTransition
      && Ticks(r, 3).coord.showTransition && Ticks(r, 4).coord.showTransition
      && Ticks(r, 1).coord.isTransitioning && Ticks(r, 2).coord.isTransitioning
      && Ticks(r, 3).coord.isTransitioning && Ticks(r, 4).coord.isTransitioning
      && Ticks(r, 5).coord.isTransitioning
  {
    var t0 := s.now;
    var jump := Timer(t0 + 100, Animate(M.Enter(M.Jumping)));
    var hit := Timer(t0 + 800, Animate(M.Enter(M.Hitting)));
    var nav := Timer(t0 + 1200, Navigate(href));
    var done := Timer(t0 + 1300, Animate(M.Enter(M.Complete)));
    var finish := Timer(t0 + 1900, Animate(M.Finish));
    var cool := Timer(t0 + 2100, EndCooldown);

    var r := Request(s, href);
    assert Schedule([nav], jump) == [jump, nav];
    assert r.timers == [jump, nav] by { assert Schedule([], nav) == [nav]; }
    var r1 := r.(now := t0 + 100, phase := M.Jumping, timers := [hit, nav]);
    FireEnter(r, t0 + 100, M.Jumping, [nav]);
    assert Schedule([nav], hit) == [hit, nav];
    assert Fire(r) == r1;
    var r2 := r1.(now := t0 + 800, phase := M.Hitting, timers := [nav, done]);
    FireEnter(r1, t0 + 800, M.Hitting, [nav]);
    assert Schedule([nav], done) == [nav, done] by { assert Schedule([], done) == [done]; }
    assert Fire(r1) == r2;
    var r3 := r2.(now := t0 + 1200, coord := r2.coord.(pathname := href), pushed := s.pushed + [href], timers := [done]);
    assert Fire(r2) == r3 by { assert r2.timers[1..] == [done]; }
    var r4 := r3.(now := t0 + 1300, phase := M.Complete, timers := [finish]);
    FireEnter(r3, t0 + 1300, M.Complete, []);
    assert Fire(r3) == r4;
    var r5 := r4.(now := t0 + 1900, coord := r4.coord.(showTransition := false), locked := false,
                  phase := M.Idle, timers := [cool]);
    assert Fire(r4) == r5 by { assert r4.timers[1..] == []; }
    var r6 := r5.(now := t0 + 2100, coord := r5.coord.(isTransitioning := false), timers := []);
    assert Fire(r5) == r6 by { assert r5.timers[1..] == []; }

    TicksStep(r, 0); TicksStep(r1, 0); TicksStep(r2, 0); TicksStep(r3, 0); TicksStep(r4, 0); TicksStep(r5, 0);
    TicksStep(r, 1); TicksStep(r1, 1); TicksStep(r2, 1); TicksStep(r3, 1); TicksStep(r4, 1);
    TicksStep(r, 2); TicksStep(r1, 2); TicksStep(r2, 2); TicksStep(r3, 2);
    TicksStep(r, 3); TicksStep(r1, 3); TicksStep(r2, 3);
    TicksStep(r, 4); TicksStep(r1, 4);
    TicksStep(r, 5);
    assert Ticks(r, 1) == r1 && Ticks(r, 2) == r2 && Ticks(r, 3) == r3;
    assert Ticks(r, 4) == r4 && Ticks(r, 5) == r5 && Ticks(r, 6) == r6;
  }
}
