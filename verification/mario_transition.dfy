/** The transition animator: a timed phase sequence `Idle -> Jumping -> Hitting ->
Complete`, restarted each time the overlay becomes visible, followed by a
completion callback, plus what the overlay shows in each phase.

The sequence is a chain of timers: entering a phase schedules the next cue after
a fixed delay. Nothing cancels a cue once scheduled.
 */
module MarioTransition {

  datatype Phase = Idle | Jumping | Hitting | Complete

  /** What a pending animator timer does when it fires: enter a phase, or call
      the parent's completion callback. */
  datatype Target = Enter(phase: Phase) | Finish

  /** A timer the animator registers: `target` happens `delay` ms later. */
  datatype Cue = Cue(delay: nat, target: Target)

  const IdleDelay: nat := 100
  const JumpDelay: nat := 700
  const HitDelay: nat := 500
  const FinishDelay: nat := 600

  /** Position of a phase in the sequence. */
  function Rank(p: Phase): nat {
    match p
    case Idle => 0
    case Jumping => 1
    case Hitting => 2
    case Complete => 3
  }

  /** The cue registered on entering phase `p`: the awaited delay before the
      next phase, or the delay before the completion callback. */
  function OnEnter(p: Phase): (c: Cue)
    ensures c.target.Enter? <==> p != Complete
    ensures c.target.Enter? ==> Rank(c.target.phase) == Rank(p) + 1
    ensures c.delay > 0
  {
    match p
    case Idle => Cue(IdleDelay, Enter(Jumping))
    case Jumping => Cue(JumpDelay, Enter(Hitting))
    case Hitting => Cue(HitDelay, Enter(Complete))
    case Complete => Cue(FinishDelay, Finish)
  }

  /** The visibility effect: the phase is reset to `Idle` either way, and a new
      sequence (its first cue) starts only when the overlay is visible. */
  datatype Restart = Restart(phase: Phase, first: Cue, starts: bool)

  function OnVisibility(visible: bool): (r: Restart)
    ensures r.phase == Idle
    ensures r.starts <==> visible
    ensures r.first == Cue(IdleDelay, Enter(Jumping))
  {
    Restart(Idle, OnEnter(Idle), visible)
  }

  /** The cues followed from phase `p` up to the callback: each entry is the
      target with its delay measured from entering `p`. Every entry but the
      last enters the next phase in rank order, the last is the one callback,
      and the times strictly increase from the first cue's delay. */
  function Chain(p: Phase): (r: seq<(Target, int)>)
    ensures |r| == 4 - Rank(p)
    ensures r[|r| - 1].0 == Finish
    ensures forall k :: 0 <= k < |r| - 1 ==> r[k].0.Enter? && Rank(r[k].0.phase) == Rank(p) + k + 1
    ensures r[0] == (OnEnter(p).target, OnEnter(p).delay)
    ensures forall k :: 0 < k < |r| ==> r[k - 1].1 < r[k].1
    decreases 3 - Rank(p)
  {
    var c := OnEnter(p);
    match c.target
    case Finish => [(Finish, c.delay)]
    case Enter(q) =>
      var rest := Chain(q);
      [(c.target, c.delay)] + seq(|rest|, i requires 0 <= i < |rest| => (rest[i].0, rest[i].1 + c.delay))
  }

  /** Reference timeline: the phase shown `elapsed` ms after the overlay became
      visible, when nothing interrupts the sequence. */
  function PhaseAt(elapsed: int): Phase {
    if elapsed < 100 then Idle
    else if elapsed < 800 then Jumping
    else if elapsed < 1300 then Hitting
    else Complete
  }

  /** Time of the completion callback after the overlay became visible. */
  const FinishTime: int := 1900

  /** One visible cycle enters Jumping, Hitting and Complete in that order, at
      100, 800 and 1300 ms, and calls back exactly once, at 1900 ms; each entry
      time is where the reference timeline switches to that phase. */
  lemma SequenceTimeline()
    ensures Chain(Idle) == [(Enter(Jumping), 100), (Enter(Hitting), 800), (Enter(Complete), 1300), (Finish, FinishTime)]
    ensures forall k :: 0 <= k < 3 ==>
      (Chain(Idle)[k].0.Enter? &&
       PhaseAt(Chain(Idle)[k].1) == Chain(Idle)[k].0.phase &&
       PhaseAt(Chain(Idle)[k].1 - 1) != Chain(Idle)[k].0.phase)
    ensures forall k :: 0 <= k < 3 ==> Chain(Idle)[k].0 != Finish
  {
    assert Chain(Complete) == [(Finish, 600)];
    assert Chain(Hitting) == [(Enter(Complete), 500), (Finish, 1100)];
    assert Chain(Jumping) == [(Enter(Hitting), 700), (Enter(Complete), 1200), (Finish, 1800)];
  }

  /** What the overlay renders in one frame. Decorative motion, images and
      random coin offsets are not part of the frame. */
  datatype Frame = Frame(
    status: string,        // the status line
    coins: nat,            // coins spawned from the block
    scorePopup: bool,      // the "+100" popup
    fadingOut: bool,       // the zoom/fade-out keyframes of the complete phase
    completeBlur: bool,    // blur keyframes on the overlay while completing
    exitBlurPx: nat,       // blur applied by the exit animation
    dropShadows: bool,     // drop-shadow filter on the sprites
    scanlines: bool)       // the scanline layer

  const CoinCount: nat := 4

  /** The overlay is either not rendered at all or rendered as one frame. */
  datatype Render = Hidden | Shown(frame: Frame)

  /** The render of the overlay: nothing when hidden. */
  function View(visible: bool, phase: Phase, isMobile: bool): (r: Render)
    ensures r.Hidden? <==> !visible
    ensures r.Shown? ==> (r.frame.coins == CoinCount <==> phase == Hitting)
    ensures r.Shown? ==> (r.frame.coins == 0 <==> phase != Hitting)
    ensures r.Shown? ==> (r.frame.scorePopup <==> phase == Hitting)
    ensures r.Shown? ==> (r.frame.status == "COMPLETE!" <==> phase == Complete)
    ensures r.Shown? ==> (r.frame.status == "LOADING..." <==> phase != Complete)
    ensures r.Shown? ==> (r.frame.completeBlur ==> !isMobile)
  {
    if !visible then Hidden
    else Shown(Frame(
      status := if phase == Complete then "COMPLETE!" else "LOADING...",
      coins := if phase == Hitting then CoinCount else 0,
      scorePopup := phase == Hitting,
      fadingOut := phase == Complete,
      completeBlur := !isMobile && phase == Complete,
      exitBlurPx := if isMobile then 0 else 4,
      dropShadows := !isMobile,
      scanlines := !isMobile))
  }

  /** The mobile profile only drops filters: the two renders agree on
      everything else, and the phase timing does not depend on it at all. */
  lemma MobileOnlyChangesFilters(visible: bool, phase: Phase)
    ensures View(visible, phase, true).Hidden? == View(visible, phase, false).Hidden?
    ensures visible ==>
      var m := View(visible, phase, true).frame;
      var d := View(visible, phase, false).frame;
      m == d.(completeBlur := false, exitBlurPx := 0, dropShadows := false, scanlines := false)
  {
  }
}
