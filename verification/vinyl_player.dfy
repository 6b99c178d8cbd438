/** The track player: a wrap-around track index over the configured songs, a
skip guarded against re-entry, and the handlers the audio element and the
controls call.

The audio element is a handle that either is not mounted or carries the source
and volume written to it. Whether the element is ready, whether `play()`
succeeds and whether the device is mobile are inputs to the handlers. A skip
that autoplays leaves work outstanding: it polls readiness every 100 ms and
then waits for `play()` to settle; `Wait` records which of the two is pending.
 */
module VinylPlayer {
  import opened Songs

  /** The audio element as the handlers see it. */
  datatype Handle = Detached | Attached(src: string, volume: real)

  /** The outstanding part of a skip: nothing, the readiness poll that runs
      next (with its attempt number), or a `play()` call not yet settled. */
  datatype Wait = Done | Polling(attempt: nat) | Starting

  datatype Player = Player(
    songs: seq<Song>,
    isPlaying: bool,
    isLoaded: bool,
    volume: real,
    isTransitioning: bool,
    isSkipping: bool,
    index: nat,
    current: Song,
    audio: Handle,
    wait: Wait)

  const InitialVolume: real := 0.3
  /** Readiness polls stop once the attempt number exceeds this. */
  const MaxAttempts: nat := 20

  /** The placeholder shown when no songs are configured. */
  const NoSong: Song := Song("", "No Songs", "Available")

  /** The well-formed player: the index is in range and names the current
      song, the two skip flags agree and are set exactly while a skip has work
      outstanding, outstanding work implies a mounted element, and the
      element's volume is the stored volume. */
  ghost predicate Wf(p: Player) {
    && (|p.songs| > 0 ==> p.index < |p.songs| && p.current == p.songs[p.index])
    && (|p.songs| == 0 ==> p.index == 0 && p.current == NoSong)
    && p.isSkipping == p.isTransitioning
    && (p.isSkipping <==> !p.wait.Done?)
    && (p.wait.Polling? ==> 1 <= p.wait.attempt <= MaxAttempts + 1)
    && (!p.wait.Done? ==> p.audio.Attached?)
    && (p.audio.Attached? ==> p.audio.volume == p.volume)
  }

  /** The state on mount: paused, not loaded, 30% volume, on the first song
      or on the placeholder when there are none. */
  function Init(songs: seq<Song>, mounted: bool): (p: Player)
    ensures Wf(p)
    ensures !p.isPlaying && !p.isLoaded && !p.isSkipping && !p.isTransitioning
    ensures p.index == 0 && p.volume == InitialVolume && p.songs == songs
    ensures songs != [] ==> p.current == songs[0]
    ensures songs == [] ==> p.current.src == ""
    ensures p.audio.Attached? <==> mounted
  {
    var current := if |songs| > 0 then songs[0] else NoSong;
    Player(songs, false, false, InitialVolume, false, false, 0, current,
           if mounted then Attached(current.src, InitialVolume) else Detached, Done)
  }

  /** The index after `i` in a list of `n` songs: the following one, or the
      first after the last. */
  function NextIndex(i: nat, n: nat): (j: nat)
    requires n > 0
    ensures j < n
    ensures i + 1 < n ==> j == i + 1
    ensures i + 1 == n ==> j == 0
  {
    (i + 1) % n
  }

  /** Whether a skip resumes playback: only if music was playing, and on a
      mobile device only when the user asked for the skip. */
  predicate ShouldAutoPlay(wasPlaying: bool, isMobile: bool, userTriggered: bool) {
    wasPlaying && (!isMobile || userTriggered)
  }

  /** `resetSkipping`: re-enables the skip button. */
  function Reset(p: Player): (r: Player)
    ensures !r.isSkipping && !r.isTransitioning && r.wait.Done?
    ensures r.(isSkipping := p.isSkipping, isTransitioning := p.isTransitioning, wait := p.wait) == p
  {
    p.(isSkipping := false, isTransitioning := false, wait := Done)
  }

  /** One call of the skip's readiness poll with attempt number `attempt`:
      give up past the cap, start `play()` if the element is ready, otherwise
      poll again 100 ms later with the next attempt number. */
  function Attempt(p: Player, attempt: nat, ready: bool): (r: Player)
    ensures attempt > MaxAttempts ==> !r.isSkipping && !r.isTransitioning && r.wait.Done?
    ensures attempt <= MaxAttempts ==> r.isSkipping == p.isSkipping && r.isTransitioning == p.isTransitioning
    ensures attempt <= MaxAttempts && ready && p.audio.Attached? ==> r.wait == Starting
    ensures attempt <= MaxAttempts && !(ready && p.audio.Attached?) ==> r.wait == Polling(attempt + 1)
    ensures r.isPlaying == p.isPlaying && r.isLoaded == p.isLoaded && r.audio == p.audio
    ensures r.(isSkipping := p.isSkipping, isTransitioning := p.isTransitioning, wait := p.wait) == p
  {
    if attempt > MaxAttempts then Reset(p)
    else if ready && p.audio.Attached? then p.(wait := Starting)
    else p.(wait := Polling(attempt + 1))
  }

  /** `skipToNext`. Ignored with no songs or while a skip is in progress.
      Without a mounted element it only re-enables the button. Otherwise it
      moves to the next song, loads it paused, and either resumes playback
      (starting the readiness poll at once, with `ready` the element's
      readiness at that moment) or stops. */
  function Skip(p: Player, userTriggered: bool, isMobile: bool, ready: bool): (r: Player)
    ensures |p.songs| == 0 || p.isSkipping ==> r == p
    ensures r.songs == p.songs && r.volume == p.volume
    ensures |p.songs| > 0 && !p.isSkipping && p.audio.Detached? ==>
      r == p.(isSkipping := false, isTransitioning := false, wait := Done)
    ensures |p.songs| > 0 && !p.isSkipping && p.audio.Attached? ==>
      && r.index == NextIndex(p.index, |p.songs|) && r.current == p.songs[r.index]
      && !r.isLoaded && r.audio == Attached(r.current.src, p.audio.volume)
    ensures |p.songs| > 0 && !p.isSkipping && p.audio.Attached? ==>
      if ShouldAutoPlay(p.isPlaying, isMobile, userTriggered)
      then r.isPlaying && r.isSkipping && r.isTransitioning && r.wait == (if ready then Starting else Polling(1))
      else !r.isPlaying && !r.isSkipping && !r.isTransitioning && r.wait.Done?
  {
    if |p.songs| == 0 || p.isSkipping then p
    else if p.audio.Detached? then Reset(p)
    else
      var next := NextIndex(p.index, |p.songs|);
      var song := p.songs[next];
      var q := p.(isSkipping := true, isTransitioning := true, isLoaded := false,
                  index := next, current := song, audio := Attached(song.src, p.audio.volume));
      if ShouldAutoPlay(p.isPlaying, isMobile, userTriggered) then Attempt(q, 0, ready)
      else Reset(q.(isPlaying := false))
  }

  /** The 100 ms poll timer of a skip fires; `ready` is the element's readiness.
      A pending poll always brings the skip closer to its end: past the cap it
      ends the skip, otherwise it starts `play()` or polls once more with the
      next attempt number. Song, element, playback and loading are untouched. */
  function PollTick(p: Player, ready: bool): (r: Player)
    ensures !p.wait.Polling? ==> r == p
    ensures p.wait.Polling? && p.wait.attempt <= MaxAttempts + 1 ==> Pending(r.wait) < Pending(p.wait)
    ensures p.wait.Polling? && p.wait.attempt > MaxAttempts ==>
      !r.isSkipping && !r.isTransitioning && r.wait.Done?
    ensures p.wait.Polling? && p.wait.attempt <= MaxAttempts ==>
      && r.isSkipping == p.isSkipping && r.isTransitioning == p.isTransitioning
      && (r.wait == Starting <==> ready && p.audio.Attached?)
      && (r.wait != Starting ==> r.wait == Polling(p.wait.attempt + 1))
    ensures r.index == p.index && r.current == p.current && r.songs == p.songs
    ensures r.audio == p.audio && r.volume == p.volume
    ensures r.isPlaying == p.isPlaying && r.isLoaded == p.isLoaded
  {
    if p.wait.Polling? then Attempt(p, p.wait.attempt, ready) else p
  }

  /** The skip's `play()` call settles: success resumes playback, rejection
      stops it; either way the skip is over. */
  function PlaySettled(p: Player, ok: bool): (r: Player)
    ensures !p.wait.Starting? ==> r == p
    ensures p.wait.Starting? ==>
      && r.isPlaying == ok && !r.isSkipping && !r.isTransitioning && r.wait.Done?
      && r.index == p.index && r.current == p.current && r.isLoaded == p.isLoaded
  {
    if p.wait.Starting? then Reset(p.(isPlaying := ok)) else p
  }

  /** How much a skip still has to do; every poll and settle step shrinks it. */
  function Pending(w: Wait): nat {
    match w
    case Done => 0
    case Starting => 1
    case Polling(a) => if a <= MaxAttempts + 1 then MaxAttempts + 3 - a else 0
  }

  /** Runs a skip's outstanding work to the end: `ready(k)` is the element's
      readiness at the k-th poll and `ok` the outcome of `play()`. The work
      always ends, after at most 21 polls, with the skip flags cleared and the
      song unchanged. Playback follows `play()` when it was started; it is left
      as it was only when every attempt up to the cap found the element not
      ready, and then every attempt number was used. */
  method SettleSkip(p: Player, ready: nat -> bool, ok: bool) returns (r: Player, polls: nat, started: bool)
    requires Wf(p)
    ensures Wf(r) && r.wait.Done? && !r.isSkipping && !r.isTransitioning
    ensures r.index == p.index && r.current == p.current && r.songs == p.songs
    ensures r.audio == p.audio && r.volume == p.volume && r.isLoaded == p.isLoaded
    ensures polls <= MaxAttempts + 1
    ensures p.wait.Done? ==> r == p && polls == 0 && !started
    ensures started ==> r.isPlaying == ok
    ensures !started ==> r.isPlaying == p.isPlaying
    ensures !started && p.wait.Polling? ==>
      && polls == MaxAttempts + 2 - p.wait.attempt
      && forall k :: 0 <= k < polls && p.wait.attempt + k <= MaxAttempts ==> !ready(k)
  {
    r, polls, started := p, 0, p.wait.Starting?;
    while !r.wait.Done?
      invariant Wf(r)
      invariant r.index == p.index && r.current == p.current && r.songs == p.songs
      invariant r.audio == p.audio && r.volume == p.volume && r.isLoaded == p.isLoaded
      invariant r.wait.Polling? ==> p.wait.Polling? && r.wait.attempt == p.wait.attempt + polls
      invariant !r.wait.Polling? ==> polls <= MaxAttempts + 1
      invariant p.wait.Done? ==> r == p && polls == 0 && !started
      invariant started ==> !r.wait.Polling? && (r.wait.Starting? || r.isPlaying == ok)
      invariant !started ==> !r.wait.Starting? && r.isPlaying == p.isPlaying
      invariant !started && r.wait.Done? && p.wait.Polling? ==> polls == MaxAttempts + 2 - p.wait.attempt
      invariant !started && p.wait.Polling? ==>
        forall k :: 0 <= k < polls && p.wait.attempt + k <= MaxAttempts ==> !ready(k)
      decreases Pending(r.wait)
    {
      if r.wait.Polling? {
        var seen := ready(polls);
        assert r.wait.attempt <= MaxAttempts && seen ==> PollTick(r, seen).wait.Starting?;
        r := PollTick(r, seen);
        polls := polls + 1;
        started := r.wait.Starting?;
      } else {
        r := PlaySettled(r, ok);
      }
    }
  }

  /** `handlePlayPause`, with `played` the eventual outcome of `play()`.
      Pausing always succeeds; playing succeeds when `play()` does. When the
      current song has no source, the element is first pointed at the song
      under the index. */
  function PlayPause(p: Player, played: bool): (r: Player)
    ensures p.audio.Detached? ==> r == p
    ensures p.audio.Attached? && p.isPlaying ==> !r.isPlaying
    ensures p.audio.Attached? && !p.isPlaying ==> r.isPlaying == played
    ensures r.index == p.index && r.current == p.current && r.songs == p.songs
    ensures r.isSkipping == p.isSkipping && r.wait == p.wait && r.isLoaded == p.isLoaded
    ensures r.volume == p.volume && (r.audio.Attached? ==> r.audio.volume == p.audio.volume)
    ensures p.audio.Attached? && !p.isPlaying && p.current.src == "" && p.index < |p.songs| ==>
      r.audio == Attached(p.songs[p.index].src, p.audio.volume)
    ensures r.audio != p.audio ==>
      (r.audio.Attached? && !p.isPlaying && p.current.src == "" && p.index < |p.songs| &&
       r.audio.src == p.songs[p.index].src)
  {
    if p.audio.Detached? then p
    else if p.isPlaying then p.(isPlaying := false)
    else if p.current.src == "" && p.index < |p.songs| then
      p.(audio := p.audio.(src := p.songs[p.index].src), isPlaying := played)
    else p.(isPlaying := played)
  }

  /** `handleAudioEnd`, with `played` the eventual outcome of `play()`.
      Playback stops; with more than one song the player moves to the next one
      and, except on mobile, plays it. */
  function Ended(p: Player, isMobile: bool, played: bool): (r: Player)
    ensures isMobile ==> !r.isPlaying
    ensures |p.songs| <= 1 || p.audio.Detached? ==> r == p.(isPlaying := false)
    ensures |p.songs| > 1 && p.audio.Attached? ==>
      && r.index == NextIndex(p.index, |p.songs|) && r.current == p.songs[r.index]
      && !r.isLoaded && r.audio == Attached(r.current.src, p.audio.volume)
      && r.isPlaying == (!isMobile && played)
    ensures r.songs == p.songs && r.volume == p.volume
    ensures r.isSkipping == p.isSkipping && r.isTransitioning == p.isTransitioning && r.wait == p.wait
  {
    var stopped := p.(isPlaying := false);
    if |p.songs| > 1 && p.audio.Attached? then
      var next := NextIndex(p.index, |p.songs|);
      var song := p.songs[next];
      var moved := stopped.(index := next, current := song, isLoaded := false,
                            audio := Attached(song.src, p.audio.volume));
      if !isMobile then moved.(isPlaying := played) else moved
    else stopped
  }

  /** `handleAudioLoad`: the song is loaded; nothing else changes. */
  function Loaded(p: Player): (r: Player)
    ensures r.isLoaded && r.(isLoaded := p.isLoaded) == p
  {
    p.(isLoaded := true)
  }

  /** `handleAudioError`: playback stops and the song counts as not loaded;
      nothing else changes. */
  function Error(p: Player): (r: Player)
    ensures !r.isPlaying && !r.isLoaded
    ensures r.(isPlaying := p.isPlaying, isLoaded := p.isLoaded) == p
  {
    p.(isPlaying := false, isLoaded := false)
  }

  /** The loading failsafe, 2 s after the song started loading: the song is
      marked loaded if the element reports itself ready. */
  function Failsafe(p: Player, ready: bool): (r: Player)
    ensures r.isLoaded <==> p.isLoaded || (|p.songs| > 0 && p.audio.Attached? && ready)
    ensures r.(isLoaded := p.isLoaded) == p
  {
    if |p.songs| > 0 && p.audio.Attached? && !p.isLoaded && ready then p.(isLoaded := true) else p
  }

  /** `handleVolumeChange`: the value is stored and written to the element. */
  function SetVolume(p: Player, v: real): (r: Player)
    ensures r.volume == v
    ensures r.audio.Attached? <==> p.audio.Attached?
    ensures r.audio.Attached? ==> r.audio.volume == v && r.audio.src == p.audio.src
    ensures r.(volume := p.volume, audio := p.audio) == p
  {
    p.(volume := v, audio := if p.audio.Attached? then p.audio.(volume := v) else p.audio)
  }

  /** Everything that can happen to the player. The skip button is the only
      caller of `skipToNext` and always passes `userTriggered`. */
  datatype Event =
    | SkipClick(isMobile: bool, ready: bool)
    | Poll(ready: bool)
    | Settle(ok: bool)
    | Toggle(played: bool)
    | End(isMobile: bool, played: bool)
    | Load
    | Fail
    | Check(ready: bool)
    | Volume(v: real)

  function Step(p: Player, e: Event): Player {
    match e
    case SkipClick(isMobile, ready) => Skip(p, true, isMobile, ready)
    case Poll(ready) => PollTick(p, ready)
    case Settle(ok) => PlaySettled(p, ok)
    case Toggle(played) => PlayPause(p, played)
    case End(isMobile, played) => Ended(p, isMobile, played)
    case Load => Loaded(p)
    case Fail => Error(p)
    case Check(ready) => Failsafe(p, ready)
    case Volume(v) => SetVolume(p, v)
  }

  function Run(p: Player, es: seq<Event>): Player
    decreases |es|
  {
    if es == [] then p else Run(Step(p, es[0]), es[1..])
  }

  /** Every handler keeps the player well formed. */
  lemma StepWf(p: Player, e: Event)
    requires Wf(p)
    ensures Wf(Step(p, e))
    ensures Step(p, e).songs == p.songs
  {
  }

  /** From mount, whatever happens, the index stays in range and names the
      current song, and the skip button is disabled exactly while a skip has
      work outstanding. */
  lemma {:induction false} RunWf(p: Player, es: seq<Event>)
    requires Wf(p)
    ensures Wf(Run(p, es))
    ensures Run(p, es).songs == p.songs
    decreases |es|
  {
    if es != [] {
      StepWf(p, es[0]);
      RunWf(Step(p, es[0]), es[1..]);
    }
  }

  /** A player at rest: songs, a mounted element, paused, no skip under way. */
  ghost predicate AtRest(p: Player) {
    Wf(p) && |p.songs| > 0 && p.audio.Attached? && !p.isPlaying && !p.isSkipping
  }

  /** `k` clicks on the skip button while paused. */
  function Skips(p: Player, k: nat, isMobile: bool): Player
    decreases k
  {
    if k == 0 then p else Skips(Skip(p, true, isMobile, false), k - 1, isMobile)
  }

  lemma ModStep(i: nat, m: nat, n: nat)
    requires n > 0 && i < n
    ensures ((i + 1) % n + m) % n == (i + 1 + m) % n
  {
    if i + 1 == n {
      assert (i + 1) % n == 0;
      assert i + 1 + m == m + n * 1;
      ModShift(m, n);
    }
  }

  lemma ModShift(m: nat, n: nat)
    requires n > 0
    ensures (m + n) % n == m % n
  {
    ModUnique(m + n, n, m / n + 1, m % n);
  }

  /** Euclidean division has one remainder. */
  lemma ModUnique(x: int, n: int, q: int, r: int)
    requires n > 0 && 0 <= r < n && x == q * n + r
    ensures x % n == r
  {
    var q0, r0 := x / n, x % n;
    var d := q - q0;
    assert d * n == q * n - q0 * n;
    assert d * n == r0 - r;
    if d >= 1 {
      MulAtLeast(d, n);
    } else if d <= -1 {
      MulAtLeast(-d, n);
    }
  }

  lemma MulAtLeast(d: int, n: int)
    requires d >= 1 && n > 0
    ensures d * n >= n
  {
    var e := d - 1;
    assert d * n == e * n + n;
    assert e * n >= 0;
  }

  /** A paused skip completes at once, so `k` clicks move the index `k` places
      round the list and leave the player at rest. */
  lemma {:induction false} SkipsAdvance(p: Player, k: nat, isMobile: bool)
    requires AtRest(p)
    ensures AtRest(Skips(p, k, isMobile))
    ensures Skips(p, k, isMobile).index == (p.index + k) % |p.songs|
    ensures Skips(p, k, isMobile).songs == p.songs
    decreases k
  {
    if k > 0 {
      var q := Skip(p, true, isMobile, false);
      SkipsAdvance(q, k - 1, isMobile);
      ModStep(p.index, k - 1, |p.songs|);
    }
  }

  /** As many clicks as there are songs bring the player back to the song it
      started on. */
  lemma SkipCycle(p: Player, isMobile: bool)
    requires AtRest(p)
    ensures Skips(p, |p.songs|, isMobile).index == p.index
    ensures Skips(p, |p.songs|, isMobile).current == p.current
  {
    var n, i := |p.songs|, p.index;
    var q := Skips(p, n, isMobile);
    SkipsAdvance(p, n, isMobile);
    assert q.index == (i + n) % n && q.songs == p.songs;
    ModShift(i, n);
    ModUnique(i, n, 0, i);
  }

  /** The index after `k` moves round a list of `n` songs. */
  function Advance(i: nat, n: nat, k: nat): (j: nat)
    requires n > 0 && i < n
    ensures j == (i + k) % n
    decreases k
  {
    if k == 0 then
      ModUnique(i, n, 0, i);
      i
    else
      ModStep(i, k - 1, n);
      Advance(NextIndex(i, n), n, k - 1)
  }

  /** `n` moves round a list of `n` songs come back to the start. */
  lemma AdvanceCycle(i: nat, n: nat)
    requires n > 0 && i < n
    ensures Advance(i, n, n) == i
  {
    ModShift(i, n);
    ModUnique(i, n, 0, i);
  }

  /** A player between skips: songs, a mounted element, no skip under way;
      it may be playing or paused. */
  ghost predicate Between(p: Player) {
    Wf(p) && |p.songs| > 0 && p.audio.Attached? && !p.isSkipping
  }

  /** Whether some attempt numbered from `a` up to the cap finds the element
      ready, so that the skip's readiness poll starts `play()`. */
  predicate ReadyBy(ready: nat -> bool, a: nat)
    decreases MaxAttempts + 1 - a
  {
    a <= MaxAttempts && (ready(a) || ReadyBy(ready, a + 1))
  }

  /** Runs a skip's outstanding work to the end, with `ready(a)` the element's
      readiness at the attempt numbered `a` and `ok` the outcome of `play()`.
      Playback follows `play()` when some attempt up to the cap found the
      element ready, and is otherwise left as it was. */
  function Drain(p: Player, ready: nat -> bool, ok: bool): (r: Player)
    ensures r.wait.Done?
    ensures p.wait.Done? ==> r == p
    ensures !p.wait.Done? ==> !r.isSkipping && !r.isTransitioning
    ensures r.index == p.index && r.current == p.current && r.songs == p.songs
    ensures r.audio == p.audio && r.volume == p.volume && r.isLoaded == p.isLoaded
    ensures p.wait.Starting? ==> r.isPlaying == ok
    ensures p.wait.Polling? ==>
      r.isPlaying == (if ReadyBy(ready, p.wait.attempt) && p.audio.Attached? then ok else p.isPlaying)
    ensures Wf(p) ==> Wf(r)
    decreases Pending(p.wait)
  {
    match p.wait
    case Done => p
    case Starting => PlaySettled(p, ok)
    case Polling(a) =>
      var q := PollTick(p, ready(a));
      if q.wait.Done? then q else Drain(q, ready, ok)
  }

  /** One click on the skip button, run to the end: `ready` gives the
      element's readiness at each attempt, attempt 0 being the check made
      right after the new song starts loading. */
  function CompletedSkip(p: Player, isMobile: bool, ready: nat -> bool, ok: bool): Player {
    Drain(Skip(p, true, isMobile, ready(0)), ready, ok)
  }

  /** A completed skip moves one place round the list and leaves no skip under
      way. The player ends up playing exactly when it was playing and either
      `play()` succeeded or it was never started because no attempt up to the
      cap found the element ready. */
  lemma CompletedSkipAdvances(p: Player, isMobile: bool, ready: nat -> bool, ok: bool)
    requires Between(p)
    ensures Between(CompletedSkip(p, isMobile, ready, ok))
    ensures CompletedSkip(p, isMobile, ready, ok).songs == p.songs
    ensures CompletedSkip(p, isMobile, ready, ok).index == NextIndex(p.index, |p.songs|)
    ensures CompletedSkip(p, isMobile, ready, ok).isPlaying == (p.isPlaying && (ok || !ReadyBy(ready, 0)))
  {
    assert ReadyBy(ready, 0) == (ready(0) || ReadyBy(ready, 1));
  }

  /** `k` clicks on the skip button, each run to the end before the next;
      `ready(j)` is the element's readiness during the skip made when `j`
      clicks remain, and every `play()` settles with `ok`. */
  function SettledSkips(p: Player, k: nat, isMobile: bool, ready: nat -> nat -> bool, ok: bool): Player
    decreases k
  {
    if k == 0 then p else SettledSkips(CompletedSkip(p, isMobile, ready(k), ok), k - 1, isMobile, ready, ok)
  }

  /** Completed skips, whether playing or paused and however the element's
      readiness turns out, each move the index one place round the list. The
      player is never playing unless it was; when every skip's `play()` was
      started, it is playing exactly when it was and `play()` succeeded. */
  lemma {:induction false} SettledSkipsAdvance(p: Player, k: nat, isMobile: bool, ready: nat -> nat -> bool, ok: bool)
    requires Between(p)
    ensures Between(SettledSkips(p, k, isMobile, ready, ok))
    ensures SettledSkips(p, k, isMobile, ready, ok).songs == p.songs
    ensures SettledSkips(p, k, isMobile, ready, ok).index == Advance(p.index, |p.songs|, k)
    ensures SettledSkips(p, k, isMobile, ready, ok).isPlaying ==> p.isPlaying
    ensures k > 0 && (forall j :: 1 <= j <= k ==> ReadyBy(ready(j), 0)) ==>
      SettledSkips(p, k, isMobile, ready, ok).isPlaying == (p.isPlaying && ok)
    decreases k
  {
    if k > 0 {
      var q := CompletedSkip(p, isMobile, ready(k), ok);
      CompletedSkipAdvances(p, isMobile, ready(k), ok);
      SettledSkipsAdvance(q, k - 1, isMobile, ready, ok);
    }
  }

  /** As many completed skips as there are songs, playing or paused and
      whatever the element's readiness, bring the player back to the song it
      started on. */
  lemma SettledSkipCycle(p: Player, isMobile: bool, ready: nat -> nat -> bool, ok: bool)
    requires Between(p)
    ensures SettledSkips(p, |p.songs|, isMobile, ready, ok).index == p.index
    ensures SettledSkips(p, |p.songs|, isMobile, ready, ok).current == p.current
  {
    SettledSkipsAdvance(p, |p.songs|, isMobile, ready, ok);
    AdvanceCycle(p.index, |p.songs|);
  }

  /** A skip that resumes playback on an element that is already ready starts
      `play()` at once; when it settles the player is on the next song, the
      skip is over, and it is playing exactly when `play()` succeeded. */
  lemma SkipThenSettle(p: Player, isMobile: bool, ok: bool)
    requires AtRest(p.(isPlaying := false)) && p.isPlaying
    ensures var q := Skip(p, true, isMobile, true);
      && q.wait == Starting
      && PlaySettled(q, ok).isPlaying == ok
      && !PlaySettled(q, ok).isSkipping
      && PlaySettled(q, ok).index == NextIndex(p.index, |p.songs|)
  {
  }
}
