# Portfolio site state machines, in Dafny

This project models the logic that sits inside the UI components of a personal
portfolio site. Each component is written as pure step functions over an
immutable state record. Pending timeouts are an explicit queue of timers keyed
by milliseconds.

- **Page-transition coordinator** (`PageTransition`). A request gate over
  `isTransitioning`, `showTransition`, `isReady` and the current path. An
  accepted request shows the overlay and registers one navigation 1200 ms
  later. The completion handler hides the overlay at once and clears the busy
  flag 200 ms later. The page is locked while the overlay is shown.
- **Transition animator** (`MarioTransition`). The phase chain
  `idle → jumping → hitting → complete` with delays of 100, 700 and 500 ms,
  then the completion callback 600 ms after `complete`. Also what the overlay
  renders in each phase: coins, the `+100` popup, the status line, and the
  filters the mobile profile drops.
- **Timer queue** (`Timers`). Registered timeouts kept in the order the event
  loop runs them.
- **Track player** (`VinylPlayer`). A wrap-around track index. A skip guarded
  against re-entry, whose autoplay path polls readiness at most 21 times.
  Handlers for end of track, play/pause, load, error, the loading failsafe and
  volume.
- **Typing effect** (`TypingAnimation`). Type one character per timeout, hold
  the full word for two seconds, delete one character per timeout, then move to
  the next word. Bounds are cut with JavaScript `substring` clamping.
- **Song configuration** (`Songs`). The map from file-name records to playable
  tracks, and the five shipped entries.

The coordinator and the animator share one `Site` state and one timer queue.
Composing them gives the timeline of a transition: navigation at +1200 ms,
overlay off at +1900 ms, and new requests accepted again from +2100 ms
(`PageTransition.TransitionTimeline`).

The following are inputs, not state, because they come from the browser:

- whether the audio element is ready;
- the outcome of `play()`;
- whether the device is mobile.

Two behaviours of the code are easy to miss, and the model keeps both:

- **Animator cues are never cancelled.** The animator's effect returns no
  cleanup, so hiding the overlay does not cancel the pending phase changes or
  the completion callback.
- **Giving up on readiness leaves `isPlaying` as it was.** When the skip's
  readiness poll gives up (attempt number above 20), the code only re-enables
  the skip button. `isPlaying` keeps the value it had when the poll gave up.
  It is not set to `false` (`VinylPlayer.SettleSkip`).

## Model

| member | source | states |
|---|---|---|
| `Timers.ScheduleContents` | ajay-portfolio/src/components/ui/page-transition-provider.tsx:62-65 | registering a timeout adds exactly that timer to the pending set and drops none |
| `Timers.ScheduleSorted` | ajay-portfolio/src/components/ui/page-transition-provider.tsx:73-75 | registering a timeout keeps the pending timers in the order they will run |
| `Timers.ScheduleStable` | ajay-portfolio/src/components/ui/page-transition-provider.tsx:62-65 | in a sorted queue a new timer goes in after every timer due no later and before every timer due strictly later, so equal deadlines run in registration order |
| `MarioTransition.OnEnter` | ajay-portfolio/src/components/ui/mario-transition.tsx:34-51 | entering a phase schedules the following phase (one rank higher) for every phase but `complete`, which schedules the callback instead; every delay is positive |
| `MarioTransition.OnVisibility` | ajay-portfolio/src/components/ui/mario-transition.tsx:26-35 | the phase resets to `idle` whether or not the overlay is visible; a sequence starts only when visible, with `jumping` 100 ms away |
| `MarioTransition.Chain` | ajay-portfolio/src/components/ui/mario-transition.tsx:32-52 | from any phase, every cue but the last enters the next phase in rank order and the last is the one callback; the first comes after the phase's own delay and the times strictly increase |
| `MarioTransition.SequenceTimeline` | ajay-portfolio/src/components/ui/mario-transition.tsx:34-51 | one visible cycle enters jumping at 100, hitting at 800 and complete at 1300 ms, each once and in order, and calls back once at 1900 ms; each entry time is where the reference timeline switches phase |
| `MarioTransition.View` | ajay-portfolio/src/components/ui/mario-transition.tsx:57-307 | nothing is rendered iff the overlay is hidden; exactly 4 coins and the `+100` popup iff hitting, none otherwise; `COMPLETE!` iff complete, `LOADING...` otherwise; no completion blur on mobile |
| `MarioTransition.MobileOnlyChangesFilters` | ajay-portfolio/src/components/ui/mario-transition.tsx:68-78 | the mobile and desktop renders agree except for the blur, drop-shadow and scanline filters |
| `PageTransition.Init` | ajay-portfolio/src/components/ui/page-transition-provider.tsx:28-42 | on mount no flag is set, nothing is locked or pushed, and the only pending timer is readiness at 100 ms |
| `PageTransition.Admit` | ajay-portfolio/src/components/ui/page-transition-provider.tsx:44-55 | a request is accepted iff it targets another path, nothing is in flight, the overlay is hidden and the provider is ready; a request for the current path is recognised first |
| `PageTransition.Request` | ajay-portfolio/src/components/ui/page-transition-provider.tsx:44-66 | a rejected request changes nothing at all; an accepted one raises both flags, locks the page and restarts the animator, and pushes nothing yet |
| `PageTransition.RequestSchedules` | ajay-portfolio/src/components/ui/page-transition-provider.tsx:58-65 | an accepted request adds exactly two timers: one navigation to `href` at +1200 ms and the animator's first cue at +100 ms |
| `PageTransition.Complete` | ajay-portfolio/src/components/ui/page-transition-provider.tsx:68-78 | completion hides the overlay at once and leaves the busy flag raised; hiding releases the lock and resets the animator |
| `PageTransition.CompleteSchedules` | ajay-portfolio/src/components/ui/page-transition-provider.tsx:73-75 | completion adds exactly one timer, clearing the busy flag 200 ms later |
| `PageTransition.EnterSchedules` | ajay-portfolio/src/components/ui/mario-transition.tsx:34-51 | entering a phase adds exactly the animator's next cue |
| `PageTransition.Perform` | ajay-portfolio/src/components/ui/page-transition-provider.tsx:37-78 | the readiness timer only sets `isReady`; the navigation only changes the path and appends one push; the cooldown only clears `isTransitioning`; the callback is completion; a phase cue changes the phase and registers the animator's next cue, leaving the coordinator, lock and pushes alone |
| `PageTransition.Fire` | ajay-portfolio/src/components/ui/page-transition-provider.tsx:62-65 | the earliest pending timer runs: the clock moves to its deadline, which no other pending timer precedes, the timer leaves the queue, and its action takes effect (readiness, navigation and push, end of cooldown, completion, or phase change); with none pending nothing happens |
| `PageTransition.FireAnimates` | ajay-portfolio/src/components/ui/mario-transition.tsx:34-51 | a firing animator timer leaves the queue and exactly one timer replaces it: the next cue, or after the callback the cooldown at +200 ms |
| `PageTransition.Wait` | ajay-portfolio/src/components/ui/page-transition-provider.tsx:38-40 | time passes without changing anything else, never backwards and never past the next deadline |
| `PageTransition.Step` | ajay-portfolio/src/components/ui/page-transition-provider.tsx:37-42 | no event clears readiness |
| `PageTransition.Unmount` | ajay-portfolio/src/components/ui/page-transition-provider.tsx:106-114 | unmounting releases the lock and clears the readiness timer; every other pending timer survives, no timer is added, deadline order is kept, and nothing else changes |
| `PageTransition.WithoutReady` | ajay-portfolio/src/components/ui/page-transition-provider.tsx:41 | the cleared queue holds every non-readiness timer of the input and nothing else, and stays in deadline order when the input was |
| `PageTransition.WithoutReadyOne` | ajay-portfolio/src/components/ui/page-transition-provider.tsx:41 | clearing removes a lone readiness timer and keeps any other timer |
| `PageTransition.WithoutReadyAppend` | ajay-portfolio/src/components/ui/page-transition-provider.tsx:41 | clearing a queue clears each part in place, so every kept timer keeps its multiplicity and relative order, ties included |
| `PageTransition.UnmountTwice` | ajay-portfolio/src/components/ui/page-transition-provider.tsx:41 | unmounting an already unmounted page changes nothing more |
| `PageTransition.RequestInv` | ajay-portfolio/src/components/ui/page-transition-provider.tsx:44-66 | a request preserves the invariant: queue in order, lock iff overlay, one animator cue exactly while showing, one cooldown exactly while cooling down |
| `PageTransition.PerformInv` | ajay-portfolio/src/components/ui/page-transition-provider.tsx:37-78 | every timer firing preserves the same invariant |
| `PageTransition.Reachable` | ajay-portfolio/src/components/ui/page-transition-provider.tsx:28-115 | in every reachable state the overlay is shown only while a transition is in flight, the lock is held iff the overlay is shown, and readiness never precedes 100 ms |
| `PageTransition.StepMonotone` | ajay-portfolio/src/components/ui/page-transition-provider.tsx:37-42 | once ready, always ready; the clock never runs backwards |
| `PageTransition.ReadyAfterDelay` | ajay-portfolio/src/components/ui/page-transition-provider.tsx:37-42 | after mounting, the first timer to fire makes the provider ready, at exactly 100 ms |
| `PageTransition.TransitionTimeline` | ajay-portfolio/src/components/ui/page-transition-provider.tsx:58-78 | from a settled page an accepted request jumps at +100, hits at +800, pushes `href` once at +1200, completes at +1300, hides the overlay and unlocks at +1900, and settles at +2100; the busy flag stays raised until then, so the gate blocks every request in between |
| `VinylPlayer.Init` | ajay-portfolio/src/components/ui/vinyl-player.tsx:22-30 | on mount: paused, not loaded, 30% volume, index 0 on the first song, or the placeholder with no source when there are none |
| `VinylPlayer.NextIndex` | ajay-portfolio/src/components/ui/vinyl-player.tsx:54 | the next index is in range: the following song, or the first after the last |
| `VinylPlayer.Reset` | ajay-portfolio/src/components/ui/vinyl-player.tsx:48-51 | both skip flags are cleared and nothing else changes |
| `VinylPlayer.Attempt` | ajay-portfolio/src/components/ui/vinyl-player.tsx:76-98 | past attempt 20 the skip ends; a ready element starts `play()`; otherwise the next attempt is polled; playback, song and element are untouched |
| `VinylPlayer.Skip` | ajay-portfolio/src/components/ui/vinyl-player.tsx:42-108 | no-op with no songs or during a skip; without an element only the flags are cleared; otherwise the index advances with wrap-around, the new song is loaded and not yet loaded, and playback resumes iff it was playing and either the device is not mobile or the user asked for the skip, else it stops and ends the skip |
| `VinylPlayer.PollTick` | ajay-portfolio/src/components/ui/vinyl-player.tsx:94-97 | a pending poll always shrinks the skip's outstanding work: past attempt 20 it ends the skip; otherwise it starts `play()` iff the element is mounted and ready, else polls again with the next attempt number; song, element, playback and loading are untouched |
| `VinylPlayer.PlaySettled` | ajay-portfolio/src/components/ui/vinyl-player.tsx:83-93 | when the skip's `play()` settles, playback follows its outcome and the skip ends on both success and rejection |
| `VinylPlayer.SettleSkip` | ajay-portfolio/src/components/ui/vinyl-player.tsx:76-99 | every exit path of a skip clears both flags, after at most 21 polls, without changing the song; playback follows `play()` if it started, else stays as it was after every attempt up to the cap found the element not ready |
| `VinylPlayer.PlayPause` | ajay-portfolio/src/components/ui/vinyl-player.tsx:129-163 | with an element, pausing stops playback and playing follows `play()`; when the current song has no source, the source of the song under the index is written to the element before playing, and in no other case does the element's source change |
| `VinylPlayer.Ended` | ajay-portfolio/src/components/ui/vinyl-player.tsx:201-232 | end of track stops playback; with more than one song it advances and unloads; it plays the next song only off mobile, so on mobile playback never resumes |
| `VinylPlayer.Loaded` | ajay-portfolio/src/components/ui/vinyl-player.tsx:165-167 | the loaded signal sets `isLoaded` and nothing else |
| `VinylPlayer.Error` | ajay-portfolio/src/components/ui/vinyl-player.tsx:169-173 | the error signal clears both `isPlaying` and `isLoaded` and nothing else |
| `VinylPlayer.Failsafe` | ajay-portfolio/src/components/ui/vinyl-player.tsx:176-186 | after the failsafe the song counts as loaded iff it already was, or songs exist, the element is mounted and it reports ready |
| `VinylPlayer.SetVolume` | ajay-portfolio/src/components/ui/vinyl-player.tsx:110-116 | a volume change stores the same value in state and on the element, and changes nothing else |
| `VinylPlayer.StepWf` | ajay-portfolio/src/components/ui/vinyl-player.tsx:42-244 | every handler keeps the index in range and naming the current song, and keeps the skip flags equal to each other and set exactly while a skip is in progress |
| `VinylPlayer.RunWf` | ajay-portfolio/src/components/ui/vinyl-player.tsx:27-30 | the same holds after any sequence of events |
| `VinylPlayer.SkipsAdvance` | ajay-portfolio/src/components/ui/vinyl-player.tsx:54-64 | `k` skips while paused move the index to `(i + k) mod n` and leave the player at rest |
| `VinylPlayer.SkipCycle` | ajay-portfolio/src/components/ui/vinyl-player.tsx:54 | `n` skips while paused return to the starting index and song |
| `VinylPlayer.Advance` | ajay-portfolio/src/components/ui/vinyl-player.tsx:54 | `k` moves of the index from `i` land on `(i + k) mod n` |
| `VinylPlayer.AdvanceCycle` | ajay-portfolio/src/components/ui/vinyl-player.tsx:54 | `n` moves round `n` songs return to the starting index |
| `VinylPlayer.Drain` | ajay-portfolio/src/components/ui/vinyl-player.tsx:76-99 | a skip's outstanding work always runs to the end, clearing the skip flags if any work was pending and leaving the song, element and loading untouched; a pending `play()` decides playback, and from a pending poll playback follows `play()` iff some attempt up to 20 finds the element mounted and ready, else stays as it was |
| `VinylPlayer.CompletedSkipAdvances` | ajay-portfolio/src/components/ui/vinyl-player.tsx:42-99 | one click run to the end moves the index one place with wrap-around; the player is playing iff it was and either `play()` succeeded or no attempt found the element ready |
| `VinylPlayer.SettledSkipsAdvance` | ajay-portfolio/src/components/ui/vinyl-player.tsx:42-99 | `k` skip clicks, each run to the end whatever the element's readiness at each attempt, playing or paused, move the index `k` places round the list and leave no skip under way; the player is never playing unless it was, and when every skip's `play()` was started it is playing iff it was and `play()` succeeded |
| `VinylPlayer.SettledSkipCycle` | ajay-portfolio/src/components/ui/vinyl-player.tsx:42-99 | `n` completed skips, playing or paused and whatever the element's readiness, return to the starting index and song |
| `VinylPlayer.SkipThenSettle` | ajay-portfolio/src/components/ui/vinyl-player.tsx:72-93 | a skip while playing with a ready element leaves playback as `play()` decides, on the next song, with the skip over |
| `TypingAnimation.Substring` | ajay-portfolio/src/components/ui/typing-animation.tsx:22 | `substring` agrees with slicing for in-range bounds in either order and gives the empty string for non-positive bounds |
| `TypingAnimation.SubstringPrefix` | ajay-portfolio/src/components/ui/typing-animation.tsx:29 | cutting from 0 gives a prefix whose length is the clamped bound, so `length - 1` on empty text gives empty text |
| `TypingAnimation.Init` | ajay-portfolio/src/components/ui/typing-animation.tsx:12-15 | the effect starts on the first word, typing, with empty text and a negative first delay |
| `TypingAnimation.Step` | ajay-portfolio/src/components/ui/typing-animation.tsx:17-40 | the new text is a prefix of the new word; typing adds exactly the next character and registers the hold iff the word is complete; deleting removes exactly the last character; deleting from empty text switches to typing the next word, wrapping |
| `TypingAnimation.Next` | ajay-portfolio/src/components/ui/typing-animation.tsx:25-27 | once the word is complete, the hold turns to deleting with the text unchanged |
| `TypingAnimation.Steps` | ajay-portfolio/src/components/ui/typing-animation.tsx:34 | the word index stays in range |
| `TypingAnimation.StepsKeepPrefix` | ajay-portfolio/src/components/ui/typing-animation.tsx:22-29 | the text is a prefix of the shown word after any number of timeouts |
| `TypingAnimation.TypeUp` | ajay-portfolio/src/components/ui/typing-animation.tsx:22-23 | `k` typing timeouts extend the text by exactly `k` characters of the word |
| `TypingAnimation.DeleteDown` | ajay-portfolio/src/components/ui/typing-animation.tsx:29-30 | `k` deleting timeouts remove exactly `k` trailing characters |
| `TypingAnimation.WordCycle` | ajay-portfolio/src/components/ui/typing-animation.tsx:17-40 | a non-empty word is typed, held, deleted and followed by the next word (wrapping) in exactly `2·length + 2` timeouts |
| `Songs.Resolve` | ajay-portfolio/src/config/songs.ts:53-55 | a track's source is the audio folder followed by the file name; title and artist are copied |
| `Songs.EntryOf` | ajay-portfolio/src/config/songs.ts:53 | a track's entry is recovered iff its source lies in the audio folder, and resolving it gives the track back |
| `Songs.EntryOfResolve` | ajay-portfolio/src/config/songs.ts:52-56 | recovering the entry of a resolved entry gives it back unchanged |
| `Songs.ResolveAll` | ajay-portfolio/src/config/songs.ts:52-56 | the track list has the entries' length and order; each track has the folder-prefixed source and the entry's labels |
| `Songs.ResolveAllAppend` | ajay-portfolio/src/config/songs.ts:52 | deriving the list commutes with appending entries |
| `Songs.ResolveAllInjective` | ajay-portfolio/src/config/songs.ts:52-56 | different entry lists never give the same track list |
| `Songs.ShippedSongsFacts` | ajay-portfolio/src/config/songs.ts:4-49 | the shipped list has five tracks, all with a source, from `song1.mp3` to `song5.mp3` |

## Left out

- Console logging and the debug-logging effect are left out: they have no effect on state.
- The lock effect's inline-style and class writes to `body` and `html` are reduced to one `locked` flag.
- React scheduling is left out. Each event sees the state the previous event committed. Render batching, stale closures and effect ordering inside one commit are not modelled.
- Visual detail is left out: framer-motion keyframes, easing, durations, sprite motion, and the random coin offsets. The render keeps only the frame facts that depend on the phase or on the mobile flag.
- Viewport and user-agent sniffing, and the resize listener, are left out. `isMobile` is a boolean input.
- The player's touch handlers are left out: they only prevent scrolling.
- Static pages, the layout, the footer, the bubble navigation, the particle background and the scroll indicator are not part of this model.
- The context object and the `usePageTransition` hook are left out: they only pass the coordinator's values through.
- The player has no clock. The skip's 100 ms poll timer, the 2 s loading failsafe and `play()` settling are events (`Poll`, `Check`, `Settle`) that happen whenever the caller says. Only their order is modelled.
- `VinylPlayer.PlayPause` replaces the unbounded readiness poll and the `play()` promise with their eventual outcome (`played`), applied at once. This is because that poll has no attempt cap. The model makes no claim that it terminates.
- `VinylPlayer.Ended` does the same for the end-of-track readiness poll, which also has no cap.
- `VinylPlayer.Init` writes the source and volume to the element at mount. This stands in for the mount effects and the element's `src` attribute. It does not model the element reloading.
- The typing effect has no clock. `Step` records the next timeout's delay (`speed`) but does not model its timing. Negative delays run at once in a browser.
- `TypingAnimation.Next` merges the timeout that registers the two-second hold with the hold firing. This assumes the `words` array keeps its identity, so that the effect does not run again during the hold; parent re-renders are not modelled. The parent passes a new array literal on every render and re-renders when an image is clicked. A click during the hold would re-run the effect, register a second hold, and could cut the next word short.
- `TypingAnimation.Next`, for an empty word: the source changes the delay on the registering timeout, runs the effect once more and registers a second hold. The model does not follow that case.
- `TypingAnimation.Step` requires the word index to be in range, as the source does: an empty word list makes it read past the list and throw.
- Timer cancellation is left out because the source has none for the navigation and the animator cues. The readiness timer's cleanup is `PageTransition.Unmount`.
- The router push and the path change are one step (`Navigate`): the new path is taken as soon as the navigation timer fires, without modelling the router loading the page.
- The skip button is the only caller of `skipToNext`, and it always passes `userTriggered = true`, so `Event.SkipClick` does too. `VinylPlayer.Skip` keeps the parameter.
- Text is a sequence of Unicode characters, not of UTF-16 code units as in JavaScript. For a word with characters outside the Basic Multilingual Plane, `TypingAnimation.TypeUp`, `TypingAnimation.DeleteDown` and `TypingAnimation.WordCycle` count one timeout per character where the browser counts one per code unit, and the intermediate texts holding half a surrogate pair are not modelled. The shipped words are ASCII.
- `VinylPlayer.SkipCycle` is stated for a paused player only; completed skips while playing, with any readiness of the element, are `VinylPlayer.SettledSkipCycle`.
