/**
 The value types every player publishes: `MusicTrack`, `PlaybackState`, and
 the `(isRunning, currentTrack, playbackState)` record kept by the
 scripting-bridge controllers.

 `PlaybackState.approximateEqual(to:tolerate:)`, `time` and `withTime(_:)`
 are defined outside the modelled files, so they are carried as the fields of
 a `StateOps` record of total functions; `ValidOps` collects the only facts
 about them that the call sites rely on. Times are real seconds, instants
 are real seconds since 1970, and the clock is the explicit argument `now`.
 */
module Playback {
  import opened Wrappers

  /** A decoded cover image, represented by the bytes it was decoded from. */
  datatype Artwork = Artwork(data: seq<bv8>)

  /** A file or stream locator: `URL(fileURLWithPath:)` or `URL(string:)`. */
  datatype Url = FileUrl(path: string) | WebUrl(text: string)

  datatype MusicTrack = MusicTrack(
    id: string,
    title: Option<string>,
    album: Option<string>,
    artist: Option<string>,
    duration: Option<real>,
    url: Option<Url>,
    artwork: Option<Artwork>)

  /** Playing is anchored at the instant playback started; paused is frozen at an elapsed time. */
  datatype PlaybackState = Stopped | Playing(start: real) | Paused(time: real)

  /** `PlaybackState.playing(time:)`: playing with `time` seconds elapsed at `now`. */
  function PlayingAt(time: real, now: real): (s: PlaybackState)
    ensures s.Playing?
    ensures now - s.start == time
  {
    Playing(now - time)
  }

  /** `track?.id` */
  function IdOf(track: Option<MusicTrack>): (id: Option<string>)
    ensures id.Some? <==> track.Some?
    ensures id.Some? ==> id.value == track.value.id
  {
    match track
    case Some(t) => Some(t.id)
    case None => None
  }

  /** The helpers of `PlaybackState` that are not part of this model. */
  datatype StateOps = StateOps(
    approxEqual: (PlaybackState, PlaybackState, real) -> bool, // (current, other, tolerance)
    time: (PlaybackState, real) -> real,                       // (state, now)
    withTime: (PlaybackState, real, real) -> PlaybackState)    // (state, time, now)

  /** What the call sites assume: a state is approximately equal to itself,
      and a non-stopped state given a time reports that time back. */
  ghost predicate ValidOps(ops: StateOps) {
    && (forall s: PlaybackState, tol: real | 0.0 < tol :: ops.approxEqual(s, s, tol))
    && (forall s: PlaybackState, t: real, now: real | !s.Stopped? :: ops.time(ops.withTime(s, t, now), now) == t)
  }

  /**
   The state-update gate: the current state is replaced by the candidate only
   when the two are not approximately equal within `tol`. This is the body of
   the SystemMedia info handler's state update, and it is also how the
   controllers' `setPlaybackState(_:tolerate:)` is modelled.
   */
  function Debounce(ops: StateOps, current: PlaybackState, candidate: PlaybackState, tol: real): (r: PlaybackState)
    ensures ops.approxEqual(current, candidate, tol) ==> r == current
    ensures !ops.approxEqual(current, candidate, tol) ==> r == candidate
  {
    if ops.approxEqual(current, candidate, tol) then current else candidate
  }

  /** Whatever the gate keeps is approximately equal to the candidate. */
  lemma DebounceWithinTolerance(ops: StateOps, current: PlaybackState, candidate: PlaybackState, tol: real)
    requires ValidOps(ops) && 0.0 < tol
    ensures ops.approxEqual(Debounce(ops, current, candidate, tol), candidate, tol)
  {
    if !ops.approxEqual(current, candidate, tol) {
      assert ops.approxEqual(candidate, candidate, tol);
    }
  }

  /** Gating the same candidate twice changes nothing the second time. */
  lemma DebounceIdempotent(ops: StateOps, current: PlaybackState, candidate: PlaybackState, tol: real)
    requires ValidOps(ops) && 0.0 < tol
    ensures var once := Debounce(ops, current, candidate, tol);
            Debounce(ops, once, candidate, tol) == once
  {
    DebounceWithinTolerance(ops, current, candidate, tol);
  }

  /** The record `MusicPlayerController` keeps for a scripting-bridge player. */
  datatype Controller = Controller(isRunning: bool, currentTrack: Option<MusicTrack>, playbackState: PlaybackState)

  /** A controller after a seek, with the position handed to the application (none when it was not asked). */
  datatype Seek<P> = Seek(next: Controller, sentPosition: Option<P>)

  /** The `playbackTime` getter shared by every player: `playbackState.time`. */
  function PlaybackTime(ops: StateOps, state: PlaybackState, now: real): real {
    ops.time(state, now)
  }
}
