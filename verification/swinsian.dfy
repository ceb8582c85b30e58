/**
 The Swinsian controller: playing, paused and stopped notifications from the
 application update the track and state; the state goes through the gate
 with a one-second tolerance.
 */
module Swinsian {
  import opened Wrappers
  import opened Playback
  import Conversions

  datatype PlayerState = Stopped | Playing | Paused | Unknown(raw: int)

  datatype Track = Track(
    id: Option<string>,
    name: Option<string>,
    album: Option<string>,
    artist: Option<string>,
    duration: Option<real>,
    path: Option<string>,
    albumArt: Option<Artwork>)

  /** What the application reports; its position is a whole number of seconds. */
  datatype App = App(currentTrack: Option<Track>, playerState: PlayerState, playerPosition: int)

  /** The tolerance the notification handlers pass to the gate. */
  const Tolerance: real := 1.0

  /** The application's track; a track without an id gets the empty id. */
  function CurrentTrack(app: App): (r: Option<MusicTrack>)
    ensures r.None? <==> app.currentTrack.None?
    ensures r.Some? ==> && r.value.id == app.currentTrack.value.id.GetOr("")
                        && r.value.title == app.currentTrack.value.name
                        && r.value.album == app.currentTrack.value.album
                        && r.value.artist == app.currentTrack.value.artist
                        && r.value.duration == app.currentTrack.value.duration
                        && (r.value.url.Some? <==> app.currentTrack.value.path.Some?)
                        && (r.value.url.Some? ==> r.value.url.value == WebUrl(app.currentTrack.value.path.value))
                        && r.value.artwork == app.currentTrack.value.albumArt
  {
    match app.currentTrack
    case None => None
    case Some(t) =>
      var url := match t.path case Some(p) => Some(WebUrl(p)) case None => None;
      Some(MusicTrack(t.id.GetOr(""), t.name, t.album, t.artist, t.duration, url, t.albumArt))
  }

  /** The application's state: playing or paused at its position, stopped otherwise. */
  function AppPlaybackState(app: App, now: real): (r: PlaybackState)
    ensures r.Playing? <==> app.playerState.Playing?
    ensures r.Paused? <==> app.playerState.Paused?
    ensures r.Stopped? <==> app.playerState.Stopped? || app.playerState.Unknown?
    ensures r.Playing? ==> now - r.start == app.playerPosition as real
    ensures r.Paused? ==> r.time == app.playerPosition as real
  {
    match app.playerState
    case Stopped => PlaybackState.Stopped
    case Playing => PlayingAt(app.playerPosition as real, now)
    case Paused => PlaybackState.Paused(app.playerPosition as real)
    case Unknown(_) => PlaybackState.Stopped
  }

  /**
   The state is anchored: while playing, the position advanced by `d` and
   sampled `d` seconds later gives the same state; while paused or stopped
   the state does not depend on when it is sampled.
   */
  lemma AppPlaybackStateAnchored(app: App, now: real, d: int)
    ensures app.playerState.Playing? ==>
              AppPlaybackState(app.(playerPosition := app.playerPosition + d), now + d as real) == AppPlaybackState(app, now)
    ensures !app.playerState.Playing? ==>
              forall later: real :: AppPlaybackState(app, later) == AppPlaybackState(app, now)
  {
  }

  /** Construction: a running application's track and state are taken over as they are. */
  function Init(isRunning: bool, app: App, now: real): (r: Controller)
    ensures r.isRunning == isRunning
    ensures isRunning ==> r.currentTrack == CurrentTrack(app) && r.playbackState == AppPlaybackState(app, now)
    ensures !isRunning ==> r.currentTrack.None? && r.playbackState == PlaybackState.Stopped
  {
    if isRunning then Controller(true, CurrentTrack(app), AppPlaybackState(app, now))
    else Controller(false, None, PlaybackState.Stopped)
  }

  /** The playing notification: the state goes through the gate, then the track is replaced whatever its id. */
  function HandlePlaying(c: Controller, app: App, ops: StateOps, now: real): (r: Controller)
    ensures r.playbackState == Debounce(ops, c.playbackState, AppPlaybackState(app, now), Tolerance)
    ensures r.currentTrack == CurrentTrack(app)
    ensures r.isRunning == c.isRunning
  {
    c.(playbackState := Debounce(ops, c.playbackState, AppPlaybackState(app, now), Tolerance),
       currentTrack := CurrentTrack(app))
  }

  /** The paused notification: the state goes through the gate and the track is left alone. */
  function HandlePaused(c: Controller, app: App, ops: StateOps, now: real): (r: Controller)
    ensures r.playbackState == Debounce(ops, c.playbackState, AppPlaybackState(app, now), Tolerance)
    ensures r.currentTrack == c.currentTrack
    ensures r.isRunning == c.isRunning
  {
    c.(playbackState := Debounce(ops, c.playbackState, AppPlaybackState(app, now), Tolerance))
  }

  /** The stopped notification: stopped, with no track. */
  function HandleStopped(c: Controller): (r: Controller)
    ensures r.playbackState == PlaybackState.Stopped && r.currentTrack.None?
    ensures r.isRunning == c.isRunning
  {
    c.(playbackState := PlaybackState.Stopped, currentTrack := None)
  }

  /** After a playing or paused notification the state is within the tolerance of the application's. */
  lemma NotificationsTrackAppState(c: Controller, app: App, ops: StateOps, now: real)
    requires ValidOps(ops)
    ensures ops.approxEqual(HandlePlaying(c, app, ops, now).playbackState, AppPlaybackState(app, now), Tolerance)
    ensures ops.approxEqual(HandlePaused(c, app, ops, now).playbackState, AppPlaybackState(app, now), Tolerance)
  {
    DebounceWithinTolerance(ops, c.playbackState, AppPlaybackState(app, now), Tolerance);
  }

  /**
   The `playbackTime` setter: ignored while not running; otherwise the
   application is sent the whole seconds of the new time (truncated) while
   the local state takes the exact time.
   */
  function SetPlaybackTime(c: Controller, time: real, ops: StateOps, now: real): (r: Seek<int>)
    ensures !c.isRunning ==> r.next == c && r.sentPosition.None?
    ensures c.isRunning ==> && r.sentPosition == Some(Conversions.Truncate(time))
                            && r.next == c.(playbackState := ops.withTime(c.playbackState, time, now))
  {
    if !c.isRunning then Seek(c, None)
    else Seek(c.(playbackState := ops.withTime(c.playbackState, time, now)), Some(Conversions.Truncate(time)))
  }

  /**
   After a seek to a non-negative time on a running, non-stopped player, the
   local time is exact while the application got less than one second less.
   */
  lemma SeekTruncatesOnlyForApp(c: Controller, time: real, ops: StateOps, now: real)
    requires ValidOps(ops) && c.isRunning && !c.playbackState.Stopped? && 0.0 <= time
    ensures var s := SetPlaybackTime(c, time, ops, now);
            && PlaybackTime(ops, s.next.playbackState, now) == time
            && s.sentPosition.Some?
            && s.sentPosition.value as real <= time < s.sentPosition.value as real + 1.0
  {
  }
}
