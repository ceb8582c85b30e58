/**
 The Audirvana controller: the application's scripting properties are read
 into a track id, a track and a playback state, and a player-info
 notification either replaces the track (new id) or only nudges the state
 through the gate (same id).
 */
module Audirvana {
  import opened Wrappers
  import opened Dictionaries
  import opened Playback

  datatype PlayerState = Stopped | Playing | Paused | Unknown(raw: int)

  /**
   What the application reports. `playingTrackDurationText` is the
   application's `playingTrackDuration.description`, taken as given.
   */
  datatype App = App(
    playingTrackTitle: Option<string>,
    playingTrackAlbum: Option<string>,
    playingTrackArtist: Option<string>,
    playingTrackDuration: real,
    playingTrackDurationText: string,
    playingTrackAirfoilLogo: Option<seq<bv8>>,
    playerState: PlayerState,
    playerPosition: real)

  const IdPrefix := "Audirvana-"

  /** The userInfo key of a player-info notification that carries the track's file path. */
  const PlayingTrackUrlKey := "PlayingTrackURL"

  /** The id synthesised from title, album and the duration's text; none without a title. */
  function CurrentTrackId(app: App): (id: Option<string>)
    ensures id.None? <==> app.playingTrackTitle.None?
    ensures id.Some? ==>
              var title := app.playingTrackTitle.value;
              var album := app.playingTrackAlbum.GetOr("");
              && |IdPrefix| + |title| + 2 <= |id.value|
              && id.value[..|IdPrefix|] == IdPrefix
              && id.value[|IdPrefix|..|IdPrefix| + |title|] == title
              && id.value[|IdPrefix| + |title|..] == "-" + album + "-" + app.playingTrackDurationText
  {
    match app.playingTrackTitle
    case None => None
    case Some(title) =>
      var id := IdPrefix + title + "-" + app.playingTrackAlbum.GetOr("") + "-" + app.playingTrackDurationText;
      assert id[|IdPrefix| + |title|..] == "-" + app.playingTrackAlbum.GetOr("") + "-" + app.playingTrackDurationText;
      Some(id)
  }

  /**
   The id depends only on title, album and duration text: a notification
   that follows a handled one and differs only in player state, position,
   artist or logo keeps the track.
   */
  lemma PlaybackChangesKeepTrack(c: Controller, app: App, app2: App, userInfo: Option<Dict>, userInfo2: Option<Dict>,
                                 ops: StateOps, tol: real, now: real, now2: real)
    requires app2.playingTrackTitle == app.playingTrackTitle
    requires app2.playingTrackAlbum == app.playingTrackAlbum
    requires app2.playingTrackDurationText == app.playingTrackDurationText
    ensures var once := PlayerInfoNotification(c, app, userInfo, ops, tol, now);
            PlayerInfoNotification(once, app2, userInfo2, ops, tol, now2).currentTrack == once.currentTrack
  {
    assert CurrentTrackId(app2) == CurrentTrackId(app);
  }

  /** The application's track; none exactly when there is no id, and it carries that id. */
  function CurrentTrack(app: App): (r: Option<MusicTrack>)
    ensures r.None? <==> CurrentTrackId(app).None?
    ensures IdOf(r) == CurrentTrackId(app)
    ensures r.Some? ==> && r.value.title == app.playingTrackTitle
                        && r.value.album == app.playingTrackAlbum
                        && r.value.artist == app.playingTrackArtist
                        && r.value.duration == Some(app.playingTrackDuration)
                        && r.value.url.None?
                        && (r.value.artwork.Some? <==> app.playingTrackAirfoilLogo.Some?)
                        && (r.value.artwork.Some? ==> r.value.artwork.value.data == app.playingTrackAirfoilLogo.value)
  {
    match CurrentTrackId(app)
    case None => None
    case Some(id) =>
      var artwork := match app.playingTrackAirfoilLogo case Some(data) => Some(Artwork(data)) case None => None;
      Some(MusicTrack(id, app.playingTrackTitle, app.playingTrackAlbum, app.playingTrackArtist,
                      Some(app.playingTrackDuration), None, artwork))
  }

  /** The application's state: playing or paused at its position, stopped otherwise. */
  function AppPlaybackState(app: App, now: real): (r: PlaybackState)
    ensures r.Playing? <==> app.playerState.Playing?
    ensures r.Paused? <==> app.playerState.Paused?
    ensures r.Stopped? <==> app.playerState.Stopped? || app.playerState.Unknown?
    ensures r.Playing? ==> now - r.start == app.playerPosition
    ensures r.Paused? ==> r.time == app.playerPosition
  {
    match app.playerState
    case Stopped => PlaybackState.Stopped
    case Playing => PlayingAt(app.playerPosition, now)
    case Paused => PlaybackState.Paused(app.playerPosition)
    case Unknown(_) => PlaybackState.Stopped
  }

  /**
   The state is anchored: while playing, the position advanced by `d` and
   sampled `d` seconds later gives the same state; while paused or stopped
   the state does not depend on when it is sampled.
   */
  lemma AppPlaybackStateAnchored(app: App, now: real, d: real)
    ensures app.playerState.Playing? ==>
              AppPlaybackState(app.(playerPosition := app.playerPosition + d), now + d) == AppPlaybackState(app, now)
    ensures !app.playerState.Playing? ==>
              forall later: real :: AppPlaybackState(app, later) == AppPlaybackState(app, now)
  {
  }

  /** Construction: a running application's track and state are taken over as they are. */
  function Init(isRunning: bool, app: App, now: real): (r: Controller)
    ensures r.isRunning == isRunning
    ensures isRunning ==> r.currentTrack == CurrentTrack(app) && r.playbackState == AppPlaybackState(app, now)
    ensures !isRunning ==> r.currentTrack.None? && r.playbackState == PlaybackState.Stopped
  {
    if isRunning then Controller(true, CurrentTrack(app), AppPlaybackState(app, now))
    else Controller(false, None, PlaybackState.Stopped)
  }

  /** The periodic `updatePlaybackTime` hook: a running application's state goes through the gate. */
  function UpdatePlaybackTime(c: Controller, app: App, ops: StateOps, tol: real, now: real): (r: Controller)
    ensures !c.isRunning ==> r == c
    ensures c.isRunning ==> r == c.(playbackState := Debounce(ops, c.playbackState, AppPlaybackState(app, now), tol))
  {
    if !c.isRunning then c
    else c.(playbackState := Debounce(ops, c.playbackState, AppPlaybackState(app, now), tol))
  }

  /** The track with its `url` set from the notification's path, when one is given. */
  function WithNotifiedUrl(track: Option<MusicTrack>, userInfo: Option<Dict>): (r: Option<MusicTrack>)
    ensures IdOf(r) == IdOf(track)
    ensures r.Some? && userInfo.Some? && StringValue(userInfo.value, PlayingTrackUrlKey).Some? ==>
              r.value == track.value.(url := Some(FileUrl(StringValue(userInfo.value, PlayingTrackUrlKey).value)))
    ensures userInfo.None? || StringValue(userInfo.value, PlayingTrackUrlKey).None? ==> r == track
  {
    match track
    case None => None
    case Some(t) =>
      if userInfo.Some? && StringValue(userInfo.value, PlayingTrackUrlKey).Some?
      then Some(t.(url := Some(FileUrl(StringValue(userInfo.value, PlayingTrackUrlKey).value))))
      else track
  }

  /**
   `playerInfoNotification`: ignored while not running; a new id replaces the
   track and sets the state outright; the same id (both missing counts as the
   same) keeps the track and sends the state through the gate.
   */
  function PlayerInfoNotification(c: Controller, app: App, userInfo: Option<Dict>, ops: StateOps, tol: real, now: real): (r: Controller)
    ensures !c.isRunning ==> r == c
    ensures r.isRunning == c.isRunning
    ensures c.isRunning ==> IdOf(r.currentTrack) == CurrentTrackId(app)
    ensures c.isRunning && CurrentTrackId(app) != IdOf(c.currentTrack) ==>
              r.currentTrack == WithNotifiedUrl(CurrentTrack(app), userInfo)
              && r.playbackState == AppPlaybackState(app, now)
    ensures c.isRunning && CurrentTrackId(app) == IdOf(c.currentTrack) ==>
              r.currentTrack == c.currentTrack
              && r.playbackState == Debounce(ops, c.playbackState, AppPlaybackState(app, now), tol)
  {
    if !c.isRunning then c
    else if CurrentTrackId(app) != IdOf(c.currentTrack) then
      c.(currentTrack := WithNotifiedUrl(CurrentTrack(app), userInfo), playbackState := AppPlaybackState(app, now))
    else c.(playbackState := Debounce(ops, c.playbackState, AppPlaybackState(app, now), tol))
  }

  /** A repeated notification with unchanged application data changes nothing more. */
  lemma PlayerInfoNotificationIdempotent(c: Controller, app: App, userInfo: Option<Dict>, ops: StateOps, tol: real, now: real)
    requires ValidOps(ops) && 0.0 < tol
    ensures var once := PlayerInfoNotification(c, app, userInfo, ops, tol, now);
            PlayerInfoNotification(once, app, userInfo, ops, tol, now) == once
  {
    var once := PlayerInfoNotification(c, app, userInfo, ops, tol, now);
    var candidate := AppPlaybackState(app, now);
    if c.isRunning {
      if CurrentTrackId(app) != IdOf(c.currentTrack) {
        assert ops.approxEqual(candidate, candidate, tol);
      } else {
        DebounceIdempotent(ops, c.playbackState, candidate, tol);
      }
    }
  }

  /** The `playbackTime` setter: ignored while not running; otherwise the application is sent the new position and the state takes the new time. */
  function SetPlaybackTime(c: Controller, time: real, ops: StateOps, now: real): (r: Seek<real>)
    ensures !c.isRunning ==> r.next == c && r.sentPosition.None?
    ensures c.isRunning ==> r.sentPosition == Some(time)
                            && r.next == c.(playbackState := ops.withTime(c.playbackState, time, now))
  {
    if !c.isRunning then Seek(c, None)
    else Seek(c.(playbackState := ops.withTime(c.playbackState, time, now)), Some(time))
  }

  /** After a seek on a running, non-stopped player, `playbackTime` reads back the position sent. */
  lemma PlaybackTimeAfterSet(c: Controller, time: real, ops: StateOps, now: real)
    requires ValidOps(ops) && c.isRunning && !c.playbackState.Stopped?
    ensures var s := SetPlaybackTime(c, time, ops, now);
            s.sentPosition == Some(PlaybackTime(ops, s.next.playbackState, now))
  {
  }
}
