/**
 The system "now playing" player. It keeps the current track, the published
 playback state, and the coarse status last reported by the system, and
 updates them in response to status events, now-playing info records and
 explicit re-queries. Each handler is a function from the old record to the
 new one; a `Step` also says whether the handler asked for a re-query
 (`updatePlayerState()`), whose answer arrives later as another event.
 */
module SystemMedia {
  import opened Wrappers
  import opened Dictionaries
  import opened Playback
  import opened MediaRemoteHelper

  /** The system's raw playback status codes. */
  datatype SystemPlaybackState = Terminated | Playing | Paused | Stopped {
    function RawValue(): int {
      if Terminated? then 0
      else if Playing? then 1
      else if Paused? then 2
      else 3
    }
  }

  /** `SystemPlaybackState(rawValue:)` */
  function FromRaw(raw: int): (r: Option<SystemPlaybackState>)
    ensures r.Some? <==> 0 <= raw <= 3
    ensures r.Some? ==> r.value.RawValue() == raw
  {
    if raw == 0 then Some(SystemPlaybackState.Terminated)
    else if raw == 1 then Some(SystemPlaybackState.Playing)
    else if raw == 2 then Some(SystemPlaybackState.Paused)
    else if raw == 3 then Some(SystemPlaybackState.Stopped)
    else None
  }

  /** Every status survives the trip through its raw code. */
  lemma RawRoundTrip(s: SystemPlaybackState)
    ensures FromRaw(s.RawValue()) == Some(s)
  {
  }

  /** The application that currently owns "now playing". */
  datatype Client = Client(bundleIdentifier: Option<string>, parentApplicationBundleIdentifier: Option<string>)

  datatype State = State(
    currentTrack: Option<MusicTrack>,
    playbackState: PlaybackState,
    systemPlaybackState: Option<SystemPlaybackState>,
    allowsApplicationBundleIdentifiers: seq<string>,
    usesAdapter: bool)

  /** The record after a handler, and whether the handler called `updatePlayerState()`. */
  datatype Step = Step(next: State, requery: bool)

  /** The userInfo key of a status notification. */
  const PlaybackStateUserInfoKey := "kMRMediaRemotePlaybackStateUserInfoKey"

  /** The userInfo key that asks the adapter's info reply to set the coarse status too. */
  const SetSystemPlaybackStateKey := "setSystemPlaybackState"

  /** The record with no track, stopped, after a missing info record or a status that is not playing or paused. */
  function Cleared(m: State): (r: State)
    ensures r.currentTrack.None? && r.playbackState == PlaybackState.Stopped
    ensures r.systemPlaybackState == m.systemPlaybackState
    ensures r.allowsApplicationBundleIdentifiers == m.allowsApplicationBundleIdentifiers
    ensures r.usesAdapter == m.usesAdapter
  {
    m.(currentTrack := None, playbackState := PlaybackState.Stopped)
  }

  /**
   Construction. With the adapter, listening starts and a query is sent whose
   reply will also set the coarse status. Without it, construction fails when
   the media service is not loaded; otherwise it only registers for
   notifications and asks whether something is playing (see `HandleIsPlaying`).
   */
  function Init(allow: seq<string>, usesAdapter: bool, available: bool): (r: Option<Step>)
    ensures r.None? <==> !usesAdapter && !available
    ensures r.Some? ==> r.value.requery == usesAdapter
    ensures r.Some? ==> && r.value.next.currentTrack.None?
                        && r.value.next.playbackState == PlaybackState.Stopped
                        && r.value.next.systemPlaybackState.None?
                        && r.value.next.allowsApplicationBundleIdentifiers == allow
                        && r.value.next.usesAdapter == usesAdapter
  {
    var m := State(None, PlaybackState.Stopped, None, allow, usesAdapter);
    if usesAdapter then Some(Step(m, true))
    else if !available then None
    else Some(Step(m, false))
  }

  /** The answer to "is the now-playing application playing?" asked at construction. */
  function HandleIsPlaying(m: State, isPlaying: bool): (r: Step)
    ensures r.requery
    ensures r.next.systemPlaybackState == Some(if isPlaying then SystemPlaybackState.Playing else SystemPlaybackState.Paused)
    ensures r.next == m.(systemPlaybackState := r.next.systemPlaybackState)
  {
    Step(m.(systemPlaybackState := Some(if isPlaying then SystemPlaybackState.Playing else SystemPlaybackState.Paused)), true)
  }

  /**
   The state an info record implies under the coarse status: playing from the
   info's start instant, paused at its elapsed time, and stopped when the
   status is anything else or the info lacks the elapsed time.
   */
  function CandidateState(status: Option<SystemPlaybackState>, info: NowPlayingInfo, now: real): (r: PlaybackState)
    ensures r.Playing? <==> status == Some(SystemPlaybackState.Playing) && info.ElapsedTime().Some?
    ensures r.Playing? ==> r.start + info.ElapsedTime().value == info.Timestamp().GetOr(now)
    ensures r.Paused? <==> status == Some(SystemPlaybackState.Paused) && info.ElapsedTime().Some?
    ensures r.Paused? ==> r.time == info.ElapsedTime().value
  {
    if status == Some(SystemPlaybackState.Playing) then
      match StartTime(info, now)
      case Some(start) => PlaybackState.Playing(start)
      case None => PlaybackState.Stopped
    else if status == Some(SystemPlaybackState.Paused) then
      match info.ElapsedTime()
      case Some(elapsed) => PlaybackState.Paused(elapsed)
      case None => PlaybackState.Stopped
    else PlaybackState.Stopped
  }

  /**
   The estimator: under a playing status the candidate's elapsed time at any
   instant is the info's elapsed time plus the time since its timestamp;
   under a paused status it is the info's elapsed time, whatever `now` is.
   */
  lemma CandidateStateEstimates(info: NowPlayingInfo, now: real)
    requires info.ElapsedTime().Some? && info.Timestamp().Some?
    ensures var elapsed := info.ElapsedTime().value;
            var ts := info.Timestamp().value;
            && CandidateState(Some(SystemPlaybackState.Playing), info, now) == PlayingAt(elapsed + (now - ts), now)
            && CandidateState(Some(SystemPlaybackState.Paused), info, now) == PlaybackState.Paused(elapsed)
  {
    var c := CandidateState(Some(SystemPlaybackState.Playing), info, now);
    assert c.start == info.Timestamp().value - info.ElapsedTime().value;
  }

  /**
   `_handleNowPlayingInfoDidChange`: the state goes through the gate, and the
   track is replaced only when the info's id differs from the current one
   (a missing id counts as an id); a same-id info keeps the old track value.
   */
  function HandleInfo(m: State, info: NowPlayingInfo, ops: StateOps, tol: real, now: real): (r: State)
    ensures r.playbackState == Debounce(ops, m.playbackState, CandidateState(m.systemPlaybackState, info, now), tol)
    ensures IdOf(r.currentTrack) == IdOf(Track(info))
    ensures IdOf(m.currentTrack) == Id(info) ==> r.currentTrack == m.currentTrack
    ensures IdOf(m.currentTrack) != Id(info) ==> r.currentTrack == Track(info)
    ensures r.systemPlaybackState == m.systemPlaybackState
    ensures r.allowsApplicationBundleIdentifiers == m.allowsApplicationBundleIdentifiers
    ensures r.usesAdapter == m.usesAdapter
  {
    var state := Debounce(ops, m.playbackState, CandidateState(m.systemPlaybackState, info, now), tol);
    var newTrack := Track(info);
    var track := if IdOf(newTrack) != IdOf(m.currentTrack) then newTrack else m.currentTrack;
    m.(playbackState := state, currentTrack := track)
  }

  /** Handling the same info twice at the same instant is the same as handling it once. */
  lemma HandleInfoIdempotent(m: State, info: NowPlayingInfo, ops: StateOps, tol: real, now: real)
    requires ValidOps(ops) && 0.0 < tol
    ensures var once := HandleInfo(m, info, ops, tol, now);
            HandleInfo(once, info, ops, tol, now) == once
  {
    var once := HandleInfo(m, info, ops, tol, now);
    var twice := HandleInfo(once, info, ops, tol, now);
    DebounceIdempotent(ops, m.playbackState, CandidateState(m.systemPlaybackState, info, now), tol);
    assert twice.playbackState == once.playbackState;
    assert twice.currentTrack == once.currentTrack;
  }

  /** `handleNowPlayingInfoDidChange(for: CFDictionary?)`: a missing record clears. */
  function HandleInfoDict(m: State, infoDict: Option<Dict>, ops: StateOps, tol: real, now: real): (r: State)
    ensures infoDict.None? ==> r == Cleared(m)
    ensures infoDict.Some? ==> r == HandleInfo(m, NowPlayingInfo(infoDict.value), ops, tol, now)
  {
    match infoDict
    case None => Cleared(m)
    case Some(d) => HandleInfo(m, NowPlayingInfo(d), ops, tol, now)
  }

  /** Handling the same dictionary twice, present or missing, is the same as handling it once. */
  lemma HandleInfoDictIdempotent(m: State, infoDict: Option<Dict>, ops: StateOps, tol: real, now: real)
    requires ValidOps(ops) && 0.0 < tol
    ensures var once := HandleInfoDict(m, infoDict, ops, tol, now);
            HandleInfoDict(once, infoDict, ops, tol, now) == once
  {
    if infoDict.Some? {
      HandleInfoIdempotent(m, NowPlayingInfo(infoDict.value), ops, tol, now);
    }
  }

  /**
   `handleNowPlayingInfoDidChange(for: TrackInfo?, userInfo:)`, the adapter's
   info reply: a missing record clears; a reply to a query that asked for it
   first sets the coarse status from `isPlaying` (anything but true is paused).
   */
  function HandleTrackInfo(m: State, trackInfo: Option<TrackInfo>, userInfoKeys: Option<set<string>>,
                           decodeBase64: string -> Option<seq<bv8>>, ops: StateOps, tol: real, now: real): (r: State)
    ensures trackInfo.None? ==> r == Cleared(m)
    ensures trackInfo.Some? ==>
              var status := if userInfoKeys.Some? && SetSystemPlaybackStateKey in userInfoKeys.value
                            then Some(if trackInfo.value.isPlaying == Some(true) then SystemPlaybackState.Playing else SystemPlaybackState.Paused)
                            else m.systemPlaybackState;
              r == HandleInfo(m.(systemPlaybackState := status),
                              NowPlayingInfo(AsDictionary(trackInfo.value, decodeBase64)), ops, tol, now)
  {
    match trackInfo
    case None => Cleared(m)
    case Some(ti) =>
      var m1 := if userInfoKeys.Some? && SetSystemPlaybackStateKey in userInfoKeys.value
                then m.(systemPlaybackState := Some(if ti.isPlaying == Some(true) then SystemPlaybackState.Playing else SystemPlaybackState.Paused))
                else m;
      HandleInfo(m1, NowPlayingInfo(AsDictionary(ti, decodeBase64)), ops, tol, now)
  }

  /**
   `_handleNowPlayingApplicationPlaybackStateDidChange`: the raw code becomes
   the coarse status; playing or paused only asks for a re-query, anything
   else (terminated, stopped, an unknown code or none) clears.
   */
  function HandleStatus(m: State, raw: Option<int>): (r: Step)
    ensures r.next.systemPlaybackState == (if raw.Some? then FromRaw(raw.value) else None)
    ensures r.requery <==> r.next.systemPlaybackState == Some(SystemPlaybackState.Playing) || r.next.systemPlaybackState == Some(SystemPlaybackState.Paused)
    ensures r.requery ==> r.next.currentTrack == m.currentTrack && r.next.playbackState == m.playbackState
    ensures !r.requery ==> r.next.currentTrack.None? && r.next.playbackState == PlaybackState.Stopped
    ensures r.next.allowsApplicationBundleIdentifiers == m.allowsApplicationBundleIdentifiers
    ensures r.next.usesAdapter == m.usesAdapter
  {
    var status := match raw case Some(x) => FromRaw(x) case None => None;
    var m1 := m.(systemPlaybackState := status);
    if status == Some(SystemPlaybackState.Playing) || status == Some(SystemPlaybackState.Paused) then Step(m1, true)
    else Step(Cleared(m1), false)
  }

  /** `handleNowPlayingApplicationPlaybackStateDidChange(for: Notification)`: no userInfo clears. */
  function HandleStatusNotification(m: State, userInfo: Option<Dict>): (r: Step)
    ensures userInfo.None? ==> r == Step(Cleared(m), false)
    ensures userInfo.Some? ==> r == HandleStatus(m, IntValue(userInfo.value, PlaybackStateUserInfoKey))
  {
    match userInfo
    case None => Step(Cleared(m), false)
    case Some(info) => HandleStatus(m, IntValue(info, PlaybackStateUserInfoKey))
  }

  /**
   An adapter reply to the query that asked for the status, reporting that
   something is playing with microsecond timestamp and elapsed time, makes the
   status playing and offers the gate the playing state that started at
   timestamp minus elapsed, in seconds.
   */
  lemma AdapterPlayingReply(m: State, ti: TrackInfo, userInfoKeys: set<string>,
                            decodeBase64: string -> Option<seq<bv8>>, ops: StateOps, tol: real, now: real)
    requires SetSystemPlaybackStateKey in userInfoKeys && ti.isPlaying == Some(true)
    requires ti.timestampEpochMicros.Some? && ti.elapsedTimeMicros.Some?
    ensures var r := HandleTrackInfo(m, Some(ti), Some(userInfoKeys), decodeBase64, ops, tol, now);
            var start := (ti.timestampEpochMicros.value - ti.elapsedTimeMicros.value) / 1000000.0;
            && r.systemPlaybackState == Some(SystemPlaybackState.Playing)
            && r.playbackState == Debounce(ops, m.playbackState, PlaybackState.Playing(start), tol)
  {
    var info := NowPlayingInfo(AsDictionary(ti, decodeBase64));
    AsDictionaryConvertsTimes(ti, decodeBase64);
    var c := CandidateState(Some(SystemPlaybackState.Playing), info, now);
    assert c.start == info.Timestamp().value - info.ElapsedTime().value;
  }

  /** A status value that is not an integer is no status at all, so it clears. */
  lemma NonIntegralStatusClears(m: State, x: real)
    requires x != x.Floor as real
    ensures var r := HandleStatusNotification(m, Some(map[PlaybackStateUserInfoKey := Number(x)]));
            && r.next.systemPlaybackState.None?
            && r.next.currentTrack.None? && r.next.playbackState == PlaybackState.Stopped
            && !r.requery
  {
  }

  /** Raw status 3 (stopped) clears the track and state exactly as 0 (terminated) does. */
  lemma StoppedClearsLikeTerminated(m: State)
    ensures var a := HandleStatus(m, Some(SystemPlaybackState.Stopped.RawValue()));
            var b := HandleStatus(m, Some(SystemPlaybackState.Terminated.RawValue()));
            a.next.currentTrack == b.next.currentTrack == None
            && a.next.playbackState == b.next.playbackState == PlaybackState.Stopped
            && a.requery == b.requery == false
  {
  }

  /**
   After a status that clears, an info record brings back its track but the
   state stays stopped, whatever the gate does: the coarse status no longer
   says playing or paused.
   */
  lemma InfoAfterClearingStatusStaysStopped(m: State, raw: Option<int>, info: NowPlayingInfo, ops: StateOps, tol: real, now: real)
    requires !HandleStatus(m, raw).requery
    ensures var r := HandleInfo(HandleStatus(m, raw).next, info, ops, tol, now);
            r.playbackState == PlaybackState.Stopped && r.currentTrack == Track(info)
  {
    var cleared := HandleStatus(m, raw).next;
    assert CandidateState(cleared.systemPlaybackState, info, now) == PlaybackState.Stopped;
    if Id(info).None? {
      assert Track(info) == None;
    }
  }

  /** The id the allow-list is checked against: the parent application's when there is one. */
  function EffectiveBundleIdentifier(c: Client): (id: Option<string>)
    requires c.bundleIdentifier.Some?
    ensures id.Some?
    ensures c.parentApplicationBundleIdentifier.Some? ==> id == c.parentApplicationBundleIdentifier
    ensures c.parentApplicationBundleIdentifier.None? ==> id == c.bundleIdentifier
  {
    match c.parentApplicationBundleIdentifier
    case Some(parent) => Some(parent)
    case None => c.bundleIdentifier
  }

  /**
   Whether `updatePlayerState()` goes on to fetch the info for this client.
   No client: never. An empty allow-list or a client without a bundle id is
   not filtered (a parent id alone is ignored). Otherwise the effective id
   must be listed.
   */
  function ShouldFetchInfo(allow: seq<string>, client: Option<Client>): (r: bool)
    ensures client.None? ==> !r
    ensures client.Some? && (|allow| == 0 || client.value.bundleIdentifier.None?) ==> r
    ensures client.Some? && |allow| > 0 && client.value.bundleIdentifier.Some? ==>
              (r <==> (if client.value.parentApplicationBundleIdentifier.Some?
                       then client.value.parentApplicationBundleIdentifier.value
                       else client.value.bundleIdentifier.value) in allow)
  {
    match client
    case None => false
    case Some(c) =>
      if c.bundleIdentifier.Some? && |allow| > 0 then EffectiveBundleIdentifier(c).value in allow
      else true
  }

  /**
   `updatePlayerState()` without the adapter: ask for the now-playing client,
   check it against the allow-list, then fetch and handle the info record.
   With the adapter the query goes to the adapter and its reply arrives
   through `HandleTrackInfo`, so nothing changes here.
   */
  function UpdatePlayerState(m: State, client: Option<Client>, infoDict: Option<Dict>, ops: StateOps, tol: real, now: real): (r: State)
    ensures m.usesAdapter || !ShouldFetchInfo(m.allowsApplicationBundleIdentifiers, client) ==> r == m
    ensures !m.usesAdapter && ShouldFetchInfo(m.allowsApplicationBundleIdentifiers, client) ==>
              r == HandleInfoDict(m, infoDict, ops, tol, now)
  {
    if m.usesAdapter then m
    else if !ShouldFetchInfo(m.allowsApplicationBundleIdentifiers, client) then m
    else HandleInfoDict(m, infoDict, ops, tol, now)
  }

  /** A client whose effective bundle id is not allowed changes nothing, whatever info is on offer. */
  lemma DisallowedClientIgnored(m: State, c: Client, infoDict: Option<Dict>, ops: StateOps, tol: real, now: real)
    requires |m.allowsApplicationBundleIdentifiers| > 0 && c.bundleIdentifier.Some?
    requires EffectiveBundleIdentifier(c).value !in m.allowsApplicationBundleIdentifiers
    ensures UpdatePlayerState(m, Some(c), infoDict, ops, tol, now) == m
  {
  }

  /** The `playbackTime` setter: the seek goes to the adapter or the media service, and the local state takes the new time. */
  function SetPlaybackTime(m: State, time: real, ops: StateOps, now: real): (r: State)
    ensures r.playbackState == ops.withTime(m.playbackState, time, now)
    ensures r == m.(playbackState := r.playbackState)
  {
    m.(playbackState := ops.withTime(m.playbackState, time, now))
  }

  /** Reading `playbackTime` right after setting it gives the time set, unless stopped. */
  lemma PlaybackTimeAfterSet(m: State, time: real, ops: StateOps, now: real)
    requires ValidOps(ops) && !m.playbackState.Stopped?
    ensures PlaybackTime(ops, SetPlaybackTime(m, time, ops, now).playbackState, now) == time
  {
  }
}
