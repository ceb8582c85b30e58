# Now-playing normalisation of the MusicPlayer library, in Dafny

This project models how the MusicPlayer library reduces raw "now playing" data to one
`(currentTrack, playbackState)` pair. The data comes from three kinds of source:

- **SystemMedia** (`Sources/MusicPlayer/Players/SystemMedia.swift`) is the system's
  now-playing service, reached through the private media-remote calls or, on newer systems,
  through the media-remote adapter. It maps a raw status code to a coarse
  `SystemPlaybackState`. A status other than playing or paused clears the track and state.
  A now-playing info record becomes a `PlaybackState`: playing from a start instant, paused
  at an elapsed time, or stopped. The state is replaced only when it is not approximately
  equal to the old one, and the track only when its id changes. Sources can be filtered by a
  bundle-identifier allow-list, where a parent application's id overrides the client's own.
- **The now-playing info decoder** (`Sources/MusicPlayer/Utilities/MediaRemoteHelper.swift`)
  reads typed fields out of the info dictionary. It derives the track id, the start instant
  and the `MusicTrack`. It also converts the adapter's `TrackInfo` into the same dictionary
  shape, turning microseconds into seconds.
- **Two scripting-bridge controllers**, `Audirvana` and `Swinsian`
  (`Sources/MusicPlayer/Mac/`). Each maps the application's player state to a
  `PlaybackState` and builds a track. Each reacts to the application's notifications and
  implements a `playbackTime` setter that does nothing while the application is not running.

Every handler is a pure function from the old state record to the new one. Times are real
seconds, instants are real seconds since 1970, and the current time is an explicit `now`
argument. Several `PlaybackState` helpers are defined in files outside this model:
`approximateEqual(to:tolerate:)`, `time` and `withTime(_:)`. They are fields of the
`Playback.StateOps` parameter. `Playback.ValidOps` states the only two facts the lemmas
assume about them:

- every state is approximately equal to itself for a positive tolerance;
- setting a non-stopped state's time and reading it back gives that time.

Tolerances are explicit arguments.

Modules: `Wrappers` (optionals), `Conversions` (`Int.description` with an inverse parser,
and `Int(Double)` truncation), `Dictionaries` (Foundation dictionaries and `as?` casts),
`Playback` (tracks, states, the state gate, the controller record), `MediaRemoteHelper`,
`SystemMedia`, `Audirvana`, `Swinsian`.

The model follows the code as written; in particular:

- An info record whose track id equals the current one keeps the old track value. It does
  not replace it with the newly decoded one.
- Raw status 3 (stopped), an unknown code and a missing code all clear the track exactly
  like 0 (terminated).
- After such a clearing status, later info records bring a track back, but the state stays
  stopped until a playing or paused status arrives (`SystemMedia.InfoAfterClearingStatusStaysStopped`).
- A Swinsian playing notification replaces the track whatever its id.
- Swinsian's notification handlers do not check whether the application is running.

## Model

| member | source | states |
|---|---|---|
| Conversions.Description | Sources/MusicPlayer/Utilities/MediaRemoteHelper.swift:72 | `Int.description` is non-empty, starts with a minus sign exactly for negative values, and the digits after it have no leading zero unless the number is 0; with `DescriptionRoundTrip` this fixes the canonical numeral |
| Conversions.DescriptionRoundTrip | Sources/MusicPlayer/Utilities/MediaRemoteHelper.swift:71-72 | the decimal rendering of an integer used as a track id parses back to that integer |
| Conversions.DescriptionInjective | Sources/MusicPlayer/Utilities/MediaRemoteHelper.swift:71-72 | distinct unique identifiers give distinct ids |
| Conversions.Truncate | Sources/MusicPlayer/Utilities/MediaRemoteHelper.swift:74 | `Int(_:)` of a Double is its integer part: within one below a non-negative value, within one above a negative one |
| Dictionaries.IntValue | Sources/MusicPlayer/Utilities/MediaRemoteHelper.swift:30-32 | an `as? Int` read yields a value exactly when the key holds an integral number within the 64-bit range, and that number is the value |
| Dictionaries.DoubleValue | Sources/MusicPlayer/Utilities/MediaRemoteHelper.swift:38-40 | an `as? TimeInterval` read yields a value exactly when the key holds a number, and it is that number |
| Dictionaries.DateValue | Sources/MusicPlayer/Utilities/MediaRemoteHelper.swift:34-36 | an `as? Date` read yields a value exactly when the key holds a date, and it is that instant |
| Dictionaries.DataValue | Sources/MusicPlayer/Utilities/MediaRemoteHelper.swift:66-68 | an `as? Data` read yields a value exactly when the key holds data, and it is those bytes |
| Dictionaries.StringValue | Sources/MusicPlayer/Utilities/MediaRemoteHelper.swift:30-32 | an `as? String` read yields a value exactly when the key holds a string, and it is that string |
| Dictionaries.Put | Sources/MusicPlayer/Utilities/MediaRemoteHelper.swift:10-18 | storing an optional into a mutable dictionary sets the key when present, leaves it absent when nil, and touches no other key |
| Playback.PlayingAt | Sources/MusicPlayer/Mac/Audirvana.swift:142 | `.playing(time:)` is a playing state whose elapsed time at `now` is the given time |
| Playback.Debounce | Sources/MusicPlayer/Players/SystemMedia.swift:124-126 | the state is kept when approximately equal to the candidate and replaced by the candidate otherwise |
| Playback.DebounceWithinTolerance | Sources/MusicPlayer/Players/SystemMedia.swift:124-126 | whatever the gate keeps is approximately equal to the candidate |
| Playback.DebounceIdempotent | Sources/MusicPlayer/Players/SystemMedia.swift:124-126 | gating the same candidate twice changes nothing the second time |
| MediaRemoteHelper.TitleId | Sources/MusicPlayer/Utilities/MediaRemoteHelper.swift:73-74 | a title-based id is "NowPlaying-", the title, "-", the album or empty, "-", and the decimal whole seconds of the duration or 0; so it ends in "-0" without a duration |
| MediaRemoteHelper.TitleIdDurationParsesBack | Sources/MusicPlayer/Utilities/MediaRemoteHelper.swift:74 | the last segment of a title-based id parses back as the truncated duration, or 0 without one |
| MediaRemoteHelper.Id | Sources/MusicPlayer/Utilities/MediaRemoteHelper.swift:70-78 | no id exactly when both unique identifier and title are missing; with a unique identifier the id is its decimal string, which reads back as it; otherwise the title-based id |
| MediaRemoteHelper.IdSourcesDisjoint | Sources/MusicPlayer/Utilities/MediaRemoteHelper.swift:70-78 | an id from a unique identifier never equals a title-based id |
| MediaRemoteHelper.UniqueIdentifierIdsAgree | Sources/MusicPlayer/Utilities/MediaRemoteHelper.swift:71-72 | two infos with unique identifiers have equal ids if and only if the identifiers are equal |
| MediaRemoteHelper.StartTime | Sources/MusicPlayer/Utilities/MediaRemoteHelper.swift:80-90 | no start instant exactly when elapsed is missing; otherwise start plus elapsed is the timestamp, or `now` without one |
| MediaRemoteHelper.ArtworkImage | Sources/MusicPlayer/Utilities/MediaRemoteHelper.swift:92-97 | artwork exactly when artwork data is present, decoded from that data |
| MediaRemoteHelper.Track | Sources/MusicPlayer/Utilities/MediaRemoteHelper.swift:99-104 | no track exactly when there is no id; otherwise the track carries the id and the decoded title, album, artist, duration and artwork, and no url |
| MediaRemoteHelper.AsDictionary | Sources/MusicPlayer/Utilities/MediaRemoteHelper.swift:8-19 | the adapter record fills only the title, album, artist, timestamp, elapsed, artwork and unique-identifier keys, never duration or start time |
| MediaRemoteHelper.AsDictionaryRoundTrip | Sources/MusicPlayer/Utilities/MediaRemoteHelper.swift:11-17 | title, album, artist and unique identifier written by `asDictionary` are read back unchanged |
| MediaRemoteHelper.AsDictionaryConvertsTimes | Sources/MusicPlayer/Utilities/MediaRemoteHelper.swift:14-16 | timestamp and elapsed read back as the microsecond values divided by 1,000,000, absent stays absent, the artwork data is the Base64 decoding when it succeeds and absent otherwise, and duration reads back absent |
| MediaRemoteHelper.AdapterTitleIdEndsInZero | Sources/MusicPlayer/Utilities/MediaRemoteHelper.swift:10-18 | without a unique identifier, an adapter record with a title gets a "NowPlaying-" id ending in "-0" |
| SystemMedia.FromRaw | Sources/MusicPlayer/Players/SystemMedia.swift:245-250 | a raw code gives a status exactly for 0 to 3, and that status's raw value is the code |
| SystemMedia.RawRoundTrip | Sources/MusicPlayer/Players/SystemMedia.swift:245-250 | each status is recovered from its raw value |
| SystemMedia.Init | Sources/MusicPlayer/Players/SystemMedia.swift:41-68 | construction fails only without the adapter and without the media service; it starts stopped with no track and no status, and with the adapter it queries at once |
| SystemMedia.HandleIsPlaying | Sources/MusicPlayer/Players/SystemMedia.swift:62-66 | the is-playing answer sets the status to playing or paused, changes nothing else, and queries |
| SystemMedia.CandidateStateEstimates | Sources/MusicPlayer/Players/SystemMedia.swift:115-123 | with a timestamp, the playing candidate is playing with elapsed time plus the time since the timestamp at `now`; the paused candidate is paused at the elapsed time |
| SystemMedia.CandidateState | Sources/MusicPlayer/Players/SystemMedia.swift:115-123 | playing from the info's start instant when the status is playing, paused at the elapsed time when paused; stopped otherwise or when elapsed is missing |
| SystemMedia.HandleInfo | Sources/MusicPlayer/Players/SystemMedia.swift:114-132 | the state goes through the gate; afterwards the current id is the info's id; the track is replaced exactly when the ids differ, and a same-id info keeps the old track |
| SystemMedia.HandleInfoIdempotent | Sources/MusicPlayer/Players/SystemMedia.swift:124-131 | handling the same info twice at the same instant equals handling it once |
| SystemMedia.HandleInfoDict | Sources/MusicPlayer/Players/SystemMedia.swift:105-112 | a missing info record forces stopped with no track; a present one is handled as an info |
| SystemMedia.HandleInfoDictIdempotent | Sources/MusicPlayer/Players/SystemMedia.swift:105-112 | handling the same dictionary twice, present or missing, equals handling it once |
| SystemMedia.AdapterPlayingReply | Sources/MusicPlayer/Players/SystemMedia.swift:89-99 | an adapter reply that asked for the status and says playing makes the status playing and offers the gate a playing state that started at timestamp minus elapsed, converted from microseconds |
| SystemMedia.HandleTrackInfo | Sources/MusicPlayer/Players/SystemMedia.swift:89-99 | a missing adapter record forces stopped with no track; a reply to a query that asked for it first sets the status from `isPlaying`; the record is then handled through its dictionary |
| SystemMedia.HandleStatus | Sources/MusicPlayer/Players/SystemMedia.swift:144-152 | the status is set from the raw code; playing or paused only re-queries and leaves track and state untouched; anything else, a missing code included, gives stopped with no track |
| SystemMedia.HandleStatusNotification | Sources/MusicPlayer/Players/SystemMedia.swift:134-142 | a notification without userInfo forces stopped with no track; otherwise its integral status value is handled |
| SystemMedia.NonIntegralStatusClears | Sources/MusicPlayer/Players/SystemMedia.swift:141-151 | a status value that is a non-integral number gives no status and clears track and state without a re-query |
| SystemMedia.Cleared | Sources/MusicPlayer/Players/SystemMedia.swift:149-150 | the clear used at all four clear sites (also lines 91-92, 107-108 and 136-137): no track, stopped, everything else unchanged |
| SystemMedia.StoppedClearsLikeTerminated | Sources/MusicPlayer/Players/SystemMedia.swift:144-152 | raw status 3 clears track and state exactly as raw status 0 does |
| SystemMedia.InfoAfterClearingStatusStaysStopped | Sources/MusicPlayer/Players/SystemMedia.swift:114-152 | after a clearing status, an info record restores its track but leaves the state stopped |
| SystemMedia.EffectiveBundleIdentifier | Sources/MusicPlayer/Players/SystemMedia.swift:229-232 | the parent application's id when present, else the client's own |
| SystemMedia.ShouldFetchInfo | Sources/MusicPlayer/Players/SystemMedia.swift:227-234 | no client never fetches; an empty list or a client without bundle id always fetches; otherwise fetches exactly when the effective id is listed |
| SystemMedia.UpdatePlayerState | Sources/MusicPlayer/Players/SystemMedia.swift:223-241 | without the adapter, a client that passes the allow-list has its info record handled and any other changes nothing; with the adapter nothing changes locally |
| SystemMedia.DisallowedClientIgnored | Sources/MusicPlayer/Players/SystemMedia.swift:228-234 | a client whose effective id is not in a non-empty list leaves the record unchanged whatever the info |
| SystemMedia.SetPlaybackTime | Sources/MusicPlayer/Players/SystemMedia.swift:173-180 | the state takes the new time and nothing else changes |
| SystemMedia.PlaybackTimeAfterSet | Sources/MusicPlayer/Players/SystemMedia.swift:169-180 | reading `playbackTime` right after setting it gives the time set, unless stopped |
| Audirvana.CurrentTrackId | Sources/MusicPlayer/Mac/Audirvana.swift:119-124 | no id exactly without a title; otherwise "Audirvana-", the title, then "-", album or empty, "-" and the duration text |
| Audirvana.PlaybackChangesKeepTrack | Sources/MusicPlayer/Mac/Audirvana.swift:70-83 | once a notification is handled, a later one that changes only player state, position, artist or logo keeps the track |
| Audirvana.CurrentTrack | Sources/MusicPlayer/Mac/Audirvana.swift:126-137 | no track exactly without an id; the track carries that id, the title, album, artist and duration, no url, and artwork exactly when a logo is present, made from the logo's bytes |
| Audirvana.AppPlaybackState | Sources/MusicPlayer/Mac/Audirvana.swift:139-146 | playing or paused at the player position for those states, stopped for stopped and unknown states |
| Audirvana.AppPlaybackStateAnchored | Sources/MusicPlayer/Mac/Audirvana.swift:139-146 | while playing, a position advanced by d read d seconds later gives the same state; paused and stopped states do not depend on the time of reading |
| Audirvana.Init | Sources/MusicPlayer/Mac/Audirvana.swift:46-53 | a running application's track and state are taken over; otherwise stopped with no track |
| Audirvana.UpdatePlaybackTime | Sources/MusicPlayer/Mac/Audirvana.swift:55-58 | while running, the application's state goes through the gate; otherwise nothing changes |
| Audirvana.WithNotifiedUrl | Sources/MusicPlayer/Mac/Audirvana.swift:74-77 | a notified path becomes the track's file url; the id is unchanged and nothing happens without a path or a track |
| Audirvana.PlayerInfoNotification | Sources/MusicPlayer/Mac/Audirvana.swift:70-83 | ignored when not running; afterwards the current id is the application's; a new id replaces the track and sets the state outright, the same id keeps the track and gates the state |
| Audirvana.PlayerInfoNotificationIdempotent | Sources/MusicPlayer/Mac/Audirvana.swift:70-83 | a repeated notification with unchanged application data changes nothing |
| Audirvana.SetPlaybackTime | Sources/MusicPlayer/Mac/Audirvana.swift:89-93 | a no-op when not running; otherwise the application gets the new position and the state takes the new time |
| Audirvana.PlaybackTimeAfterSet | Sources/MusicPlayer/Mac/Audirvana.swift:85-93 | after a seek on a running, non-stopped player, `playbackTime` equals the position sent |
| Swinsian.CurrentTrack | Sources/MusicPlayer/Mac/Swinsian.swift:103-115 | no track exactly when the application has none; a missing id becomes ""; the other fields are copied, with a url exactly when there is a path, and that url is `URL(string:)` of the path |
| Swinsian.AppPlaybackState | Sources/MusicPlayer/Mac/Swinsian.swift:117-124 | playing or paused at the whole-second player position for those states, stopped for stopped and unknown states |
| Swinsian.AppPlaybackStateAnchored | Sources/MusicPlayer/Mac/Swinsian.swift:117-124 | while playing, a position advanced by d whole seconds read d seconds later gives the same state; paused and stopped states do not depend on the time of reading |
| Swinsian.Init | Sources/MusicPlayer/Mac/Swinsian.swift:46-51 | a running application's track and state are taken over; otherwise stopped with no track |
| Swinsian.HandlePlaying | Sources/MusicPlayer/Mac/Swinsian.swift:53-57 | the state goes through the gate with tolerance 1.0, and the track becomes the application's whatever its id |
| Swinsian.HandlePaused | Sources/MusicPlayer/Mac/Swinsian.swift:58-61 | the state goes through the gate with tolerance 1.0, and the track is unchanged |
| Swinsian.HandleStopped | Sources/MusicPlayer/Mac/Swinsian.swift:62-66 | stopped with no track |
| Swinsian.NotificationsTrackAppState | Sources/MusicPlayer/Mac/Swinsian.swift:53-61 | after a playing or paused notification the state is within 1.0 of the application's |
| Swinsian.SetPlaybackTime | Sources/MusicPlayer/Mac/Swinsian.swift:73-77 | a no-op when not running; otherwise the application gets the truncated position and the state takes the exact time |
| Swinsian.SeekTruncatesOnlyForApp | Sources/MusicPlayer/Mac/Swinsian.swift:69-77 | after a seek to a non-negative time, `playbackTime` is exact and the application got the whole seconds below it |

## Left out

- Asynchronous delivery is not modelled: notification-center observers, dispatch queues, Combine publishers and the cancel bag. Each handler is a function applied to the state record, in delivery order.
- Calls into the media-remote service, the media-remote adapter and the scripting bridge are foreign. Their answers are inputs: the client, the info dictionary, the adapter's `TrackInfo` and the application snapshot. Their requests are outputs: the re-query flag of a `SystemMedia.Step` and the position of a `Playback.Seek`.
- The playback commands (`resume`, `pause`, `playPause`, `skipToNextItem`, `skipToPreviousItem`) only forward to those foreign calls and change no local state.
- `SystemMedia.SetPlaybackTime` also forwards the seek to the adapter or the media service; the model records only the local state change, and the forwarded seek is not an output.
- The adapter controller is not modelled: its creation from the allow-list, its recreation when the list changes, and its own filtering are foreign.
- `deinit` unregistration is not modelled.
- The `available` probe and the `usesAdapter` version check are plain booleans chosen at construction.
- The info-changed notification handler only calls `updatePlayerState()`, which `SystemMedia.UpdatePlayerState` models directly.
- The following are defined in files that are not part of this model: `PlaybackState.approximateEqual`, `time`, `withTime` and `.playing(time:)`, and `MusicPlayerController.setPlaybackState(_:tolerate:)`. The first three are `StateOps` parameters. `.playing(time:)` is modelled as a start `time` seconds before `now`. `setPlaybackState` is modelled as `Playback.Debounce`.
- Image decoding is not modelled: an artwork is the bytes it was decoded from, and decoding is taken to succeed. Base64 decoding is the parameter `decodeBase64`.
- Floating point is not modelled: times are exact reals, with no Double rounding and no NaN or infinity. The trap of `Int(_:)` on out-of-range values is not modelled either.
- The types of the adapter's `TrackInfo` fields are not part of this model. The microsecond fields are taken as Doubles, so the division by 1,000,000 is not integer division; as reals, it is exact. The unique identifier is taken as an Int.
- Audirvana.Init: the controller's `required init?()` calls a failable `super.init()` defined outside this model, so the model's construction never fails.
- Swinsian.Init: same as Audirvana.Init; construction never fails in the model.
- The not-running defaults of a controller (stopped, no track) stand for the initial values of the `MusicPlayerController` base class, which is not part of this model.
- `Playback.Controller.isRunning` is fixed when a controller is built. The base class updates it as the application launches and quits, and no transition here models that.
- `playbackState.time = newValue` (Audirvana.swift:92, Swinsian.swift:76) uses the unseen `time` setter. It is modelled as `withTime`, and the lemmas assume only that `time` then reads back the new value on a non-stopped state.
- Swift `Int` is 64 bits wide. `Dictionaries.IntValue` and the adapter's unique identifier respect that range. `Conversions.Truncate` does not bound its result, because the trap on out-of-range values is not modelled.
- Swinsian's `URL(string:)` is taken to succeed on every path. Its `originalTrack` scripting object is not modelled.
- Audirvana's `eventTypesReported` subscription is a foreign side effect and is not modelled.
- The iOS Spotify wrapper, the top-level Spotify file, the private-API headers and the package manifest are not part of this model.
