/**
 The now-playing info record of the system media service: a dictionary read
 through typed accessors, from which a track id, the playback start instant
 and a `MusicTrack` are derived. The media-remote adapter's `TrackInfo` is
 turned into the same dictionary shape by `AsDictionary`.
 */
module MediaRemoteHelper {
  import opened Wrappers
  import opened Dictionaries
  import opened Playback
  import Conversions

  /** Every now-playing info key is this prefix followed by the field's name. */
  const InfoKeyPrefix := "kMRMediaRemoteNowPlayingInfo"

  function InfoKey(name: string): (key: string)
    ensures |key| == |InfoKeyPrefix| + |name|
    ensures key[|InfoKeyPrefix|..] == name
  {
    InfoKeyPrefix + name
  }

  const TitleKey := InfoKey("Title")
  const AlbumKey := InfoKey("Album")
  const ArtistKey := InfoKey("Artist")
  const TimestampKey := InfoKey("Timestamp")
  const ElapsedTimeKey := InfoKey("ElapsedTime")
  const StartTimeKey := InfoKey("StartTime")
  const UniqueIdentifierKey := InfoKey("UniqueIdentifier")
  const DurationKey := InfoKey("Duration")
  const ArtworkDataKey := InfoKey("ArtworkData")

  /** Distinct field names give distinct keys. */
  lemma InfoKeyInjective()
    ensures forall a, b :: InfoKey(a) == InfoKey(b) ==> a == b
  {
    forall a, b | InfoKey(a) == InfoKey(b)
      ensures a == b
    {
      assert a == InfoKey(a)[|InfoKeyPrefix|..];
    }
  }

  const TitleIdPrefix := "NowPlaying-"

  /** The id derived from a title when the service gives no unique identifier. */
  function TitleId(title: string, album: Option<string>, duration: Option<real>): (id: string)
    ensures |TitleIdPrefix| + |title| < |id|
    ensures id[..|TitleIdPrefix|] == TitleIdPrefix
    ensures id[|TitleIdPrefix|..|TitleIdPrefix| + |title|] == title
    ensures id[|TitleIdPrefix| + |title|..] ==
              "-" + album.GetOr("") + "-" + Conversions.Description(Conversions.Truncate(duration.GetOr(0.0)))
    ensures duration.None? ==> id[|id| - 2..] == "-0"
  {
    var suffix := Conversions.Description(Conversions.Truncate(duration.GetOr(0.0)));
    var id := TitleIdPrefix + title + "-" + album.GetOr("") + "-" + suffix;
    assert id[|TitleIdPrefix| + |title|..] == "-" + album.GetOr("") + "-" + suffix;
    assert id[|id| - |suffix| - 1..] == "-" + suffix;
    id
  }

  /** The last segment of a title-based id reads back as the whole seconds of the duration (0 without one). */
  lemma TitleIdDurationParsesBack(title: string, album: Option<string>, duration: Option<real>)
    ensures var id := TitleId(title, album, duration);
            var start := |TitleIdPrefix| + |title| + |album.GetOr("")| + 2;
            && start <= |id|
            && Conversions.Parse(id[start..]) == Some(Conversions.Truncate(duration.GetOr(0.0)))
  {
    var id := TitleId(title, album, duration);
    var n := Conversions.Truncate(duration.GetOr(0.0));
    var tail := "-" + album.GetOr("") + "-" + Conversions.Description(n);
    assert id[|TitleIdPrefix| + |title|..] == tail;
    assert id[|TitleIdPrefix| + |title| + |album.GetOr("")| + 2..] == tail[|album.GetOr("")| + 2..];
    assert tail[|album.GetOr("")| + 2..] == Conversions.Description(n);
    Conversions.DescriptionRoundTrip(n);
  }

  datatype NowPlayingInfo = NowPlayingInfo(dict: Dict) {

    function Timestamp(): Option<real> { DateValue(dict, TimestampKey) }
    function ElapsedTime(): Option<real> { DoubleValue(dict, ElapsedTimeKey) }
    function StartTimeField(): Option<real> { DateValue(dict, StartTimeKey) }
    function UniqueIdentifier(): Option<Conversions.Int64> { IntValue(dict, UniqueIdentifierKey) }
    function Title(): Option<string> { StringValue(dict, TitleKey) }
    function Album(): Option<string> { StringValue(dict, AlbumKey) }
    function Artist(): Option<string> { StringValue(dict, ArtistKey) }
    function Duration(): Option<real> { DoubleValue(dict, DurationKey) }
    function ArtworkData(): Option<seq<bv8>> { DataValue(dict, ArtworkDataKey) }
  }

  /**
   The track id: the unique identifier in decimal when there is one, else an
   id synthesised from title, album and whole seconds of duration, else none.
   */
  function Id(info: NowPlayingInfo): (r: Option<string>)
    ensures r.None? <==> info.UniqueIdentifier().None? && info.Title().None?
    ensures info.UniqueIdentifier().Some? ==> r == Some(Conversions.Description(info.UniqueIdentifier().value))
    ensures info.UniqueIdentifier().Some? ==> Conversions.Parse(r.value) == info.UniqueIdentifier()
    ensures info.UniqueIdentifier().None? && info.Title().Some? ==>
              r == Some(TitleId(info.Title().value, info.Album(), info.Duration()))
  {
    match info.UniqueIdentifier()
    case Some(uid) =>
      Conversions.DescriptionRoundTrip(uid);
      Some(Conversions.Description(uid))
    case None =>
      match info.Title()
      case Some(title) => Some(TitleId(title, info.Album(), info.Duration()))
      case None => None
  }

  /**
   The instant playback started: the elapsed time counted back from the
   info's timestamp, or from `now` when the info carries no timestamp.
   */
  function StartTime(info: NowPlayingInfo, now: real): (r: Option<real>)
    ensures r.None? <==> info.ElapsedTime().None?
    ensures r.Some? ==> r.value + info.ElapsedTime().value == info.Timestamp().GetOr(now)
  {
    match info.ElapsedTime()
    case None => None
    case Some(elapsed) =>
      match info.Timestamp()
      case Some(ts) => Some(ts - elapsed)
      case None => Some(now - elapsed)
  }

  /** The cover image decoded from the artwork data, when present. */
  function ArtworkImage(info: NowPlayingInfo): (r: Option<Artwork>)
    ensures r.Some? <==> info.ArtworkData().Some?
    ensures r.Some? ==> r.value.data == info.ArtworkData().value
  {
    match info.ArtworkData()
    case Some(data) => Some(Artwork(data))
    case None => None
  }

  /** The track described by the info; none exactly when there is no id. */
  function Track(info: NowPlayingInfo): (r: Option<MusicTrack>)
    ensures r.None? <==> Id(info).None?
    ensures IdOf(r) == Id(info)
    ensures r.Some? ==> && r.value.title == info.Title()
                        && r.value.album == info.Album()
                        && r.value.artist == info.Artist()
                        && r.value.duration == info.Duration()
                        && r.value.url.None?
                        && r.value.artwork == ArtworkImage(info)
  {
    match Id(info)
    case None => None
    case Some(id) => Some(MusicTrack(id, info.Title(), info.Album(), info.Artist(), info.Duration(), None, ArtworkImage(info)))
  }

  /** An id from a unique identifier never collides with one synthesised from a title. */
  lemma IdSourcesDisjoint(uid: int, title: string, album: Option<string>, duration: Option<real>)
    ensures Conversions.Description(uid) != TitleId(title, album, duration)
  {
    var t := TitleId(title, album, duration);
    assert t[0] == TitleIdPrefix[0] == 'N';
  }

  /** Two infos with unique identifiers get the same id exactly when the identifiers agree. */
  lemma UniqueIdentifierIdsAgree(a: NowPlayingInfo, b: NowPlayingInfo)
    requires a.UniqueIdentifier().Some? && b.UniqueIdentifier().Some?
    ensures Id(a) == Id(b) <==> a.UniqueIdentifier() == b.UniqueIdentifier()
  {
    Conversions.DescriptionInjective(a.UniqueIdentifier().value, b.UniqueIdentifier().value);
  }

  /** The now-playing record delivered by the media-remote adapter. Times are in microseconds. */
  datatype TrackInfo = TrackInfo(
    title: Option<string>,
    album: Option<string>,
    artist: Option<string>,
    timestampEpochMicros: Option<real>,
    elapsedTimeMicros: Option<real>,
    artworkDataBase64: Option<string>,
    uniqueIdentifier: Option<Conversions.Int64>,
    isPlaying: Option<bool>)

  function MicrosToSeconds(micros: real): real {
    micros / 1000.0 / 1000.0
  }

  function TextOf(s: Option<string>): Option<Value> {
    match s
    case Some(x) => Some(Text(x))
    case None => None
  }

  /**
   `TrackInfo.asDictionary`: the adapter's fields under the now-playing info
   keys, with times converted from microseconds to seconds. `decodeBase64`
   stands for `Data(base64Encoded:)`, which yields nothing on malformed input.
   */
  function AsDictionary(info: TrackInfo, decodeBase64: string -> Option<seq<bv8>>): (d: Dict)
    ensures d.Keys <= {TitleKey, AlbumKey, ArtistKey, TimestampKey, ElapsedTimeKey, ArtworkDataKey, UniqueIdentifierKey}
    ensures DurationKey !in d && StartTimeKey !in d
  {
    InfoKeyInjective();
    var d0: Dict := map[];
    var d1 := Put(d0, TitleKey, TextOf(info.title));
    var d2 := Put(d1, AlbumKey, TextOf(info.album));
    var d3 := Put(d2, ArtistKey, TextOf(info.artist));
    var d4 := Put(d3, TimestampKey,
                  match info.timestampEpochMicros
                  case Some(us) => Some(Date(MicrosToSeconds(us)))
                  case None => None);
    var d5 := Put(d4, ElapsedTimeKey,
                  match info.elapsedTimeMicros
                  case Some(us) => Some(Number(MicrosToSeconds(us)))
                  case None => None);
    var d6 := Put(d5, ArtworkDataKey,
                  match info.artworkDataBase64
                  case Some(b64) =>
                    (match decodeBase64(b64)
                     case Some(bytes) => Some(Data(bytes))
                     case None => None)
                  case None => None);
    Put(d6, UniqueIdentifierKey,
        match info.uniqueIdentifier
        case Some(uid) => Some(Number(uid as real))
        case None => None)
  }

  /** The text fields and the unique identifier the adapter supplies read back unchanged. */
  lemma AsDictionaryRoundTrip(info: TrackInfo, decodeBase64: string -> Option<seq<bv8>>)
    ensures var np := NowPlayingInfo(AsDictionary(info, decodeBase64));
            && np.Title() == info.title
            && np.Album() == info.album
            && np.Artist() == info.artist
            && np.UniqueIdentifier() == info.uniqueIdentifier
  {
    InfoKeyInjective();
    if info.uniqueIdentifier.Some? {
      var uid := info.uniqueIdentifier.value;
      assert (uid as real).Floor == uid;
    }
  }

  /** Times read back in seconds, absent stays absent, artwork reads back as the decoded data, and no duration is ever present. */
  lemma AsDictionaryConvertsTimes(info: TrackInfo, decodeBase64: string -> Option<seq<bv8>>)
    ensures var np := NowPlayingInfo(AsDictionary(info, decodeBase64));
            && (np.ElapsedTime().Some? <==> info.elapsedTimeMicros.Some?)
            && (np.ElapsedTime().Some? ==> np.ElapsedTime().value * 1000000.0 == info.elapsedTimeMicros.value)
            && (np.Timestamp().Some? <==> info.timestampEpochMicros.Some?)
            && (np.Timestamp().Some? ==> np.Timestamp().value * 1000000.0 == info.timestampEpochMicros.value)
            && np.Duration().None?
            && np.ArtworkData() == (if info.artworkDataBase64.Some? then decodeBase64(info.artworkDataBase64.value) else None)
  {
  }

  /** A title-based id built from adapter data always ends in "-0", since no duration is passed on. */
  lemma AdapterTitleIdEndsInZero(info: TrackInfo, decodeBase64: string -> Option<seq<bv8>>)
    requires info.uniqueIdentifier.None? && info.title.Some?
    ensures var id := Id(NowPlayingInfo(AsDictionary(info, decodeBase64)));
            && id.Some?
            && id.value[..|TitleIdPrefix|] == TitleIdPrefix
            && id.value[|id.value| - 2..] == "-0"
  {
    AsDictionaryRoundTrip(info, decodeBase64);
    AsDictionaryConvertsTimes(info, decodeBase64);
  }
}
