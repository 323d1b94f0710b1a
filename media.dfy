/**
 * The media descriptor handed to a receiver's `load`: content id and type,
 * optional subtitle tracks, text-track style and cover metadata, and the load
 * options that go with it. Shared by lib/device.js, lib/Device.js and
 * apps/default/DefaultMediaReceiver.js.
 */
module Media {
  import opened Wrappers
  import opened Text

  const DefaultContentType := "video/mp4"
  const HlsContentType := "application/vnd.apple.mpegurl"
  const TransportStreamContentType := "video/mp2t"

  /** One entry of `resource.subtitles`. */
  datatype Subtitle = Subtitle(url: string, name: string, language: string)

  /** A subtitle track of the descriptor; `kind` is the JSON field `type`. */
  datatype Track = Track(
    trackId: nat, kind: string, trackContentId: string, trackContentType: string,
    name: string, language: string, subtype: string)

  /** The track the i-th subtitle becomes. */
  function SubtitleTrack(i: nat, sub: Subtitle): Track {
    Track(i, "TEXT", sub.url, "text/vtt", sub.name, sub.language, "SUBTITLES")
  }

  /** The tracks of a subtitle list: one per entry, numbered from 0 in list order. */
  function TracksOf(subs: seq<Subtitle>): (r: seq<Track>)
    decreases |subs|
    ensures |r| == |subs|
    ensures forall i | 0 <= i < |subs| :: r[i] == SubtitleTrack(i, subs[i])
  {
    if subs == [] then []
    else
      var n := |subs| - 1;
      var front := TracksOf(subs[..n]);
      assert forall i | 0 <= i < n :: subs[..n][i] == subs[i];
      front + [SubtitleTrack(n, subs[n])]
  }

  /** Track ids are the positions: distinct, and the first one is 0. */
  lemma TrackIdsArePositions(subs: seq<Subtitle>)
    ensures forall i | 0 <= i < |subs| :: TracksOf(subs)[i].trackId == i
    ensures forall i, j | 0 <= i < j < |subs| :: TracksOf(subs)[i].trackId != TracksOf(subs)[j].trackId
    ensures subs != [] ==> TracksOf(subs)[0].trackId == 0
  {
  }

  /** The counting loop that pushes one track per subtitle. */
  method BuildTracks(subs: seq<Subtitle>) returns (tracks: seq<Track>)
    ensures tracks == TracksOf(subs)
  {
    tracks := [];
    var i := 0;
    while i < |subs|
      invariant 0 <= i <= |subs|
      invariant |tracks| == i
      invariant forall k | 0 <= k < i :: tracks[k] == SubtitleTrack(k, subs[k])
    {
      tracks := tracks + [SubtitleTrack(i, subs[i])];
      i := i + 1;
    }
  }

  /** A text-track style: an arbitrary JSON object, kept as a map of its fields. */
  datatype StyleValue = Number(number: real) | Text(text: string) | Flag(flag: bool)
  type Style = map<string, StyleValue>

  /** The remembered style with its `fontScale` set. */
  function Rescaled(style: Style, fontScale: real): (r: Style)
    ensures r.Keys == style.Keys + {"fontScale"}
    ensures r["fontScale"] == Number(fontScale)
    ensures forall k | k in style && k != "fontScale" :: r[k] == style[k]
  {
    style["fontScale" := Number(fontScale)]
  }

  datatype Cover = Cover(title: string, url: string)
  datatype Image = Image(url: string)

  /** Generic metadata; `kind` is the JSON field `type`. */
  datatype Metadata = Metadata(kind: int, metadataType: int, title: string, images: seq<Image>)

  /** The metadata a cover yields: generic, titled, with exactly the one cover image. */
  function CoverMetadata(cover: Cover): (r: Metadata)
    ensures r.kind == 0 && r.metadataType == 0
    ensures r.title == cover.title
    ensures |r.images| == 1 && r.images[0].url == cover.url
  {
    Metadata(0, 0, cover.title, [Image(cover.url)])
  }

  datatype MediaInfo = MediaInfo(
    contentId: string, contentType: string,
    tracks: Option<seq<Track>>, textTrackStyle: Option<Style>, metadata: Option<Metadata>)

  /** The load options; a field that was never assigned is `None`. */
  datatype LoadOptions = LoadOptions(
    autoplay: Option<bool>, currentTime: Option<real>, activeTrackIds: Option<seq<int>>)

  /**
   * What `play`/`load` is given: a URL string, or an object. A present
   * `subtitles`, `subtitles_style` or `cover` is truthy (it is an array or an
   * object); an empty `contentType` counts as absent.
   */
  datatype Resource =
    | Url(url: string)
    | Described(url: string, contentType: Option<string>, subtitles: Option<seq<Subtitle>>,
                subtitlesStyle: Option<Style>, cover: Option<Cover>)

  /** `x || 0` for an optional number (NaN is not modelled). */
  function OrZero(x: Option<real>): (r: real)
    ensures x.Some? ==> r == x.value
    ensures x.None? ==> r == 0.0
  {
    if x.Some? then x.value else 0.0
  }

  /**
   * The descriptor an object or string resource yields once its content type is
   * resolved: a string gives only id and type; an object adds tracks for a
   * present subtitle list (even an empty one), its style and its cover.
   */
  function Describe(resource: Resource, contentType: string): (r: MediaInfo)
    ensures r.contentId == resource.url && r.contentType == contentType
    ensures resource.Url? ==> r.tracks.None? && r.textTrackStyle.None? && r.metadata.None?
    ensures resource.Described? ==>
              && (r.tracks.Some? <==> resource.subtitles.Some?)
              && (r.tracks.Some? ==> r.tracks.value == TracksOf(resource.subtitles.value))
              && r.textTrackStyle == resource.subtitlesStyle
              && (r.metadata.Some? <==> resource.cover.Some?)
              && (r.metadata.Some? ==> r.metadata.value == CoverMetadata(resource.cover.value))
  {
    match resource
    case Url(url) => MediaInfo(url, contentType, None, None, None)
    case Described(url, _, subtitles, style, cover) =>
      MediaInfo(url, contentType,
                if subtitles.Some? then Some(TracksOf(subtitles.value)) else None,
                style,
                if cover.Some? then Some(CoverMetadata(cover.value)) else None)
  }

  /**
   * The descriptor built field by field, with the track loop; `tracks` is the
   * loop's result when the resource has subtitles.
   */
  method BuildMedia(resource: Resource, contentType: string) returns (media: MediaInfo)
    ensures media == Describe(resource, contentType)
  {
    media := MediaInfo(resource.url, contentType, None, None, None);
    if resource.Described? {
      if resource.subtitles.Some? {
        var tracks := BuildTracks(resource.subtitles.value);
        media := media.(tracks := Some(tracks));
      }
      if resource.subtitlesStyle.Some? {
        media := media.(textTrackStyle := resource.subtitlesStyle);
      }
      if resource.cover.Some? {
        media := media.(metadata := Some(CoverMetadata(resource.cover.value)));
      }
    }
  }
}
