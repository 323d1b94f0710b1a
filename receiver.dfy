/**
 * The Default Media Receiver app's own `load` (apps/default/DefaultMediaReceiver.js):
 * the same descriptor as the device session builds, except that an HLS type
 * is sent as MPEG transport stream, and audio also starts at once.
 */
module Receiver {
  import opened Wrappers
  import opened Text
  import opened Media
  import opened Cast
  import Session

  /** The type before defaulting: the explicit `contentType`, else the MIME guess. */
  function Inferred(resource: Resource, mime: string -> Option<string>): (r: Option<string>)
    ensures resource.Described? && Truthy(resource.contentType) ==> r == resource.contentType
    ensures resource.Url? || !Truthy(resource.contentType) ==> r == mime(resource.url)
  {
    match resource
    case Url(url) => mime(url)
    case Described(url, contentType, _, _, _) => OrOption(contentType, mime(url))
  }

  /** `if (mimeType === 'application/vnd.apple.mpegurl') mimeType = 'video/mp2t'`. */
  function Remapped(mimeType: Option<string>): (r: Option<string>)
    ensures r != Some(HlsContentType)
    ensures mimeType == Some(HlsContentType) ==> r == Some(TransportStreamContentType)
    ensures mimeType != Some(HlsContentType) ==> r == mimeType
  {
    if mimeType == Some(HlsContentType) then Some(TransportStreamContentType) else mimeType
  }

  /** The descriptor's type: never empty and never HLS. */
  function ContentType(resource: Resource, mime: string -> Option<string>): (r: string)
    ensures r != "" && r != HlsContentType
    ensures Inferred(resource, mime) == Some(HlsContentType) ==> r == TransportStreamContentType
    ensures Truthy(Inferred(resource, mime)) && Inferred(resource, mime) != Some(HlsContentType) ==>
              r == Inferred(resource, mime).value
    ensures !Truthy(Inferred(resource, mime)) ==> r == DefaultContentType
  {
    Or(Remapped(Inferred(resource, mime)), DefaultContentType)
  }

  /** An HLS stream is sent as `video/mp2t`, even when the type was given explicitly. */
  lemma ExplicitHlsRemapped(url: string, subtitles: Option<seq<Subtitle>>, style: Option<Style>,
                            cover: Option<Cover>, mime: string -> Option<string>)
    ensures ContentType(Described(url, Some(HlsContentType), subtitles, style, cover), mime) == TransportStreamContentType
  {
  }

  /** The device session's type, with HLS remapped and nothing else changed. */
  lemma {:induction false} RemapIsTheOnlyDifference(resource: Resource, mime: string -> Option<string>)
    ensures ContentType(resource, mime)
         == if Session.ContentType(resource, mime) == HlsContentType then TransportStreamContentType
            else Session.ContentType(resource, mime)
  {
    var inferred := Inferred(resource, mime);
    assert Session.ContentType(resource, mime) == Or(inferred, DefaultContentType);
  }

  /** The load options: video and audio start at once, at `startTime` or 0. */
  function Options(resource: Resource, startTime: Option<real>, contentType: string): (r: LoadOptions)
    ensures r.autoplay.Some? <==> Contains(contentType, "video") || Contains(contentType, "audio")
    ensures r.currentTime.Some? <==> r.autoplay.Some?
    ensures r.autoplay.Some? ==> r.autoplay.value && r.currentTime.value == OrZero(startTime)
    ensures r.activeTrackIds.Some? <==> resource.Described? && resource.subtitles.Some?
    ensures r.activeTrackIds.Some? ==> r.activeTrackIds.value == [0]
  {
    var starts := Contains(contentType, "video") || Contains(contentType, "audio");
    LoadOptions(
      if starts then Some(true) else None,
      if starts then Some(OrZero(startTime)) else None,
      if resource.Described? && resource.subtitles.Some? then Some([0]) else None)
  }

  /** A type that is neither video nor audio, such as an image, is loaded without autoplay. */
  lemma ImageNotStarted(resource: Resource, startTime: Option<real>, mime: string -> Option<string>, image: string)
    requires image == "image/jpeg" && Inferred(resource, mime) == Some(image)
    ensures var options := Options(resource, startTime, ContentType(resource, mime));
      options.autoplay.None? && options.currentTime.None?
  {
    assert ContentType(resource, mime) == image;
    assert "video"[0] == 'v' && 'v' !in image;
    AbsentCharExcludes(image, "video", 0);
    assert "audio"[1] == 'u' && 'u' !in image;
    AbsentCharExcludes(image, "audio", 1);
  }

  /** `load`'s `opts`. */
  datatype LoadArgs = LoadArgs(startTime: Option<real>)

  class App {
    var subtitlesStyle: Option<Style>
    var sent: seq<Request>

    constructor ()
      ensures subtitlesStyle.None? && sent == []
    {
      subtitlesStyle := None;
      sent := [];
    }

    /** `load`: build the descriptor and options field by field and hand them to the receiver's load. */
    method Load(resource: Resource, opts: LoadArgs, mime: string -> Option<string>)
      modifies this
      ensures var contentType := ContentType(resource, mime);
        sent == old(sent) + [Request.Load(Describe(resource, contentType), Options(resource, opts.startTime, contentType))]
      ensures subtitlesStyle == (if resource.Described? && resource.subtitlesStyle.Some? then resource.subtitlesStyle
                                 else old(subtitlesStyle))
    {
      var mimeType: Option<string>;
      if resource.Url? {
        mimeType := mime(resource.url);
      } else {
        mimeType := OrOption(resource.contentType, mime(resource.url));
      }
      if mimeType == Some(HlsContentType) {
        mimeType := Some(TransportStreamContentType);
      }
      var contentType := Or(mimeType, DefaultContentType);
      var media := BuildMedia(resource, contentType);
      var options := LoadOptions(None, None, None);
      if resource.Described? {
        if resource.subtitles.Some? {
          options := options.(activeTrackIds := Some([0]));
        }
        if resource.subtitlesStyle.Some? {
          subtitlesStyle := resource.subtitlesStyle;
        }
      }
      if Contains(contentType, "video") || Contains(contentType, "audio") {
        options := options.(autoplay := Some(true), currentTime := Some(OrZero(opts.startTime)));
      }
      sent := sent + [Request.Load(media, options)];
    }
  }
}
