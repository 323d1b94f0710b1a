/**
 * The legacy device session (lib/Device.js), created for each `deviceOn` of the
 * legacy browser: it always launches a fresh receiver, always autoplays, and
 * only builds subtitle tracks for a non-empty list.
 */
module LegacySession {
  import opened Wrappers
  import opened Text
  import opened Media
  import opened Cast
  import Records
  import LegacyDiscovery

  /** `addresses[0]`, undefined for an empty list. */
  function HostOf(addresses: seq<string>): (r: Option<string>)
    ensures r.Some? <==> |addresses| > 0
    ensures r.Some? ==> r.value == addresses[0]
  {
    if |addresses| > 0 then Some(addresses[0]) else None
  }

  /** The legacy browser announces exactly one address, so its devices always have a host. */
  lemma {:induction false} AnnouncedDevicesHaveHost(d: Records.Directory, inputs: seq<LegacyDiscovery.Input>)
    ensures forall ev | ev in LegacyDiscovery.Run(d, inputs).emitted ::
              |ev.addresses| == 1 && HostOf(ev.addresses) == Some(ev.addresses[0])
    decreases |inputs|
  {
    if inputs != [] {
      var n := |inputs| - 1;
      AnnouncedDevicesHaveHost(d, inputs[..n]);
      var s := LegacyDiscovery.Run(d, inputs[..n]);
      match inputs[n]
      case MdnsResponse(answers, additionals) =>
        var registered := LegacyDiscovery.FoldPtr(s.devices, answers);
        FoldASingleAddress(registered, additionals + answers);
      case SsdpDescriptor(body, address) =>
    }
  }

  lemma {:induction false} FoldASingleAddress(d: Records.Directory, list: seq<LegacyDiscovery.Answer>)
    ensures forall ev | ev in LegacyDiscovery.FoldA(d, list).emitted :: |ev.addresses| == 1
    decreases |list|
  {
    if list != [] {
      FoldASingleAddress(d, list[..|list| - 1]);
    }
  }

  /** Always `video/mp4` for a URL; the explicit type, else `video/mp4`, for an object. */
  function ContentType(resource: Resource): (r: string)
    ensures r != ""
    ensures resource.Described? && Truthy(resource.contentType) ==> r == resource.contentType.value
    ensures resource.Url? || !Truthy(resource.contentType) ==> r == DefaultContentType
  {
    match resource
    case Url(_) => DefaultContentType
    case Described(_, contentType, _, _, _) => Or(contentType, DefaultContentType)
  }

  /** `resource.subtitles && resource.subtitles.length >= 1`. */
  predicate HasSubtitles(resource: Resource) {
    resource.Described? && resource.subtitles.Some? && |resource.subtitles.value| >= 1
  }

  /** The descriptor: tracks only for a non-empty subtitle list; no MIME inference. */
  function MediaOf(resource: Resource): (r: MediaInfo)
    ensures r.contentId == resource.url && r.contentType == ContentType(resource)
    ensures r.tracks.Some? <==> HasSubtitles(resource)
    ensures r.tracks.Some? ==> r.tracks.value == TracksOf(resource.subtitles.value)
    ensures resource.Url? ==> r.textTrackStyle.None? && r.metadata.None?
    ensures resource.Described? ==>
              && r.textTrackStyle == resource.subtitlesStyle
              && (r.metadata.Some? <==> resource.cover.Some?)
              && (r.metadata.Some? ==> r.metadata.value == CoverMetadata(resource.cover.value))
  {
    var kept := if resource.Described? && !HasSubtitles(resource) then resource.(subtitles := None) else resource;
    Describe(kept, ContentType(resource))
  }

  /** The options: always autoplay from `seconds` or 0; the first track is active when there is one. */
  function Options(resource: Resource, seconds: Option<real>): (r: LoadOptions)
    ensures r.autoplay == Some(true) && r.currentTime == Some(OrZero(seconds))
    ensures r.activeTrackIds.Some? <==> HasSubtitles(resource)
    ensures r.activeTrackIds.Some? ==>
              r.activeTrackIds.value == [TracksOf(resource.subtitles.value)[0].trackId] == [0]
  {
    LoadOptions(Some(true), Some(OrZero(seconds)), if HasSubtitles(resource) then Some([0]) else None)
  }

  /** An empty subtitle list is dropped here, where the current session would send no tracks but activate track 0. */
  lemma EmptySubtitlesDropped(url: string, contentType: Option<string>, style: Option<Style>, cover: Option<Cover>,
                              seconds: Option<real>)
    ensures var resource := Described(url, contentType, Some([]), style, cover);
      MediaOf(resource).tracks.None? && Options(resource, seconds).activeTrackIds.None?
  {
  }

  datatype DeviceEvent = Connected | StatusChanged(status: Status)

  class Device {
    const name: Option<string>
    const addresses: seq<string>
    const host: Option<string>
    var client: Option<nat>
    var nextClient: nat
    var player: Option<nat>
    var playing: bool
    var subtitlesStyle: Option<Style>
    var sent: seq<Request>
    var events: seq<DeviceEvent>

    ghost predicate Valid()
      reads this
    {
      (client.Some? ==> client.value < nextClient) && (player.Some? ==> player.value < nextClient)
    }

    /** `new Device({name, addresses})`: the host is the first address. */
    constructor (name: Option<string>, addresses: seq<string>)
      ensures Valid()
      ensures this.name == name && this.addresses == addresses && host == HostOf(addresses)
      ensures client.None? && player.None? && !playing && subtitlesStyle.None?
      ensures nextClient == 0 && sent == [] && events == []
    {
      this.name := name;
      this.addresses := addresses;
      host := if |addresses| > 0 then Some(addresses[0]) else None;
      client := None;
      nextClient := 0;
      player := None;
      playing := false;
      subtitlesStyle := None;
      sent := [];
      events := [];
    }

    /**
     * `_privatePlayMedia`: build and load the descriptor; `_playing` is set
     * when the load completes, even with an error.
     */
    method PrivatePlayMedia(resource: Resource, seconds: Option<real>, loaded: Reply<Status>)
      returns (delivered: Reply<Status>)
      requires player.Some?
      modifies this
      ensures sent == old(sent) + [Load(MediaOf(resource), Options(resource, seconds))]
      ensures playing && delivered == loaded
      ensures subtitlesStyle == (if resource.Described? && resource.subtitlesStyle.Some? then resource.subtitlesStyle
                                 else old(subtitlesStyle))
      ensures client == old(client) && nextClient == old(nextClient) && player == old(player) && events == old(events)
    {
      var options := LoadOptions(Some(true), Some(OrZero(seconds)), None);
      var media;
      match resource {
        case Url(url) =>
          media := MediaInfo(url, DefaultContentType, None, None, None);
        case Described(url, contentType, subtitles, style, cover) =>
          media := MediaInfo(url, Or(contentType, DefaultContentType), None, None, None);
          if subtitles.Some? && |subtitles.value| >= 1 {
            var tracks := BuildTracks(subtitles.value);
            media := media.(tracks := Some(tracks));
            options := options.(activeTrackIds := Some([tracks[0].trackId]));
          }
          if style.Some? {
            media := media.(textTrackStyle := style);
            subtitlesStyle := style;
          }
          if cover.Some? {
            media := media.(metadata := Some(CoverMetadata(cover.value)));
          }
      }
      sent := sent + [Load(media, options)];
      playing := true;
      delivered := loaded;
    }

    /**
     * `play`: close any previous client, connect a fresh one and always
     * launch; a launch error reaches the callback and nothing is loaded.
     */
    method Play(resource: Resource, seconds: Option<real>, connected: bool, started: Outcome, loaded: Reply<Status>)
      returns (delivered: Option<Reply<Status>>)
      requires Valid()
      modifies this
      ensures Valid()
      ensures var c := old(nextClient);
        && client == Some(c) && nextClient == c + 1
        && sent == old(sent) + (if old(client).Some? then [CloseClient(old(client).value)] else [])
                  + [ConnectClient(c, host)]
                  + (if connected then [Launch(c, DefaultMediaReceiverAppId)] else [])
                  + (if connected && started.Done? then [Load(MediaOf(resource), Options(resource, seconds))] else [])
        && delivered == (if !connected then None else if started.Failed? then Some(Err(started.error)) else Some(loaded))
        && player == (if connected && started.Done? then Some(c) else old(player))
        && playing == (if connected && started.Done? then true else old(playing))
        && subtitlesStyle == (if connected && started.Done? && resource.Described? && resource.subtitlesStyle.Some?
                              then resource.subtitlesStyle else old(subtitlesStyle))
      ensures events == old(events) + (if connected then [Connected] else [])
    {
      if client.Some? {
        sent := sent + [CloseClient(client.value)];
      }
      var c := nextClient;
      client := Some(c);
      nextClient := nextClient + 1;
      sent := sent + [ConnectClient(c, host)];
      if !connected {
        return None;
      }
      events := events + [Connected];
      sent := sent + [Launch(c, DefaultMediaReceiverAppId)];
      if started.Failed? {
        return Some(Err(started.error));
      }
      player := Some(c);
      var reply := PrivatePlayMedia(resource, seconds, loaded);
      delivered := Some(reply);
    }

    /** The client's `error` handler closes the current client and keeps it; after `close()` it throws. */
    method OnClientError() returns (done: Completion)
      modifies this
      ensures done == (if old(client).Some? then Returned else Threw)
      ensures sent == old(sent) + (if old(client).Some? then [CloseClient(old(client).value)] else [])
      ensures client == old(client) && nextClient == old(nextClient) && player == old(player)
      ensures playing == old(playing) && subtitlesStyle == old(subtitlesStyle) && events == old(events)
    {
      if client.None? {
        // `client.close()` after `close()` has set the client to null
        return Threw;
      }
      sent := sent + [CloseClient(client.value)];
      return Returned;
    }

    /** The player's `status` listener re-emits every non-null status. */
    method OnStatus(status: Option<Status>)
      modifies this
      ensures events == old(events) + (if status.Some? then [StatusChanged(status.value)] else [])
      ensures sent == old(sent) && client == old(client) && nextClient == old(nextClient) && player == old(player)
      ensures playing == old(playing) && subtitlesStyle == old(subtitlesStyle)
    {
      if status.Some? {
        events := events + [StatusChanged(status.value)];
      }
    }

    /** `getStatus`: the error or the status is forwarded; without a player it throws. */
    method GetStatus(status: Reply<Status>) returns (done: Completion, delivered: Option<Reply<Status>>)
      modifies this
      ensures done == (if old(player).Some? then Returned else Threw)
      ensures sent == old(sent) + (if old(player).Some? then [Request.GetStatus] else [])
      ensures delivered == (if old(player).Some? then Some(status) else None)
      ensures client == old(client) && nextClient == old(nextClient) && player == old(player)
      ensures playing == old(playing) && subtitlesStyle == old(subtitlesStyle) && events == old(events)
    {
      if player.None? {
        return Threw, None;
      }
      sent := sent + [Request.GetStatus];
      match status {
        case Err(e) => delivered := Some(Err(e));
        case Ok(s) => delivered := Some(Ok(s));
      }
      done := Returned;
    }

    /** `seekTo`: an absolute position; without a player it throws. */
    method SeekTo(newCurrentTime: real) returns (done: Completion)
      modifies this
      ensures done == (if old(player).Some? then Returned else Threw)
      ensures sent == old(sent) + (if old(player).Some? then [Request.Seek(newCurrentTime)] else [])
      ensures client == old(client) && nextClient == old(nextClient) && player == old(player)
      ensures playing == old(playing) && subtitlesStyle == old(subtitlesStyle) && events == old(events)
    {
      if player.None? {
        return Threw;
      }
      sent := sent + [Request.Seek(newCurrentTime)];
      return Returned;
    }

    /**
     * `seek`: relative to the reported position; a status error is reported
     * and no seek is sent. Without a player `getStatus` throws.
     */
    method Seek(seconds: real, status: Reply<Status>) returns (done: Completion, error: Option<string>)
      modifies this
      ensures done == (if old(player).Some? then Returned else Threw)
      ensures old(player).None? ==> sent == old(sent) && error.None?
      ensures old(player).Some? && status.Err? ==> sent == old(sent) + [Request.GetStatus] && error == Some(status.error)
      ensures old(player).Some? && status.Ok? ==>
                sent == old(sent) + [Request.GetStatus, Request.Seek(status.value.currentTime + seconds)] && error.None?
      ensures client == old(client) && nextClient == old(nextClient) && player == old(player)
      ensures playing == old(playing) && subtitlesStyle == old(subtitlesStyle) && events == old(events)
    {
      var reply;
      done, reply := GetStatus(status);
      error := None;
      if reply.Some? {
        match reply.value {
          case Err(e) =>
            error := Some(e);
          case Ok(s) =>
            done := SeekTo(s.currentTime + seconds);
        }
      }
    }

    /** `pause`: `_playing` is cleared before the player is used, so also when it throws. */
    method Pause() returns (done: Completion)
      modifies this
      ensures done == (if old(player).Some? then Returned else Threw)
      ensures !playing && sent == old(sent) + (if old(player).Some? then [PauseMedia] else [])
      ensures client == old(client) && nextClient == old(nextClient) && player == old(player)
      ensures subtitlesStyle == old(subtitlesStyle) && events == old(events)
    {
      playing := false;
      if player.None? {
        return Threw;
      }
      sent := sent + [PauseMedia];
      return Returned;
    }

    /** `unpause`: `_playing` is set before the player is used, so also when it throws. */
    method Unpause() returns (done: Completion)
      modifies this
      ensures done == (if old(player).Some? then Returned else Threw)
      ensures playing && sent == old(sent) + (if old(player).Some? then [PlayMedia] else [])
      ensures client == old(client) && nextClient == old(nextClient) && player == old(player)
      ensures subtitlesStyle == old(subtitlesStyle) && events == old(events)
    {
      playing := true;
      if player.None? {
        return Threw;
      }
      sent := sent + [PlayMedia];
      return Returned;
    }

    /**
     * `stop`: the callback is called without arguments, whatever the player
     * replied. `_playing` is cleared first, so also when it throws.
     */
    method Stop(stopped: Outcome) returns (done: Completion, delivered: Option<Outcome>)
      modifies this
      ensures done == (if old(player).Some? then Returned else Threw)
      ensures !playing && sent == old(sent) + (if old(player).Some? then [StopMedia] else [])
      ensures delivered == (if old(player).Some? then Some(Done) else None)
      ensures client == old(client) && nextClient == old(nextClient) && player == old(player)
      ensures subtitlesStyle == old(subtitlesStyle) && events == old(events)
    {
      playing := false;
      if player.None? {
        return Threw, None;
      }
      sent := sent + [StopMedia];
      return Returned, Some(Done);
    }

    /** `setVolume`: a level on the current client; without a client it throws. */
    method SetVolume(level: real) returns (done: Completion)
      modifies this
      ensures done == (if old(client).Some? then Returned else Threw)
      ensures sent == old(sent) + (if old(client).Some? then [Request.SetVolume(old(client).value, Level(level))] else [])
      ensures client == old(client) && nextClient == old(nextClient) && player == old(player)
      ensures playing == old(playing) && subtitlesStyle == old(subtitlesStyle) && events == old(events)
    {
      if client.None? {
        return Threw;
      }
      sent := sent + [Request.SetVolume(client.value, Level(level))];
      return Returned;
    }

    /** `setVolumeMuted`: a mute flag on the current client; without a client it throws. */
    method SetVolumeMuted(muted: bool) returns (done: Completion)
      modifies this
      ensures done == (if old(client).Some? then Returned else Threw)
      ensures sent == old(sent) + (if old(client).Some? then [Request.SetVolume(old(client).value, Muted(muted))] else [])
      ensures client == old(client) && nextClient == old(nextClient) && player == old(player)
      ensures playing == old(playing) && subtitlesStyle == old(subtitlesStyle) && events == old(events)
    {
      if client.None? {
        return Threw;
      }
      sent := sent + [Request.SetVolume(client.value, Muted(muted))];
      return Returned;
    }

    /** Deactivate every track; without a player it throws. */
    method SubtitlesOff() returns (done: Completion)
      modifies this
      ensures done == (if old(player).Some? then Returned else Threw)
      ensures sent == old(sent) + (if old(player).Some? then [EditTracksInfo(ActiveTracks([]))] else [])
      ensures client == old(client) && nextClient == old(nextClient) && player == old(player)
      ensures playing == old(playing) && subtitlesStyle == old(subtitlesStyle) && events == old(events)
    {
      if player.None? {
        return Threw;
      }
      sent := sent + [EditTracksInfo(ActiveTracks([]))];
      return Returned;
    }

    /** Activate exactly the track `subId`; without a player it throws. */
    method ChangeSubtitles(subId: int) returns (done: Completion)
      modifies this
      ensures done == (if old(player).Some? then Returned else Threw)
      ensures sent == old(sent) + (if old(player).Some? then [EditTracksInfo(ActiveTracks([subId]))] else [])
      ensures client == old(client) && nextClient == old(nextClient) && player == old(player)
      ensures playing == old(playing) && subtitlesStyle == old(subtitlesStyle) && events == old(events)
    {
      if player.None? {
        return Threw;
      }
      sent := sent + [EditTracksInfo(ActiveTracks([subId]))];
      return Returned;
    }

    /**
     * Change only `fontScale` of the remembered style and send the whole
     * style. Without a style it throws at once; without a player it throws
     * after the style has been changed.
     */
    method ChangeSubtitlesSize(fontScale: real) returns (done: Completion)
      modifies this
      ensures done == (if old(subtitlesStyle).Some? && old(player).Some? then Returned else Threw)
      ensures old(subtitlesStyle).Some? ==> subtitlesStyle == Some(Rescaled(old(subtitlesStyle).value, fontScale))
      ensures old(subtitlesStyle).None? ==> subtitlesStyle.None?
      ensures sent == old(sent) + (if old(subtitlesStyle).Some? && old(player).Some?
                                   then [EditTracksInfo(TrackStyle(subtitlesStyle.value))] else [])
      ensures client == old(client) && nextClient == old(nextClient) && player == old(player)
      ensures playing == old(playing) && events == old(events)
    {
      if subtitlesStyle.None? {
        // setting `fontScale` on the missing style
        return Threw;
      }
      var newStyle := subtitlesStyle.value;
      newStyle := newStyle["fontScale" := Number(fontScale)];
      subtitlesStyle := Some(newStyle);
      if player.None? {
        return Threw;
      }
      sent := sent + [EditTracksInfo(TrackStyle(newStyle))];
      return Returned;
    }

    /**
     * `close`: stop the receiver app, then close the client and forget it.
     * Without a client it throws.
     */
    method Close() returns (done: Completion)
      requires Valid() && (client.Some? ==> player.Some?)
      modifies this
      ensures Valid()
      ensures done == (if old(client).Some? then Returned else Threw)
      ensures old(client).Some? ==>
                sent == old(sent) + [StopApp(old(client).value, old(player).value), CloseClient(old(client).value)]
      ensures old(client).None? ==> sent == old(sent)
      ensures client.None?
      ensures nextClient == old(nextClient) && player == old(player)
      ensures playing == old(playing) && subtitlesStyle == old(subtitlesStyle) && events == old(events)
    {
      if client.None? {
        return Threw;
      }
      var c := client.value;
      sent := sent + [StopApp(c, player.value)];
      sent := sent + [CloseClient(c)];
      client := None;
      return Returned;
    }
  }
}
