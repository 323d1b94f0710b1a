/**
 * The current device session (lib/device.js): a fresh cast client per `play`,
 * join-or-launch of the Default Media Receiver, the media descriptor and load
 * options, and the playback, volume and subtitle requests that follow.
 */
module Session {
  import opened Wrappers
  import opened Text
  import opened Media
  import opened Cast

  /** `contentType` of the descriptor: the explicit type, else the MIME guess, else `video/mp4`. */
  function ContentType(resource: Resource, mime: string -> Option<string>): (r: string)
    ensures r != ""
    ensures resource.Described? && Truthy(resource.contentType) ==> r == resource.contentType.value
    ensures (resource.Url? || !Truthy(resource.contentType)) && Truthy(mime(resource.url)) ==>
              r == mime(resource.url).value
    ensures (resource.Url? || !Truthy(resource.contentType)) && !Truthy(mime(resource.url)) ==>
              r == DefaultContentType
  {
    match resource
    case Url(url) => Or(mime(url), DefaultContentType)
    case Described(url, contentType, _, _, _) => Or(OrOption(contentType, mime(url)), DefaultContentType)
  }

  /**
   * The load options: the first track is activated when subtitles are given,
   * and only a video starts at once, at `seconds` or 0.
   */
  function Options(resource: Resource, seconds: Option<real>, contentType: string): (r: LoadOptions)
    ensures r.autoplay.Some? <==> Contains(contentType, "video")
    ensures r.currentTime.Some? <==> Contains(contentType, "video")
    ensures r.autoplay.Some? ==> r.autoplay.value && r.currentTime.value == OrZero(seconds)
    ensures r.activeTrackIds.Some? <==> resource.Described? && resource.subtitles.Some?
    ensures r.activeTrackIds.Some? ==> r.activeTrackIds.value == [0]
  {
    var video := Contains(contentType, "video");
    LoadOptions(
      if video then Some(true) else None,
      if video then Some(OrZero(seconds)) else None,
      if resource.Described? && resource.subtitles.Some? then Some([0]) else None)
  }

  /** A subtitle list always activates track 0, which exists exactly when the list is non-empty. */
  lemma ActiveTrackIsFirst(resource: Resource, seconds: Option<real>, mime: string -> Option<string>)
    requires resource.Described? && resource.subtitles.Some?
    ensures var media := Describe(resource, ContentType(resource, mime));
      && Options(resource, seconds, media.contentType).activeTrackIds == Some([0])
      && media.tracks.Some?
      && (resource.subtitles.value != [] <==> exists i | 0 <= i < |media.tracks.value| :: media.tracks.value[i].trackId == 0)
  {
    var tracks := Describe(resource, ContentType(resource, mime)).tracks.value;
    if resource.subtitles.value != [] {
      assert tracks[0].trackId == 0;
    }
  }

  /** `play`'s optional `opts`. */
  datatype PlayOpts = PlayOpts(seconds: Option<real>)

  /** The second argument of `play`: options, or the callback itself. */
  datatype OptsArg = Given(opts: PlayOpts) | CallbackInstead

  /** A function in the options position is the callback, and the options are `{}`. */
  function EffectiveOpts(arg: OptsArg): (r: PlayOpts)
    ensures arg.Given? ==> r == arg.opts
    ensures arg.CallbackInstead? ==> r.seconds.None?
  {
    match arg
    case Given(opts) => opts
    case CallbackInstead => PlayOpts(None)
  }

  /** What `_launch` hands its callback: the getSessions error, the join/launch error, or the player. */
  function LaunchReply(client: nat, sessions: Reply<seq<SessionInfo>>, started: Outcome): (r: Reply<nat>)
    ensures sessions.Err? ==> r == Err(sessions.error)
    ensures sessions.Ok? && started.Failed? ==> r == Err(started.error)
    ensures r.Ok? <==> sessions.Ok? && started.Done?
    ensures r.Ok? ==> r.value == client
  {
    match sessions
    case Err(e) => Err(e)
    case Ok(_) => if started.Failed? then Err(started.error) else Ok(client)
  }

  /** The requests `_launch` sends on a client. */
  function LaunchRequests(client: nat, sessions: Reply<seq<SessionInfo>>, appId: string): (r: seq<Request>)
    ensures |r| >= 1 && r[0] == GetSessions(client)
    ensures sessions.Err? ==> |r| == 1
    ensures sessions.Ok? ==> |r| == 2 && r[1] == JoinOrLaunch(client, sessions.value, appId)
  {
    [GetSessions(client)] + if sessions.Ok? then [JoinOrLaunch(client, sessions.value, appId)] else []
  }

  /** What the session emits. */
  datatype DeviceEvent = Connected | StatusChanged(status: Status) | FinishedPlaying

  class Device {
    const name: Option<string>
    const friendlyName: Option<string>
    const host: Option<string>
    var client: Option<nat>
    var nextClient: nat
    var player: Option<nat>
    var playing: bool
    var subtitlesStyle: Option<Style>
    var sent: seq<Request>
    var events: seq<DeviceEvent>

    /** The client and the player were both created by this device. */
    ghost predicate Valid()
      reads this
    {
      (client.Some? ==> client.value < nextClient) && (player.Some? ==> player.value < nextClient)
    }

    constructor (name: Option<string>, friendlyName: Option<string>, host: Option<string>)
      ensures Valid()
      ensures this.name == name && this.friendlyName == friendlyName && this.host == host
      ensures client.None? && player.None? && !playing && subtitlesStyle.None?
      ensures nextClient == 0 && sent == [] && events == []
    {
      this.name := name;
      this.friendlyName := friendlyName;
      this.host := host;
      client := None;
      nextClient := 0;
      player := None;
      playing := false;
      subtitlesStyle := None;
      sent := [];
      events := [];
    }

    /**
     * `_connect`: close the current client, if any, and connect a fresh one;
     * the continuation runs only once it is connected.
     */
    method Connect(connected: bool) returns (ok: bool)
      requires Valid()
      modifies this
      ensures Valid()
      ensures client == Some(old(nextClient)) && nextClient == old(nextClient) + 1
      ensures sent == old(sent) + (if old(client).Some? then [CloseClient(old(client).value)] else [])
                     + [ConnectClient(old(nextClient), host)]
      ensures events == old(events) + (if connected then [Connected] else [])
      ensures ok == connected
      ensures player == old(player) && playing == old(playing) && subtitlesStyle == old(subtitlesStyle)
    {
      if client.Some? {
        sent := sent + [CloseClient(client.value)];
      }
      client := Some(nextClient);
      nextClient := nextClient + 1;
      sent := sent + [ConnectClient(client.value, host)];
      ok := connected;
      if connected {
        events := events + [Connected];
      }
    }

    /**
     * The client's `error` handler: it closes the current client but keeps it,
     * so nothing reconnects; after `close()` the client is null and it throws.
     */
    method OnClientError() returns (done: Completion)
      modifies this
      ensures done == (if old(client).Some? then Returned else Threw)
      ensures sent == old(sent) + (if old(client).Some? then [CloseClient(old(client).value)] else [])
      ensures client == old(client) && nextClient == old(nextClient) && player == old(player)
      ensures playing == old(playing) && subtitlesStyle == old(subtitlesStyle) && events == old(events)
    {
      if client.None? {
        // `client.close()` after `close()` has set the client to null
        return Threw;
      }
      sent := sent + [CloseClient(client.value)];
      return Returned;
    }

    /** `_launch`: without a client the callback is never called. */
    method LaunchApp(appId: string, sessions: Reply<seq<SessionInfo>>, started: Outcome)
      returns (launched: Option<Reply<nat>>)
      modifies this
      ensures old(client).None? ==> launched.None? && sent == old(sent)
      ensures old(client).Some? ==>
                && sent == old(sent) + LaunchRequests(old(client).value, sessions, appId)
                && launched == Some(LaunchReply(old(client).value, sessions, started))
      ensures client == old(client) && nextClient == old(nextClient) && player == old(player)
      ensures playing == old(playing) && subtitlesStyle == old(subtitlesStyle) && events == old(events)
    {
      if client.None? {
        return None;
      }
      var c := client.value;
      sent := sent + [GetSessions(c)];
      if sessions.Err? {
        return Some(Err(sessions.error));
      }
      var sess := sessions.value;
      if |sess| > 0 && sess[0].appId == appId {
        sent := sent + [Join(c, sess[0], appId)];
      } else {
        sent := sent + [Launch(c, appId)];
      }
      if started.Failed? {
        return Some(Err(started.error));
      }
      return Some(Ok(c));
    }

    /**
     * `_privatePlayMedia`: build the descriptor and options and load them;
     * `playing` is set when the load completes, even with an error.
     */
    method PrivatePlayMedia(resource: Resource, opts: PlayOpts, loaded: Reply<Status>, mime: string -> Option<string>)
      returns (delivered: Reply<Status>)
      requires player.Some?
      modifies this
      ensures var contentType := ContentType(resource, mime);
        sent == old(sent) + [Load(Describe(resource, contentType), Options(resource, opts.seconds, contentType))]
      ensures playing
      ensures subtitlesStyle == (if resource.Described? && resource.subtitlesStyle.Some? then resource.subtitlesStyle
                                 else old(subtitlesStyle))
      ensures delivered == loaded
      ensures client == old(client) && nextClient == old(nextClient) && player == old(player) && events == old(events)
    {
      var contentType := ContentType(resource, mime);
      var media := BuildMedia(resource, contentType);
      var options := LoadOptions(None, None, None);
      if resource.Described? {
        if resource.subtitles.Some? {
          options := options.(activeTrackIds := Some([0]));
        }
        if resource.subtitlesStyle.Some? {
          subtitlesStyle := resource.subtitlesStyle;
        }
      }
      if Contains(contentType, "video") {
        options := options.(autoplay := Some(true), currentTime := Some(OrZero(opts.seconds)));
      }
      sent := sent + [Load(media, options)];
      playing := true;
      delivered := loaded;
    }

    /**
     * `play`: connect, start the receiver, then load. `connected` says whether
     * the connection succeeded; the other replies are those of getSessions,
     * join/launch and load. Returns what the callback receives, if it is called.
     */
    method Play(resource: Resource, arg: OptsArg, connected: bool, sessions: Reply<seq<SessionInfo>>,
                started: Outcome, loaded: Reply<Status>, mime: string -> Option<string>)
      returns (delivered: Option<Reply<Status>>)
      requires Valid()
      modifies this
      ensures Valid()
      ensures var c := old(nextClient);
        var launch := LaunchReply(c, sessions, started);
        var contentType := ContentType(resource, mime);
        && client == Some(c) && nextClient == c + 1
        && sent == old(sent) + (if old(client).Some? then [CloseClient(old(client).value)] else [])
                  + [ConnectClient(c, host)]
                  + (if connected then LaunchRequests(c, sessions, DefaultMediaReceiverAppId) else [])
                  + (if connected && launch.Ok?
                     then [Load(Describe(resource, contentType), Options(resource, EffectiveOpts(arg).seconds, contentType))]
                     else [])
        && delivered == (if !connected then None else if launch.Err? then Some(Err(launch.error)) else Some(loaded))
        && player == (if connected && launch.Ok? then Some(c) else old(player))
        && playing == (if connected && launch.Ok? then true else old(playing))
        && subtitlesStyle == (if connected && launch.Ok? && resource.Described? && resource.subtitlesStyle.Some?
                              then resource.subtitlesStyle else old(subtitlesStyle))
      ensures events == old(events) + (if connected then [Connected] else [])
    {
      var opts := EffectiveOpts(arg);
      var ok := Connect(connected);
      if !ok {
        return None;
      }
      var launched := LaunchApp(DefaultMediaReceiverAppId, sessions, started);
      match launched.value {
        case Err(e) =>
          delivered := Some(Err(e));
        case Ok(p) =>
          player := Some(p);
          var reply := PrivatePlayMedia(resource, opts, loaded, mime);
          delivered := Some(reply);
      }
    }

    /**
     * The player's `status` listener: re-emit, and emit `finished` for
     * IDLE/FINISHED. A null status throws when its `playerState` is read for
     * the debug line, before anything is emitted.
     */
    method OnStatus(status: Option<Status>) returns (done: Completion)
      modifies this
      ensures done == (if status.Some? then Returned else Threw)
      ensures status.None? ==> events == old(events)
      ensures status.Some? ==>
                events == old(events) + [StatusChanged(status.value)]
                          + (if Finished(status.value) then [FinishedPlaying] else [])
      ensures sent == old(sent) && client == old(client) && nextClient == old(nextClient) && player == old(player)
      ensures playing == old(playing) && subtitlesStyle == old(subtitlesStyle)
    {
      if status.None? {
        return Threw;
      }
      var st := status.value;
      events := events + [StatusChanged(st)];
      if st.playerState == "IDLE" && st.idleReason == Some("FINISHED") {
        events := events + [FinishedPlaying];
      }
      return Returned;
    }

    /**
     * `getStatus`: the player's reply goes straight to the callback. Without a
     * player it throws, and nothing is delivered.
     */
    method GetStatus(status: Reply<Status>) returns (done: Completion, delivered: Option<Reply<Status>>)
      modifies this
      ensures done == (if old(player).Some? then Returned else Threw)
      ensures sent == old(sent) + (if old(player).Some? then [Request.GetStatus] else [])
      ensures delivered == (if old(player).Some? then Some(status) else None)
      ensures client == old(client) && nextClient == old(nextClient) && player == old(player)
      ensures playing == old(playing) && subtitlesStyle == old(subtitlesStyle) && events == old(events)
    {
      if player.None? {
        return Threw, None;
      }
      sent := sent + [Request.GetStatus];
      return Returned, Some(status);
    }

    /** `seekTo`: an absolute position; without a player it throws. */
    method SeekTo(newCurrentTime: real) returns (done: Completion)
      modifies this
      ensures done == (if old(player).Some? then Returned else Threw)
      ensures sent == old(sent) + (if old(player).Some? then [Request.Seek(newCurrentTime)] else [])
      ensures client == old(client) && nextClient == old(nextClient) && player == old(player)
      ensures playing == old(playing) && subtitlesStyle == old(subtitlesStyle) && events == old(events)
    {
      if player.None? {
        return Threw;
      }
      sent := sent + [Request.Seek(newCurrentTime)];
      return Returned;
    }

    /**
     * `seek`: relative to the reported position. A status error is reported
     * and no seek is sent; otherwise the seek's own reply reaches the callback.
     * Without a player `getStatus` throws.
     */
    method Seek(seconds: real, status: Reply<Status>) returns (done: Completion, error: Option<string>)
      modifies this
      ensures done == (if old(player).Some? then Returned else Threw)
      ensures old(player).None? ==> sent == old(sent) && error.None?
      ensures old(player).Some? && status.Err? ==> sent == old(sent) + [Request.GetStatus] && error == Some(status.error)
      ensures old(player).Some? && status.Ok? ==>
                sent == old(sent) + [Request.GetStatus, Request.Seek(status.value.currentTime + seconds)] && error.None?
      ensures client == old(client) && nextClient == old(nextClient) && player == old(player)
      ensures playing == old(playing) && subtitlesStyle == old(subtitlesStyle) && events == old(events)
    {
      var reply;
      done, reply := GetStatus(status);
      error := None;
      if reply.Some? {
        match reply.value {
          case Err(e) =>
            error := Some(e);
          case Ok(s) =>
            done := SeekTo(s.currentTime + seconds);
        }
      }
    }

    /** `pause`: `playing` is cleared before the player is used, so also when it throws. */
    method Pause() returns (done: Completion)
      modifies this
      ensures done == (if old(player).Some? then Returned else Threw)
      ensures !playing && sent == old(sent) + (if old(player).Some? then [PauseMedia] else [])
      ensures client == old(client) && nextClient == old(nextClient) && player == old(player)
      ensures subtitlesStyle == old(subtitlesStyle) && events == old(events)
    {
      playing := false;
      if player.None? {
        return Threw;
      }
      sent := sent + [PauseMedia];
      return Returned;
    }

    /** `unpause`: `playing` is set before the player is used, so also when it throws. */
    method Unpause() returns (done: Completion)
      modifies this
      ensures done == (if old(player).Some? then Returned else Threw)
      ensures playing && sent == old(sent) + (if old(player).Some? then [PlayMedia] else [])
      ensures client == old(client) && nextClient == old(nextClient) && player == old(player)
      ensures subtitlesStyle == old(subtitlesStyle) && events == old(events)
    {
      playing := true;
      if player.None? {
        return Threw;
      }
      sent := sent + [PlayMedia];
      return Returned;
    }

    /** `resume`, another name for `unpause`. */
    method Resume() returns (done: Completion)
      modifies this
      ensures done == (if old(player).Some? then Returned else Threw)
      ensures playing && sent == old(sent) + (if old(player).Some? then [PlayMedia] else [])
      ensures client == old(client) && nextClient == old(nextClient) && player == old(player)
      ensures subtitlesStyle == old(subtitlesStyle) && events == old(events)
    {
      done := Unpause();
    }

    /** `stop`: `playing` is cleared before the player is used, so also when it throws. */
    method Stop() returns (done: Completion)
      modifies this
      ensures done == (if old(player).Some? then Returned else Threw)
      ensures !playing && sent == old(sent) + (if old(player).Some? then [StopMedia] else [])
      ensures client == old(client) && nextClient == old(nextClient) && player == old(player)
      ensures subtitlesStyle == old(subtitlesStyle) && events == old(events)
    {
      playing := false;
      if player.None? {
        return Threw;
      }
      sent := sent + [StopMedia];
      return Returned;
    }

    /** `setVolume`: a level on the current client; without a client it throws. */
    method SetVolume(level: real) returns (done: Completion)
      modifies this
      ensures done == (if old(client).Some? then Returned else Threw)
      ensures sent == old(sent) + (if old(client).Some? then [Request.SetVolume(old(client).value, Level(level))] else [])
      ensures client == old(client) && nextClient == old(nextClient) && player == old(player)
      ensures playing == old(playing) && subtitlesStyle == old(subtitlesStyle) && events == old(events)
    {
      if client.None? {
        return Threw;
      }
      sent := sent + [Request.SetVolume(client.value, Level(level))];
      return Returned;
    }

    /** `setVolumeMuted`: a mute flag on the current client; without a client it throws. */
    method SetVolumeMuted(muted: bool) returns (done: Completion)
      modifies this
      ensures done == (if old(client).Some? then Returned else Threw)
      ensures sent == old(sent) + (if old(client).Some? then [Request.SetVolume(old(client).value, Muted(muted))] else [])
      ensures client == old(client) && nextClient == old(nextClient) && player == old(player)
      ensures playing == old(playing) && subtitlesStyle == old(subtitlesStyle) && events == old(events)
    {
      if client.None? {
        return Threw;
      }
      sent := sent + [Request.SetVolume(client.value, Muted(muted))];
      return Returned;
    }

    /** Deactivate every track; without a player it throws. */
    method SubtitlesOff() returns (done: Completion)
      modifies this
      ensures done == (if old(player).Some? then Returned else Threw)
      ensures sent == old(sent) + (if old(player).Some? then [EditTracksInfo(ActiveTracks([]))] else [])
      ensures client == old(client) && nextClient == old(nextClient) && player == old(player)
      ensures playing == old(playing) && subtitlesStyle == old(subtitlesStyle) && events == old(events)
    {
      if player.None? {
        return Threw;
      }
      sent := sent + [EditTracksInfo(ActiveTracks([]))];
      return Returned;
    }

    /** Activate exactly the track `subId`; without a player it throws. */
    method ChangeSubtitles(subId: int) returns (done: Completion)
      modifies this
      ensures done == (if old(player).Some? then Returned else Threw)
      ensures sent == old(sent) + (if old(player).Some? then [EditTracksInfo(ActiveTracks([subId]))] else [])
      ensures client == old(client) && nextClient == old(nextClient) && player == old(player)
      ensures playing == old(playing) && subtitlesStyle == old(subtitlesStyle) && events == old(events)
    {
      if player.None? {
        return Threw;
      }
      sent := sent + [EditTracksInfo(ActiveTracks([subId]))];
      return Returned;
    }

    /**
     * Change only `fontScale` of the remembered style and send the whole
     * style. Without a style it throws at once; without a player it throws
     * after the style has been changed.
     */
    method ChangeSubtitlesSize(fontScale: real) returns (done: Completion)
      modifies this
      ensures done == (if old(subtitlesStyle).Some? && old(player).Some? then Returned else Threw)
      ensures old(subtitlesStyle).Some? ==> subtitlesStyle == Some(Rescaled(old(subtitlesStyle).value, fontScale))
      ensures old(subtitlesStyle).None? ==> subtitlesStyle.None?
      ensures sent == old(sent) + (if old(subtitlesStyle).Some? && old(player).Some?
                                   then [EditTracksInfo(TrackStyle(subtitlesStyle.value))] else [])
      ensures client == old(client) && nextClient == old(nextClient) && player == old(player)
      ensures playing == old(playing) && events == old(events)
    {
      if subtitlesStyle.None? {
        // setting `fontScale` on the missing style
        return Threw;
      }
      var style := subtitlesStyle.value;
      style := style["fontScale" := Number(fontScale)];
      subtitlesStyle := Some(style);
      if player.None? {
        return Threw;
      }
      sent := sent + [EditTracksInfo(TrackStyle(style))];
      return Returned;
    }

    /**
     * `close`: stop the receiver app, then close the client and forget it.
     * Without a client it throws.
     */
    method Close() returns (done: Completion)
      requires Valid() && (client.Some? ==> player.Some?)
      modifies this
      ensures Valid()
      ensures done == (if old(client).Some? then Returned else Threw)
      ensures old(client).Some? ==>
                sent == old(sent) + [StopApp(old(client).value, old(player).value), CloseClient(old(client).value)]
      ensures old(client).None? ==> sent == old(sent)
      ensures client.None?
      ensures nextClient == old(nextClient) && player == old(player)
      ensures playing == old(playing) && subtitlesStyle == old(subtitlesStyle) && events == old(events)
    {
      if client.None? {
        return Threw;
      }
      var c := client.value;
      sent := sent + [StopApp(c, player.value)];
      sent := sent + [CloseClient(c)];
      client := None;
      return Returned;
    }
  }
}
