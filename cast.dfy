/**
 * The transport seen from this library: the requests it sends to a cast
 * client, a receiver session or its media channel, and the replies that come
 * back. The transport itself (castv2-client) is not part of this model: every
 * reply is an input, and every request is appended to a log.
 */
module Cast {
  import opened Wrappers
  import opened Media

  /** `DefaultMediaReceiver.APP_ID` of castv2-client. */
  const DefaultMediaReceiverAppId := "CC1AD845"

  /** A callback's `(err, value)`. */
  datatype Reply<T> = Ok(value: T) | Err(error: string)

  /** A callback that only reports whether an error occurred. */
  datatype Outcome = Done | Failed(error: string)

  /** An entry of `getSessions`' result. */
  datatype SessionInfo = SessionInfo(appId: string, sessionId: string)

  /** A media status as far as this library reads it. */
  datatype Status = Status(currentTime: real, playerState: string, idleReason: Option<string>)

  /** The object given to `client.setVolume`. */
  datatype Volume = Level(level: real) | Muted(muted: bool)

  /** The payload of an EDIT_TRACKS_INFO session request. */
  datatype TrackEdit = ActiveTracks(activeTrackIds: seq<int>) | TrackStyle(textTrackStyle: Style)

  /**
   * A request sent on the wire. Clients are numbered in the order they are
   * created; a player is named by the client that started it. Player
   * requests go to the device's current player.
   */
  datatype Request =
    | ConnectClient(client: nat, host: Option<string>)
    | CloseClient(client: nat)
    | GetSessions(client: nat)
    | Join(client: nat, session: SessionInfo, appId: string)
    | Launch(client: nat, appId: string)
    | Load(media: MediaInfo, options: LoadOptions)
    | GetStatus
    | Seek(currentTime: real)
    | PlayMedia
    | PauseMedia
    | StopMedia
    | SetVolume(client: nat, volume: Volume)
    | EditTracksInfo(edit: TrackEdit)
    | StopApp(client: nat, player: nat)

  /** `_launch`'s choice: join the first reported session if it runs the app, else launch it. */
  function JoinOrLaunch(client: nat, sessions: seq<SessionInfo>, appId: string): (r: Request)
    ensures r.Join? || r.Launch?
    ensures r.client == client && r.appId == appId
    ensures r.Join? <==> |sessions| > 0 && sessions[0].appId == appId
    ensures r.Join? ==> r.session == sessions[0]
  {
    if |sessions| > 0 && sessions[0].appId == appId then Join(client, sessions[0], appId)
    else Launch(client, appId)
  }

  /** Only the first session is looked at: a matching session further down is launched over. */
  lemma OnlyFirstSessionJoined(client: nat, first: SessionInfo, rest: seq<SessionInfo>, appId: string)
    requires first.appId != appId
    ensures JoinOrLaunch(client, [first] + rest, appId) == Launch(client, appId)
  {
  }

  /** `status.playerState === 'IDLE' && status.idleReason === 'FINISHED'`. */
  predicate Finished(status: Status) {
    status.playerState == "IDLE" && status.idleReason == Some("FINISHED")
  }
}
