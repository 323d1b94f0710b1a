# chromecast-api in Dafny

A model of the core of chromecast-api. The library finds cast receivers on the
local network and drives playback sessions on them. The model covers four areas:

- **Discovery directory.** Both front ends fold asynchronous, partial discovery
  answers into one dictionary of devices, keyed by device id. Each entry holds a
  friendly name and a host, and either may be null.
  - The current client (`lib/client.js`) reads mDNS PTR/SRV/TXT answers and
    SSDP descriptor documents. It announces `device` when an entry becomes
    complete.
  - The legacy browser (`lib/Browser.js`) reads PTR/A answers and SSDP
    descriptors keyed by `<friendlyName>`. It announces `deviceOn` when an
    entry first gets a host.
- **Session state.** Each front end has its own device object:
  - the current device (`lib/device.js`);
  - the legacy device (`lib/Device.js`).

  Each one holds a client handle, a player handle, a playing flag and the
  remembered subtitle style. Every request it sends to the transport is
  appended to a log.
- **Media descriptor construction.** Both devices and the Default Media
  Receiver app (`apps/default/DefaultMediaReceiver.js`) build a descriptor when
  loading media:
  - the content type;
  - subtitle tracks numbered from 0;
  - text-track style and cover metadata;
  - the autoplay options.
- **YouTube id classification** (`lib/utils.js`): a priority decision over
  three regular expressions.

Each front end follows the source's own form:
- **Classes over fields.** The directory, the session handles and the request
  log are class fields, updated by methods. Each method is proved equal to a
  specification function of the old state and the inputs.
- **Loops as loops.** The TXT segment merge, the subtitle-track push, the list
  passes over answers and the walk over network interfaces are `while` loops
  with invariants.
- **Directory properties as lemmas.** Properties of the directory are proved
  over the specification functions. They are also proved over whole runs of
  handler invocations.

Modules:
- `Wrappers`: the `Option` type, and `Completion`: whether a call returns or throws.
- `Text`:
  - JavaScript truthiness, `||` and `indexOf`;
  - the string and global-regex forms of `replace`;
  - the lazy `<tag>(.+?)</tag>` match.
- `Records`: the directory entry and the probes.
- `YoutubeId`: `lib/utils.js`.
- `Discovery`: `lib/client.js`.
- `LegacyDiscovery`: `lib/Browser.js`.
- `Media`: the descriptor pieces shared by all three builders.
- `Cast`:
  - requests and replies;
  - the join-or-launch choice;
  - the IDLE/FINISHED rule.
- `Session`: `lib/device.js`.
- `Receiver`: `apps/default/DefaultMediaReceiver.js`.
- `LegacySession`: `lib/Device.js`.

The transport is abstract. Every reply a callback would see is an input to
the method that waits for it:
- the connection outcome;
- the sessions list;
- the join or launch outcome;
- the load and status replies.

What such a method returns is what the callback receives, or `None` if it is
never called. `mime.getType` is an arbitrary function parameter,
`string -> Option<string>`.

Where the code and the design notes of the library disagree, the model follows
the code:
- **First value kept over mDNS.** The current client's SRV and TXT handlers
  fill only fields that are unset, so a value learned later over mDNS never
  overwrites one already known. The SSDP upsert (lib/client.js:139-148) is
  different: it replaces both the name and the host of an incomplete entry.
- **Device announced once.** A complete entry never changes and is never
  re-announced.
- **Fetches survive `destroy`.** A descriptor fetch already under way during
  `destroy` still updates the directory and can announce a device. Only the
  listeners are removed.
- **No lazy reconnection.** Only `play` connects. Every other operation reads
  the client or player handle. Without it, the operation throws a TypeError, and
  the model returns `Threw`. Whatever the operation changed before the throw
  stays changed: `pause` has already cleared `playing`, and
  `changeSubtitlesSize` has already rescaled the style.
- **First session only.** Join-or-launch looks only at the first reported
  session, not at the first matching one.
- **Callbacks required.** In `lib/device.js`, `noop` is not defined, so an
  omitted callback would throw. The methods always report what the callback
  receives. `play(resource, fn)` is modelled by `OptsArg.CallbackInstead`.

## Model

| member | source | states |
|---|---|---|
| Text.IndexFrom | lib/client.js:124 | `indexOf`: the result is an occurrence at or after the start, and no earlier occurrence exists; absent only when there is none |
| Text.Contains | lib/client.js:124 | `indexOf(pat) !== -1`: some occurrence exists, by `IndexFrom`'s contract |
| Text.OrOption | lib/device.js:112 | `a \|\| b` for optional strings: `a` when truthy, otherwise `b` |
| Text.Or | lib/device.js:106 | `a \|\| default`: `a`'s value when truthy, otherwise the default |
| Text.RemoveFirst | lib/Browser.js:26 | string `replace`: only the first occurrence of the pattern is cut out; without one the string is unchanged |
| Text.RemoveFirstSuffixPlain | lib/Browser.js:36 | a suffix is stripped exactly when its first character does not occur before it |
| Text.RemoveFirstPlain | lib/Browser.js:26-36 | a pattern whose first character is absent changes nothing; as a suffix after a prefix without that character, it leaves the prefix |
| Text.RemoveAll | lib/client.js:135 | global `replace`: the result is never longer than the input |
| Text.RemoveAllWithin | lib/client.js:135 | removal only deletes: the result's characters, with multiplicity, are among the input's |
| Text.RemoveAllAbsent | lib/client.js:135 | if the pattern's first character does not occur, nothing changes |
| Text.RemoveAllChar | lib/client.js:135 | removing every `-` leaves no `-`, and every other character with its multiplicity |
| Text.TagContent | lib/client.js:127-131 | `<tag>(.+?)</tag>`: no result iff no open tag is followed by non-empty content without line terminators and a close tag; otherwise the leftmost such match with the shortest content |
| Text.TagFrom | lib/client.js:127-128 | the scan from a position finds the leftmost match at or after it, and there the shortest content; none iff no match starts at or after it |
| Text.TagContentOccurs | lib/client.js:128 | the captured content is non-empty, has no line terminator and sits between the tags in the body |
| YoutubeId.LinkFrom | lib/utils.js:2 | the first position where `youtube.com/watch?v=` or `youtu.be/` starts; none before it; absent iff neither occurs |
| YoutubeId.IdRun | lib/utils.js:2 | the captured run is the longest run of `[\w-]` characters at that point |
| YoutubeId.YoutubeCapture | lib/utils.js:2 | group 1 of the YouTube pattern: absent iff no link form occurs; made only of id characters |
| YoutubeId.YoutubeCaptureIsLeftmost | lib/utils.js:2-13 | the capture is group 1 of the leftmost match: none iff there is no match; otherwise a match starts at the first link form, every match starting no later has its `youtu` there, and the capture is that form's id run |
| YoutubeId.PrefixHasNoY | lib/utils.js:2 | no text the optional scheme, `www.` and `music.` groups consume contains a `y` |
| YoutubeId.UriScan | lib/utils.js:3 | the scan finds a word character, a colon and a non-space character iff they occur |
| YoutubeId.UriScanIsRegex | lib/utils.js:3 | the scan agrees with `\w+:(/?/?)[^\s]+` matching somewhere |
| YoutubeId.NonSepFrom | lib/utils.js:4 | the first non-separator at or after a position, with every character before it a separator |
| YoutubeId.PathScan | lib/utils.js:4 | the scan finds a backslash followed later by a non-separator iff one exists |
| YoutubeId.PathScanIsRegex | lib/utils.js:4 | the scan agrees with the path pattern matching somewhere |
| YoutubeId.GetYoutubeId | lib/utils.js:10-27 | null for a non-string or empty input; a YouTube link yields its id; otherwise a URI- or path-shaped string yields null; otherwise the string itself |
| YoutubeId.ExtractedIdIsClean | lib/utils.js:17-19 | an id extracted from a link is made of word characters and `-` only |
| YoutubeId.WatchLinkWinsOverUri | lib/utils.js:17-20 | `https://www.youtube.com/watch?v=LqYIKYEnX7Y` yields `LqYIKYEnX7Y` although it is also URI-shaped |
| YoutubeId.OtherUrlRejected | lib/utils.js:20-22 | `https://example.com/video.mp4` yields null |
| YoutubeId.BareIdKept | lib/utils.js:23-26 | the bare id `Z7R8XRKqHAI` is returned unchanged |
| YoutubeId.LinkAtNeedsY | lib/utils.js:2 | both link forms start with `y` |
| YoutubeId.UriNeedsColon | lib/utils.js:3 | a URI-shaped string contains a colon |
| YoutubeId.PathNeedsBackslash | lib/utils.js:4 | a path-shaped string contains a backslash |
| YoutubeId.IdRunToEnd | lib/utils.js:2 | an id run reaching the end of the string is captured whole |
| Records.DescriptorLocation | lib/client.js:113 | a descriptor is fetched iff the status is 200 and LOCATION is truthy, and then from LOCATION |
| Discovery.LastHolder | lib/client.js:76-81 | the last segment holding a key: it holds the key and no later one does; absent iff no segment holds it |
| Discovery.Merged | lib/client.js:76-81 | the segments merged in order, a later key overwriting an earlier one; what each key ends up as is stated by `MergedLastWins` |
| Discovery.MergedLastWins | lib/client.js:76-81 | a key is merged iff some segment holds it, and its value is the one from the last segment that holds it |
| Discovery.MergeSegments | lib/client.js:76-81 | the nested loops compute the segment merge |
| Discovery.FriendlyName | lib/client.js:86-87 | `fn` when truthy, else `n` when truthy, else nothing |
| Discovery.KeyOf | lib/client.js:56-70 | the entry an answer is about: a PTR's data, any other answer's own name |
| Discovery.AnswerStep | lib/client.js:50-93 | PTR registers an empty entry if absent; SRV fills a missing host and TXT a missing name, announcing when the entry completes; nothing else changes, complete entries never change, only the answer's key is touched, at most one event, and every event is about the answer's key |
| Discovery.FoldAnswers | lib/client.js:95-96 | folding answers never drops a key or changes a complete entry |
| Discovery.FoldAnswersAppend | lib/client.js:95-96 | folding two lists is folding the first, then the second from where it left off |
| Discovery.ResponseStep | lib/client.js:49-97 | a response never drops a key or changes a complete entry |
| Discovery.AnswersBeforeAdditionals | lib/client.js:95-96 | additionals are handled in the directory the answers left, and their events follow |
| Discovery.UnknownKeysIgnored | lib/client.js:62-70 | SRV and TXT answers for keys without a PTR change nothing and announce nothing |
| Discovery.InstanceAnnounced | lib/client.js:56-93 | an instance's PTR, SRV and TXT answers share one key; from an empty directory they leave one complete entry, announced once, by the TXT |
| Discovery.UdnCore | lib/client.js:135 | the UDN with `uuid:` and `-` removed has no `-` and keeps every other character |
| Discovery.GoogleDevice | lib/client.js:122-124 | the parsed document has a device with a truthy manufacturer and friendly name, and the manufacturer contains `Google` |
| Discovery.CanonicalId | lib/client.js:135 | the id is `Chromecast-`, the cleaned UDN, then `._googlecast._tcp.local` |
| Discovery.CanonicalIdOfUuid | lib/client.js:135 | `uuid:X-Y` becomes `Chromecast-XY._googlecast._tcp.local` |
| Discovery.CompleteEntryKept | lib/client.js:139-148 | a descriptor whose key already holds a complete entry changes nothing and announces nothing |
| Discovery.DescriptorMeetsMdnsEntry | lib/client.js:56-148 | a receiver announced over mDNS as `Chromecast-XY._googlecast._tcp.local`, then seen over SSDP with UDN `uuid:X-Y`, keeps one entry and is announced once |
| Discovery.DescriptorIdentity | lib/client.js:122-131 | accepted iff the manufacturer contains Google, both fields are truthy and both tag regexes match; then the id and friendly name come from the matches |
| Discovery.IdentityNamed | lib/client.js:128-136 | an accepted descriptor's friendly name is non-empty |
| Discovery.UpsertStep | lib/client.js:139-148 | an absent or incomplete entry is overwritten with both fields and announced; a complete one is left alone |
| Discovery.DescriptorStep | lib/client.js:120-149 | a rejected descriptor changes nothing; an accepted one is upserted; with a non-empty address every announced entry is complete |
| Discovery.InputStep | lib/client.js:49-149 | one handler invocation: an mDNS response as `ResponseStep`, a fetched descriptor as `DescriptorStep`; no key is dropped and no complete entry changes |
| Discovery.Run | lib/client.js:49-149 | the handler invocations in arrival order, each from the directory the last left; no key is dropped and no complete entry changes |
| Discovery.AnnouncedOnce | lib/client.js:56-148 | over any run with non-empty hosts, no id is announced twice and every announced entry stays complete |
| Discovery.Client.constructor | lib/client.js:18-27 | an empty directory, both listeners open, one mDNS PTR query and one SSDP search |
| Discovery.Client.OnAnswer | lib/client.js:50-93 | the handler updates the directory and events as `AnswerStep` |
| Discovery.Client.OnAnswers | lib/client.js:95 | the loop over a list updates them as `FoldAnswers` |
| Discovery.Client.OnMdnsResponse | lib/client.js:49-97 | a response is folded answers first; after `destroy` nothing happens |
| Discovery.Client.OnSsdpResponse | lib/client.js:112-115 | the fetched URL, or none after `destroy` |
| Discovery.Client.OnDescriptor | lib/client.js:120-149 | the SSDP upsert updates the directory and events as `DescriptorStep`, also after `destroy` |
| Discovery.Client.Update | lib/client.js:162-168 | re-probes on every listener still open |
| Discovery.Client.Destroy | lib/client.js:170-182 | closes both listeners; safe to call twice |
| LegacyDiscovery.PtrStep | lib/Browser.js:23-31 | a PTR answer of the cast service registers `{name: key, host: null}` under its data minus `._googlecast._tcp.local`, unless the key exists |
| LegacyDiscovery.PtrKey | lib/Browser.js:26 | the PTR data with its first `._googlecast._tcp.local` cut out; what that gives for an instance name is stated by `PtrKeyOfInstance` |
| LegacyDiscovery.AKey | lib/Browser.js:36 | the A record's name with its first `.local` cut out; what that gives for an instance name is stated by `AKeyOfInstance` |
| LegacyDiscovery.PtrKeyOfInstance | lib/Browser.js:26 | a PTR for `<instance>._googlecast._tcp.local` is keyed by `<instance>` when it has no dot; data without a dot is its own key |
| LegacyDiscovery.AKeyOfInstance | lib/Browser.js:36 | an A record for `<instance>.local` is keyed by `<instance>` when it has no dot; a name without a dot is its own key |
| LegacyDiscovery.FoldPtr | lib/Browser.js:23-32 | every cast PTR answer of a response is registered and nothing with a host changes |
| LegacyDiscovery.AStep | lib/Browser.js:34-46 | an A answer gives a known host-less entry its address and announces `[address]`; otherwise nothing changes |
| LegacyDiscovery.FoldA | lib/Browser.js:48-49 | the A passes never drop a key or change an entry with a host |
| LegacyDiscovery.FoldAAppend | lib/Browser.js:48-49 | additionals then answers is one pass after the other |
| LegacyDiscovery.ResponseStep | lib/Browser.js:22-50 | PTR from answers only, then A from additionals then answers; entries with a host never change |
| LegacyDiscovery.AdditionalPtrIgnored | lib/Browser.js:23 | a response whose only records are non-A additionals changes nothing |
| LegacyDiscovery.NoAIgnored | lib/Browser.js:37 | a list without A answers leaves the directory and events unchanged |
| LegacyDiscovery.SsdpStep | lib/Browser.js:87-110 | no friendlyName match changes nothing; an absent name is inserted with the address and announced; a host-less one gets the address and is announced; one with a host is left alone |
| LegacyDiscovery.InputStep | lib/Browser.js:22-111 | one handler invocation: an mDNS response as `ResponseStep`, a fetched descriptor as `SsdpStep`; no key is dropped and no entry with a host changes |
| LegacyDiscovery.Run | lib/Browser.js:22-111 | the handler invocations in arrival order, each from the directory the last left; no key is dropped and no entry with a host changes |
| LegacyDiscovery.FoldASettles | lib/Browser.js:34-49 | A passes keep announced keys hosted and never announce a key twice |
| LegacyDiscovery.AnnouncedOnce | lib/Browser.js:37-102 | host is never cleared, so over any run with non-empty addresses every key is announced at most once |
| LegacyDiscovery.AnnouncementRegisters | lib/Browser.js:23-46 | a PTR and an A for the same instance register it with the host and announce it once |
| LegacyDiscovery.SameHostTwoKeys | lib/Browser.js:94-101 | one receiver seen over mDNS and over SSDP is announced twice, under two keys, with the same address |
| LegacyDiscovery.GroupSearches | lib/Browser.js:70-114 | at most one SSDP search per interface of a group |
| LegacyDiscovery.Searches | lib/Browser.js:69-116 | every group's searches, group after group; its members are stated by `SearchesMembers` |
| LegacyDiscovery.GroupSearchesMembers | lib/Browser.js:70-114 | one SSDP search per external interface of a group, bound to its address, and no others |
| LegacyDiscovery.SearchesMembers | lib/Browser.js:69-116 | one SSDP search per external interface of every group, and no others |
| LegacyDiscovery.Browser.constructor | lib/Browser.js:12-54 | an empty directory, the listener open, then `update()`'s probes |
| LegacyDiscovery.Browser.OnA | lib/Browser.js:34-46 | `onanswer` updates the directory and events as `AStep` |
| LegacyDiscovery.Browser.OnAs | lib/Browser.js:48-49 | the loop updates them as `FoldA` |
| LegacyDiscovery.Browser.OnMdnsResponse | lib/Browser.js:22-50 | the response handler updates them as `ResponseStep`; after `destroy` nothing happens |
| LegacyDiscovery.Browser.OnPtrs | lib/Browser.js:23-32 | the PTR loop updates the directory as `FoldPtr` and announces nothing |
| LegacyDiscovery.ResponseStepPasses | lib/Browser.js:22-50 | the response is the PTR pass, then the A pass over additionals, then over answers, each from where the last left off |
| LegacyDiscovery.Browser.OnSsdpResponse | lib/Browser.js:77-81 | the fetched URL, if the status is 200 with a LOCATION |
| LegacyDiscovery.Browser.OnDescriptor | lib/Browser.js:86-111 | the SSDP upsert updates the directory and events as `SsdpStep`, also after `destroy` |
| LegacyDiscovery.Browser.Update | lib/Browser.js:65-120 | the per-interface searches in order, then the mDNS query; after `destroy` the searches still go out, and the query throws |
| LegacyDiscovery.Browser.SearchGroup | lib/Browser.js:70-115 | one group's searches are sent in order |
| LegacyDiscovery.Browser.Destroy | lib/Browser.js:122-127 | closes the mDNS listener; the directory is unchanged; a second call throws |
| LegacyDiscovery.Browser.Stop | lib/Browser.js:130-134 | the same as `destroy`, throwing when already closed |
| Media.TracksOf | lib/device.js:115-131 | one track per subtitle, in order, the i-th with id i, type TEXT, `text/vtt`, SUBTITLES and the subtitle's url, name and language |
| Media.TrackIdsArePositions | apps/default/DefaultMediaReceiver.js:33-45 | track ids are the positions, pairwise distinct, starting at 0 |
| Media.BuildTracks | lib/device.js:116-129 | the counting loop builds exactly those tracks |
| Media.Rescaled | lib/device.js:222 | only `fontScale` of the style changes |
| Media.CoverMetadata | lib/device.js:142-151 | generic metadata with the cover's title and exactly one image, the cover's url |
| Media.OrZero | lib/device.js:157 | `x \|\| 0` for an optional number |
| Media.Describe | lib/device.js:103-152 | a URL yields only id and type; an object adds tracks iff subtitles are present (even empty), its style, and cover metadata iff a cover is present |
| Media.BuildMedia | apps/default/DefaultMediaReceiver.js:9-68 | the field-by-field construction yields that descriptor |
| Cast.JoinOrLaunch | lib/device.js:55-60 | join iff the first reported session runs the app, then with that session; otherwise launch |
| Cast.OnlyFirstSessionJoined | lib/device.js:55 | a matching session after a non-matching first one is launched over |
| Cast.Finished | lib/device.js:88 | a status ends playback iff it is IDLE with idle reason FINISHED |
| Session.ContentType | lib/device.js:103-113 | the explicit type, else the MIME guess, else `video/mp4`; never empty |
| Session.Options | lib/device.js:130-158 | autoplay and start time iff the type contains `video`, starting at `seconds \|\| 0`; track 0 active iff subtitles are present |
| Session.ActiveTrackIsFirst | lib/device.js:115-133 | with subtitles, track 0 is activated, and it exists iff the list is non-empty |
| Session.EffectiveOpts | lib/device.js:66-69 | a function in the options position leaves the options empty |
| Session.LaunchReply | lib/device.js:52-61 | the getSessions error, else the join/launch error, else the player started on this client |
| Session.LaunchRequests | lib/device.js:52-60 | getSessions first, then join-or-launch only without an error |
| Session.Device.constructor | lib/device.js:18-27 | name, friendly name and host as given; no client, not playing, no style |
| Session.Device.Connect | lib/device.js:29-47 | the previous client is closed, a fresh one connected; the continuation runs only when connected |
| Session.Device.OnClientError | lib/device.js:34-37 | a transport error closes the client and keeps the handle; after `close()` the handle is null and it throws |
| Session.Device.LaunchApp | lib/device.js:49-62 | without a client nothing is sent and the callback is never called; otherwise getSessions, join-or-launch, and the launch reply |
| Session.Device.PrivatePlayMedia | lib/device.js:97-164 | loads the descriptor and options above; playing afterwards even on a load error; style remembered |
| Session.Device.Play | lib/device.js:64-95 | connect, then launch, then load: each failure stops the chain and is reported; the player and playing flag are set only after a successful launch |
| Session.Device.OnStatus | lib/device.js:83-91 | every status is re-emitted, followed by `finished` iff IDLE with reason FINISHED; a null status throws with nothing emitted |
| Session.Device.GetStatus | lib/device.js:166-168 | the player's status reply is forwarded; without a player it throws, sending nothing and delivering nothing |
| Session.Device.SeekTo | lib/device.js:170-172 | a seek to the given position; without a player it throws and sends nothing |
| Session.Device.Seek | lib/device.js:174-180 | a status error is reported with no seek; otherwise a seek to the reported position plus the delta; without a player it throws and sends nothing |
| Session.Device.Pause | lib/device.js:182-185 | not playing, pause sent; without a player `playing` is still cleared, then it throws |
| Session.Device.Unpause | lib/device.js:187-190 | playing, play sent; without a player `playing` is still set, then it throws |
| Session.Device.Resume | lib/device.js:192 | the same as `unpause`, throwing the same way |
| Session.Device.Stop | lib/device.js:198-201 | not playing, stop sent; without a player `playing` is still cleared, then it throws |
| Session.Device.SetVolume | lib/device.js:194-196 | a level sent on the current client; without a client it throws and sends nothing |
| Session.Device.SetVolumeMuted | lib/device.js:203-205 | a mute flag sent on the current client; without a client it throws and sends nothing |
| Session.Device.SubtitlesOff | lib/device.js:207-212 | an empty active-track list; without a player it throws and sends nothing |
| Session.Device.ChangeSubtitles | lib/device.js:214-219 | exactly the given track active; without a player it throws and sends nothing |
| Session.Device.ChangeSubtitlesSize | lib/device.js:221-227 | only `fontScale` of the remembered style changes, and the whole style is sent; without a style it throws with nothing changed; without a player it throws after rescaling, sending nothing |
| Session.Device.Close | lib/device.js:229-239 | the app is stopped, then the client closed and forgotten; the player handle stays; without a client it throws |
| Receiver.Inferred | apps/default/DefaultMediaReceiver.js:22 | the explicit type when truthy, else the MIME guess for the url |
| Receiver.Remapped | apps/default/DefaultMediaReceiver.js:14 | HLS becomes `video/mp2t`; nothing else changes; never HLS |
| Receiver.ContentType | apps/default/DefaultMediaReceiver.js:12-28 | the inferred type, HLS remapped, else `video/mp4`; never empty and never HLS |
| Receiver.ExplicitHlsRemapped | apps/default/DefaultMediaReceiver.js:22-23 | an explicit HLS type is remapped too |
| Receiver.RemapIsTheOnlyDifference | apps/default/DefaultMediaReceiver.js:13-27 | the app's type is the device session's type with HLS remapped |
| Receiver.Options | apps/default/DefaultMediaReceiver.js:47-74 | autoplay iff the type contains video or audio, from `startTime \|\| 0`; track 0 active iff subtitles are present |
| Receiver.ImageNotStarted | apps/default/DefaultMediaReceiver.js:71-74 | an image type gets neither autoplay nor a start time |
| Receiver.App.Load | apps/default/DefaultMediaReceiver.js:6-77 | loads exactly that descriptor and those options; the style is remembered |
| LegacySession.HostOf | lib/Device.js:26 | the first address, absent for an empty list |
| LegacySession.AnnouncedDevicesHaveHost | lib/Browser.js:41-44 | every `deviceOn` of any run carries exactly one address, so the legacy device gets a host |
| LegacySession.FoldASingleAddress | lib/Browser.js:41-44 | every event of an A pass carries exactly one address |
| LegacySession.ContentType | lib/Device.js:81-90 | `video/mp4` for a URL; the explicit type, else `video/mp4`, for an object; no MIME inference |
| LegacySession.MediaOf | lib/Device.js:80-127 | tracks only for a non-empty subtitle list, numbered in order; style and cover as given |
| LegacySession.Options | lib/Device.js:75-110 | always autoplay from `seconds \|\| 0`; the first track's id, 0, active iff there are tracks |
| LegacySession.EmptySubtitlesDropped | lib/Device.js:92 | an empty subtitle list yields neither tracks nor active ids |
| LegacySession.HasSubtitles | lib/Device.js:92 | tracks are built iff the resource is an object with a subtitle list of at least one element |
| LegacySession.Device.constructor | lib/Device.js:20-28 | the host is the first address; not playing |
| LegacySession.Device.PrivatePlayMedia | lib/Device.js:72-133 | loads the descriptor and options above; playing afterwards even on a load error |
| LegacySession.Device.Play | lib/Device.js:34-70 | the previous client is closed and a fresh one connected; always a launch; a launch error is reported and nothing is loaded |
| LegacySession.Device.OnClientError | lib/Device.js:66-69 | a transport error closes the client and keeps the handle; after `close()` the handle is null and it throws |
| LegacySession.Device.OnStatus | lib/Device.js:57-62 | every non-null status is re-emitted |
| LegacySession.Device.GetStatus | lib/Device.js:135-145 | the error or the status is forwarded; without a player it throws, sending nothing and delivering nothing |
| LegacySession.Device.SeekTo | lib/Device.js:147-150 | a seek to the given position; without a player it throws and sends nothing |
| LegacySession.Device.Seek | lib/Device.js:152-159 | a status error is reported with no seek; otherwise a seek to the reported position plus the delta; without a player it throws and sends nothing |
| LegacySession.Device.Pause | lib/Device.js:161-165 | not playing, pause sent; without a player `playing` is still cleared, then it throws |
| LegacySession.Device.Unpause | lib/Device.js:167-171 | playing, play sent; without a player `playing` is still set, then it throws |
| LegacySession.Device.Stop | lib/Device.js:178-185 | not playing, stop sent; the callback gets no error whatever the reply; without a player `playing` is still cleared, then it throws |
| LegacySession.Device.SetVolume | lib/Device.js:173-176 | a level sent on the current client; without a client it throws and sends nothing |
| LegacySession.Device.SetVolumeMuted | lib/Device.js:187-190 | a mute flag sent on the current client; without a client it throws and sends nothing |
| LegacySession.Device.SubtitlesOff | lib/Device.js:192-198 | an empty active-track list; without a player it throws and sends nothing |
| LegacySession.Device.ChangeSubtitles | lib/Device.js:200-206 | exactly the given track active; without a player it throws and sends nothing |
| LegacySession.Device.ChangeSubtitlesSize | lib/Device.js:208-216 | only `fontScale` of the remembered style changes, and the whole style is sent; without a style it throws with nothing changed; without a player it throws after rescaling, sending nothing |
| LegacySession.Device.Close | lib/Device.js:218-226 | the app is stopped, then the client closed and forgotten; without a client it throws |

## Left out

- Sockets, framing and the cast protocol. This covers castv2-client, multicast-dns, node-ssdp and `http.get`. Their results are method parameters; what is sent is a log of requests.
- Parsing by xml2js and dns-txt. The parsed descriptor and the decoded TXT segments are inputs.
- `mime.getType`: an arbitrary function parameter.
- `os.networkInterfaces()`: its result is the input of `LegacyDiscovery.Browser.Update`.
- EventEmitter plumbing. Events are appended to a log; listeners are not modelled.
- Timing, and operations that overlap or race. Every handler runs to completion in the order its inputs are given.
- A reply that never arrives is not modelled, except for the connection. Every other callback-driven step runs to completion.
- Callbacks handed straight to the transport (pause, play, stop, seekTo, volume and track edits in `lib/device.js`). Their callbacks receive the transport's reply unchanged, and the model records only the request.
- Object keys that collide with `Object.prototype` members such as `constructor`. A directory lookup in JavaScript would treat them as present.
- Floating-point arithmetic and NaN. Times, volumes and font scales are reals. `seconds || 0` treats only an absent value as falsy.
- Aliasing of the style object. The source shares one object between `resource.subtitles_style`, the descriptor and the remembered style. Mutating it in `changeSubtitlesSize` would also change the earlier objects; the model copies values.
- Undefined fields of a subtitle or a cover. They are taken as strings. The TXT values are taken as strings too.
- `resource.url` missing from an object resource.
- The superclass `load` of castv2-client's Default Media Receiver. `Receiver.App.Load` records the descriptor and options it is given. Its optional callback is passed through unmodelled.
- `DefaultMediaReceiverAppId`: castv2-client's `APP_ID` is not part of this model, so the value `CC1AD845` is written as a constant.
- The unicast address of the current client's SSDP search. It has none, since `new Ssdp()` gets no options.
- lib/scanner.js. It does not parse and has no defined behaviour.
- apps/youtube/. It is pure delegation to other libraries.
- `getReceiverStatus` and `getCurrentTime`. Neither is in the device code.
- Automatic reconnection, and choosing among several matching sessions. The code has neither.
- Session.Device.PrivatePlayMedia and LegacySession.Device.PrivatePlayMedia: require a player, because their only caller, `play`, sets it just before.
- Session.Device.Close and LegacySession.Device.Close: require a player whenever there is a client. What castv2-client's `stop` does with a null player is not part of this model.
- Session.Device.Play: the `status` listener it attaches is modelled as the separate method `OnStatus`. Listeners from earlier launches are not tracked.
