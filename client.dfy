/**
 * The current discovery client (lib/client.js): mDNS answers (PTR, SRV, TXT)
 * and SSDP descriptor documents folded into one directory of devices; a
 * `device` event is emitted when an entry is completed.
 */
module Discovery {
  import opened Wrappers
  import opened Text
  import opened Records

  /** The payload of a TXT answer after `txt.decode`: one buffer, or an array of them. */
  datatype TxtData = Single(record: map<string, string>) | Segments(records: seq<map<string, string>>)

  /** An mDNS answer; `Other` is any type the handler ignores. */
  datatype Answer =
    | Ptr(name: string, data: string)
    | Srv(name: string, target: string)
    | Txt(name: string, txt: TxtData)
    | Other(name: string)

  /** The `device` event: a new Device with the key and the entry's current fields. */
  datatype Event = DeviceFound(id: string, friendlyName: Option<string>, host: Option<string>)

  /** The directory after a handler ran, and the events it emitted. */
  datatype Step = Step(devices: Directory, emitted: seq<Event>)

  /** `_updateDevice(id)`. */
  function Announce(d: Directory, id: string): Event
    requires id in d
  {
    DeviceFound(id, d[id].name, d[id].host)
  }

  /** `ev` announces the current entry of `d'` that was missing or incomplete in `d`. */
  ghost predicate Transition(d: Directory, d': Directory, ev: Event) {
    ev.id in d' && ev == Announce(d', ev.id) && (ev.id in d ==> !Complete(d[ev.id]))
  }

  // ---------------------------------------------------------------------------
  // TXT records

  /** The decoded segments merged in order: a later segment's key overwrites an earlier one. */
  function Merged(records: seq<map<string, string>>): map<string, string>
    decreases |records|
  {
    if records == [] then map[] else Merged(records[..|records| - 1]) + records[|records| - 1]
  }

  /** The index of the last segment that holds `k`, if any. */
  function LastHolder(records: seq<map<string, string>>, k: string): (r: Option<nat>)
    decreases |records|
    ensures r.Some? ==> r.value < |records| && k in records[r.value]
    ensures r.Some? ==> forall j :: r.value < j < |records| ==> k !in records[j]
    ensures r.None? ==> forall j :: 0 <= j < |records| ==> k !in records[j]
  {
    if records == [] then None
    else
      var n := |records| - 1;
      if k in records[n] then Some(n)
      else
        var r := LastHolder(records[..n], k);
        assert forall j :: 0 <= j < n ==> records[..n][j] == records[j];
        r
  }

  /** A merged key comes from the last segment that has it. */
  lemma {:induction false} MergedLastWins(records: seq<map<string, string>>, k: string)
    ensures k in Merged(records) <==> LastHolder(records, k).Some?
    ensures k in Merged(records) ==> Merged(records)[k] == records[LastHolder(records, k).value][k]
    decreases |records|
  {
    if records != [] {
      var n := |records| - 1;
      var front := records[..n];
      MergedLastWins(front, k);
      assert Merged(records) == Merged(front) + records[n];
      if k !in records[n] {
        assert LastHolder(records, k) == LastHolder(front, k);
        if LastHolder(front, k).Some? {
          assert records[LastHolder(front, k).value] == front[LastHolder(front, k).value];
        }
      }
    }
  }

  /** The TXT answer's key/value pairs, as `decodedData` (lib/client.js:74-84). */
  function Decoded(txt: TxtData): map<string, string> {
    match txt
    case Single(record) => record
    case Segments(records) => Merged(records)
  }

  /** The nested `forEach` loops that merge an array of decoded segments. */
  method MergeSegments(records: seq<map<string, string>>) returns (decoded: map<string, string>)
    ensures decoded == Merged(records)
  {
    decoded := map[];
    var i := 0;
    while i < |records|
      invariant 0 <= i <= |records|
      invariant decoded == Merged(records[..i])
    {
      var item := records[i];
      var keys := item.Keys;
      ghost var done: set<string> := {};
      while keys != {}
        invariant keys + done == item.Keys && keys !! done
        invariant decoded == Merged(records[..i]) + map k | k in done :: item[k]
        decreases keys
      {
        var key :| key in keys;
        decoded := decoded[key := item[key]];
        keys := keys - {key};
        done := done + {key};
      }
      assert (map k | k in done :: item[k]) == item;
      assert records[..i + 1][..i] == records[..i];
      i := i + 1;
    }
    assert records[..i] == records;
  }

  function Lookup(m: map<string, string>, key: string): Option<string> {
    if key in m then Some(m[key]) else None
  }

  /** `decodedData.fn || decodedData.n`, when truthy. */
  function FriendlyName(m: map<string, string>): (r: Option<string>)
    ensures Truthy(Lookup(m, "fn")) ==> r == Lookup(m, "fn")
    ensures !Truthy(Lookup(m, "fn")) && Truthy(Lookup(m, "n")) ==> r == Lookup(m, "n")
    ensures !Truthy(Lookup(m, "fn")) && !Truthy(Lookup(m, "n")) ==> r == None
  {
    var v := OrOption(Lookup(m, "fn"), Lookup(m, "n"));
    if Truthy(v) then v else None
  }

  // ---------------------------------------------------------------------------
  // mDNS answers (lib/client.js:50-97)

  /** The directory key an answer is about. */
  function KeyOf(a: Answer): string {
    match a
    case Ptr(_, data) => data
    case _ => a.name
  }

  /** One answer handled by `onEachAnswer`. */
  function AnswerStep(d: Directory, a: Answer): (r: Step)
    ensures Grows(d, r.devices)
    ensures r.devices - {KeyOf(a)} == d - {KeyOf(a)}
    ensures |r.emitted| <= 1 && forall ev | ev in r.emitted :: Transition(d, r.devices, ev)
    ensures forall ev | ev in r.emitted :: ev.id == KeyOf(a)
    ensures (a.Srv? ==> a.target != "") ==>
              forall ev | ev in r.emitted :: ev.id in r.devices && Complete(r.devices[ev.id])
    // PTR for the cast service: create an empty entry unless one exists
    ensures a.Ptr? && a.name == ServiceName ==>
              && r.emitted == [] && a.data in r.devices
              && (a.data in d ==> r.devices == d)
              && (a.data !in d ==> r.devices[a.data] == Entry(None, None))
    // SRV: fill in a missing host, keep the name; announce if the name is known
    ensures a.Srv? && a.name in d && !Truthy(d[a.name].host) ==>
      r.devices[a.name] == Entry(d[a.name].name, Some(a.target))
      && (r.emitted != [] <==> Truthy(d[a.name].name))
    // TXT: fill in a missing name from `fn`, else `n`; announce if the host is known
    ensures a.Txt? && a.name in d && !Truthy(d[a.name].name) && FriendlyName(Decoded(a.txt)).Some? ==>
      r.devices[a.name] == Entry(FriendlyName(Decoded(a.txt)), d[a.name].host)
      && (r.emitted != [] <==> Truthy(d[a.name].host))
    // everything else changes nothing
    ensures
      || (a.Ptr? && (a.name != ServiceName || a.data in d))
      || (a.Srv? && !(a.name in d && !Truthy(d[a.name].host)))
      || (a.Txt? && !(a.name in d && !Truthy(d[a.name].name) && FriendlyName(Decoded(a.txt)).Some?))
      || a.Other?
      ==> r == Step(d, [])
  {
    match a
    case Ptr(name, data) =>
      if name == ServiceName && data !in d then Step(d[data := Entry(None, None)], []) else Step(d, [])
    case Srv(name, target) =>
      if name in d && !Truthy(d[name].host) then
        var d' := d[name := d[name].(host := Some(target))];
        Step(d', if Truthy(d[name].name) then [Announce(d', name)] else [])
      else Step(d, [])
    case Txt(name, txt) =>
      if name in d && !Truthy(d[name].name) then
        match FriendlyName(Decoded(txt))
        case None => Step(d, [])
        case Some(fn) =>
          var d' := d[name := d[name].(name := Some(fn))];
          Step(d', if Truthy(d[name].host) then [Announce(d', name)] else [])
      else Step(d, [])
    case Other(_) => Step(d, [])
  }

  /** The answers handled one after the other. */
  function FoldAnswers(d: Directory, answers: seq<Answer>): (r: Step)
    decreases |answers|
    ensures Grows(d, r.devices)
  {
    if answers == [] then Step(d, [])
    else
      var s := FoldAnswers(d, answers[..|answers| - 1]);
      var t := AnswerStep(s.devices, answers[|answers| - 1]);
      GrowsTransitive(d, s.devices, t.devices);
      Step(t.devices, s.emitted + t.emitted)
  }

  /** Extending the list by one: its answer is handled last. */
  lemma FoldAnswersSnoc(d: Directory, answers: seq<Answer>, i: nat)
    requires i < |answers|
    ensures var s := FoldAnswers(d, answers[..i]); var t := AnswerStep(s.devices, answers[i]);
      FoldAnswers(d, answers[..i + 1]) == Step(t.devices, s.emitted + t.emitted)
  {
    assert answers[..i + 1][..i] == answers[..i];
  }

  /** Folding two lists is folding the first, then the second from where it left off. */
  lemma {:induction false} FoldAnswersAppend(d: Directory, xs: seq<Answer>, ys: seq<Answer>)
    ensures var s := FoldAnswers(d, xs); var t := FoldAnswers(s.devices, ys);
      FoldAnswers(d, xs + ys) == Step(t.devices, s.emitted + t.emitted)
    decreases |ys|
  {
    var s := FoldAnswers(d, xs);
    if ys == [] {
      assert xs + ys == xs;
    } else {
      var n := |ys| - 1;
      FoldAnswersAppend(d, xs, ys[..n]);
      var t' := FoldAnswers(s.devices, ys[..n]);
      var u := AnswerStep(t'.devices, ys[n]);
      assert (xs + ys)[..|xs + ys| - 1] == xs + ys[..n];
      assert (xs + ys)[|xs + ys| - 1] == ys[n];
      assert FoldAnswers(d, xs + ys) == Step(u.devices, (s.emitted + t'.emitted) + u.emitted);
      assert FoldAnswers(s.devices, ys) == Step(u.devices, t'.emitted + u.emitted);
      ConcatAssoc(s.emitted, t'.emitted, u.emitted);
    }
  }

  /** A response: `answers` first, then `additionals` (lib/client.js:95-96). */
  function ResponseStep(d: Directory, answers: seq<Answer>, additionals: seq<Answer>): (r: Step)
    ensures Grows(d, r.devices)
  {
    FoldAnswers(d, answers + additionals)
  }

  /** Additionals are handled in the directory the answers left behind. */
  lemma AnswersBeforeAdditionals(d: Directory, answers: seq<Answer>, additionals: seq<Answer>)
    ensures var s := FoldAnswers(d, answers); var t := FoldAnswers(s.devices, additionals);
      ResponseStep(d, answers, additionals) == Step(t.devices, s.emitted + t.emitted)
  {
    FoldAnswersAppend(d, answers, additionals);
  }

  /** SRV and TXT answers about keys nobody announced with a PTR change nothing. */
  lemma {:induction false} UnknownKeysIgnored(d: Directory, answers: seq<Answer>)
    requires forall a | a in answers :: !a.Ptr? && KeyOf(a) !in d
    ensures FoldAnswers(d, answers) == Step(d, [])
    decreases |answers|
  {
    if answers != [] {
      var n := |answers| - 1;
      assert forall a | a in answers[..n] :: a in answers;
      UnknownKeysIgnored(d, answers[..n]);
      assert answers[n] in answers;
    }
  }

  /**
   * One instance's records in order: the PTR names the instance as its data,
   * and its SRV and TXT carry it as their own name, so all three reach the
   * same entry, which is announced once, complete, by the last of them.
   */
  lemma InstanceAnnounced(instance: string, host: string, fn: string)
    requires host != "" && fn != ""
    ensures var answers := [Ptr(ServiceName, instance), Srv(instance, host), Txt(instance, Single(map["fn" := fn]))];
      && KeyOf(answers[0]) == KeyOf(answers[1]) == KeyOf(answers[2]) == instance
      && FoldAnswers(map[], answers)
         == Step(map[instance := Entry(Some(fn), Some(host))], [DeviceFound(instance, Some(fn), Some(host))])
  {
    var answers := [Ptr(ServiceName, instance), Srv(instance, host), Txt(instance, Single(map["fn" := fn]))];
    var d1 := map[instance := Entry(None, None)];
    var d2 := map[instance := Entry(None, Some(host))];
    var d3 := map[instance := Entry(Some(fn), Some(host))];
    assert "fn" in map["fn" := fn];
    assert FriendlyName(Decoded(answers[2].txt)) == Some(fn);
    assert answers[..2][..1] == answers[..1] == [answers[0]] && answers[..1][..0] == [];
    assert FoldAnswers(map[], answers[..1]) == Step(d1, []);
    assert FoldAnswers(map[], answers[..2]) == Step(d2, []);
    assert AnswerStep(d2, answers[2]) == Step(d3, [DeviceFound(instance, Some(fn), Some(host))]);
  }

  // ---------------------------------------------------------------------------
  // SSDP (lib/client.js:112-152)

  /** The `device` element of `xml2js`'s result. */
  datatype XmlDevice = XmlDevice(manufacturer: Option<string>, friendlyName: Option<string>)

  /** What `parseString` gave the callback: an error, or a result with an optional `device`. */
  datatype Parsed = ParseError | Parsed(device: Option<XmlDevice>)

  /** The parsed document describes a Google device and has a friendly name (lib/client.js:122-124). */
  predicate GoogleDevice(p: Parsed) {
    && p.Parsed? && p.device.Some?
    && Truthy(p.device.value.manufacturer) && Truthy(p.device.value.friendlyName)
    && Contains(p.device.value.manufacturer.value, "Google")
  }

  /** `udn.replace(/uuid:/g, '').replace(/-/g, '')`. */
  function UdnCore(udn: string): (r: string)
    ensures '-' !in r
    ensures multiset(r) == multiset(RemoveAll(udn, "uuid:"))['-' := 0]
  {
    RemoveAllChar(RemoveAll(udn, "uuid:"), '-');
    RemoveAll(RemoveAll(udn, "uuid:"), "-")
  }

  /** The mDNS-style key synthesised from the UPnP `<UDN>` (lib/client.js:134-135). */
  function CanonicalId(udn: string): (r: string)
    ensures |r| == 11 + |UdnCore(udn)| + |ServiceSuffix|
    ensures r[..11] == "Chromecast-" && r[|r| - |ServiceSuffix|..] == ServiceSuffix
    ensures r[11..|r| - |ServiceSuffix|] == UdnCore(udn) && '-' !in r[11..|r| - |ServiceSuffix|]
  {
    "Chromecast-" + UdnCore(udn) + ServiceSuffix
  }

  /** The key and friendly name an accepted descriptor yields. */
  datatype Identity = Identity(id: string, friendlyName: string)

  /** Both regexes must match the raw body of an accepted document (lib/client.js:127-131). */
  function DescriptorIdentity(body: string, parsed: Parsed): (r: Option<Identity>)
    ensures r.Some? <==>
              GoogleDevice(parsed) && TagContent(body, "UDN").Some? && TagContent(body, "friendlyName").Some?
    ensures r.Some? ==>
              && r.value.id == CanonicalId(TagContent(body, "UDN").value)
              && r.value.friendlyName == TagContent(body, "friendlyName").value
  {
    if !GoogleDevice(parsed) then None
    else match (TagContent(body, "UDN"), TagContent(body, "friendlyName"))
      case (Some(udn), Some(fn)) => Some(Identity(CanonicalId(udn), fn))
      case _ => None
  }

  /** The upsert of an accepted descriptor seen from `address` (lib/client.js:139-148). */
  function UpsertStep(d: Directory, who: Identity, address: string): (r: Step)
    ensures Grows(d, r.devices)
    ensures r.devices - {who.id} == d - {who.id}
    ensures |r.emitted| <= 1 && forall ev | ev in r.emitted :: Transition(d, r.devices, ev)
    ensures address != "" && who.friendlyName != "" ==>
              forall ev | ev in r.emitted :: ev.id in r.devices && Complete(r.devices[ev.id])
    ensures who.id !in d || !Complete(d[who.id]) ==>
              who.id in r.devices && r.devices[who.id] == Entry(Some(who.friendlyName), Some(address))
              && r.emitted == [Announce(r.devices, who.id)]
    ensures who.id in d && Complete(d[who.id]) ==> r == Step(d, [])
  {
    if who.id !in d || !Complete(d[who.id]) then
      var d' := d[who.id := Entry(Some(who.friendlyName), Some(address))];
      Step(d', [Announce(d', who.id)])
    else Step(d, [])
  }

  /** The end of the SSDP chain: the fetched document, its parse and the responder's address. */
  function DescriptorStep(d: Directory, body: string, parsed: Parsed, address: string): (r: Step)
    ensures Grows(d, r.devices)
    ensures DescriptorIdentity(body, parsed).None? ==> r == Step(d, [])
    ensures DescriptorIdentity(body, parsed).Some? ==>
              r == UpsertStep(d, DescriptorIdentity(body, parsed).value, address)
    ensures |r.emitted| <= 1 && forall ev | ev in r.emitted :: Transition(d, r.devices, ev)
    ensures address != "" ==>
              forall ev | ev in r.emitted :: ev.id in r.devices && Complete(r.devices[ev.id])
  {
    match DescriptorIdentity(body, parsed)
    case None => Step(d, [])
    case Some(who) =>
      IdentityNamed(body, parsed);
      UpsertStep(d, who, address)
  }

  /** A friendly name comes from the regex and is never empty. */
  lemma IdentityNamed(body: string, parsed: Parsed)
    requires DescriptorIdentity(body, parsed).Some?
    ensures DescriptorIdentity(body, parsed).value.friendlyName != ""
  {
    TagContentOccurs(body, "friendlyName");
  }

  /**
   * A UDN of the usual shape `uuid:X-Y` becomes `Chromecast-XY._googlecast._tcp.local`,
   * so `uuid:1a2b-3c4d` is keyed as `Chromecast-1a2b3c4d._googlecast._tcp.local`.
   */
  lemma CanonicalIdOfUuid(x: string, y: string)
    requires 'u' !in x + "-" + y && '-' !in x && '-' !in y
    ensures CanonicalId("uuid:" + x + "-" + y) == "Chromecast-" + x + y + ServiceSuffix
  {
    assert "uuid:" + x + "-" + y == "uuid:" + (x + "-" + y);
    StripUuid(x + "-" + y);
    DropDash(x, y);
  }

  lemma StripUuid(rest: string)
    requires 'u' !in rest
    ensures RemoveAll("uuid:" + rest, "uuid:") == rest
  {
    var udn := "uuid:" + rest;
    assert StartsAt(udn, 0, "uuid:");
    assert udn[5..] == rest;
    RemoveAllAbsent(rest, "uuid:");
  }

  lemma DropDash(x: string, y: string)
    requires '-' !in x && '-' !in y
    ensures RemoveAll(x + "-" + y, "-") == x + y
  {
    var dy := ['-'] + y;
    assert x + "-" + y == x + dy;
    RemoveAllCharConcat(x, dy, '-');
    RemoveAllCharConcat(['-'], y, '-');
    RemoveAllSelf('-');
    RemoveAllAbsent(x, "-");
    RemoveAllAbsent(y, "-");
  }

  // ---------------------------------------------------------------------------
  // Whole runs: every handler invocation, in arrival order

  /** One event delivered to the client. */
  datatype Input =
    | MdnsResponse(answers: seq<Answer>, additionals: seq<Answer>)
    | Descriptor(body: string, parsed: Parsed, address: string)

  function InputStep(d: Directory, i: Input): (r: Step)
    ensures Grows(d, r.devices)
  {
    match i
    case MdnsResponse(answers, additionals) => ResponseStep(d, answers, additionals)
    case Descriptor(body, parsed, address) => DescriptorStep(d, body, parsed, address)
  }

  function Run(d: Directory, inputs: seq<Input>): (r: Step)
    decreases |inputs|
    ensures Grows(d, r.devices)
  {
    if inputs == [] then Step(d, [])
    else
      var s := Run(d, inputs[..|inputs| - 1]);
      var t := InputStep(s.devices, inputs[|inputs| - 1]);
      GrowsTransitive(d, s.devices, t.devices);
      Step(t.devices, s.emitted + t.emitted)
  }

  /** A descriptor whose key already holds a complete entry changes nothing and announces nothing. */
  lemma CompleteEntryKept(d: Directory, body: string, parsed: Parsed, address: string)
    requires DescriptorIdentity(body, parsed).Some?
    requires DescriptorIdentity(body, parsed).value.id in d && Complete(d[DescriptorIdentity(body, parsed).value.id])
    ensures InputStep(d, Descriptor(body, parsed, address)) == Step(d, [])
  {
  }

  /**
   * One receiver seen both ways: the key synthesised from its descriptor's
   * `uuid:X-Y` is the instance name its mDNS PTR registered, so the descriptor
   * finds that entry complete and leaves it alone, and the receiver is
   * announced once.
   */
  lemma DescriptorMeetsMdnsEntry(x: string, y: string, host: string, fn: string,
                                 body: string, parsed: Parsed, address: string)
    requires 'u' !in x + "-" + y && '-' !in x && '-' !in y
    requires host != "" && fn != ""
    requires GoogleDevice(parsed) && TagContent(body, "UDN") == Some("uuid:" + x + "-" + y)
    requires TagContent(body, "friendlyName").Some?
    ensures var instance := "Chromecast-" + x + y + ServiceSuffix;
      var answers := [Ptr(ServiceName, instance), Srv(instance, host), Txt(instance, Single(map["fn" := fn]))];
      Run(map[], [MdnsResponse(answers, []), Descriptor(body, parsed, address)])
        == Step(map[instance := Entry(Some(fn), Some(host))], [DeviceFound(instance, Some(fn), Some(host))])
  {
    var instance := "Chromecast-" + x + y + ServiceSuffix;
    var answers := [Ptr(ServiceName, instance), Srv(instance, host), Txt(instance, Single(map["fn" := fn]))];
    var one := map[instance := Entry(Some(fn), Some(host))];
    var ev := DeviceFound(instance, Some(fn), Some(host));
    CanonicalIdOfUuid(x, y);
    InstanceAnnounced(instance, host, fn);
    assert answers + [] == answers;
    assert InputStep(map[], MdnsResponse(answers, [])) == Step(one, [ev]);
    assert DescriptorIdentity(body, parsed).value.id == instance;
    CompleteEntryKept(one, body, parsed, address);
    var inputs := [MdnsResponse(answers, []), Descriptor(body, parsed, address)];
    assert inputs[..1] == [MdnsResponse(answers, [])] && inputs[..1][..0] == [];
    assert [] + [ev] == [ev] && [ev] + [] == [ev];
    assert Run(map[], inputs[..1]) == Step(one, [ev]);
  }

  /** Every SRV target and every responder address is a non-empty string. */
  ghost predicate NonEmptyHosts(i: Input) {
    match i
    case MdnsResponse(answers, additionals) =>
      forall a | a in answers + additionals :: a.Srv? ==> a.target != ""
    case Descriptor(_, _, address) => address != ""
  }

  /** Every announced key is complete in `d`. */
  ghost predicate Settled(d: Directory, log: seq<Event>) {
    forall ev | ev in log :: ev.id in d && Complete(d[ev.id])
  }

  /** No key is announced twice. */
  ghost predicate Distinct(log: seq<Event>) {
    forall i, j | 0 <= i < j < |log| :: log[i].id != log[j].id
  }

  lemma StepSettles(d: Directory, log: seq<Event>, r: Step)
    requires Settled(d, log) && Distinct(log)
    requires Grows(d, r.devices) && |r.emitted| <= 1
    requires forall ev | ev in r.emitted :: Transition(d, r.devices, ev) && Complete(r.devices[ev.id])
    ensures Settled(r.devices, log + r.emitted) && Distinct(log + r.emitted)
  {
    if r.emitted != [] {
      var ev := r.emitted[0];
      assert ev in r.emitted;
      forall i | 0 <= i < |log| ensures log[i].id != ev.id {
        assert log[i] in log;
      }
    }
  }

  lemma {:induction false} FoldSettles(d: Directory, log: seq<Event>, answers: seq<Answer>)
    requires Settled(d, log) && Distinct(log)
    requires forall a | a in answers :: a.Srv? ==> a.target != ""
    ensures var r := FoldAnswers(d, answers);
      Settled(r.devices, log + r.emitted) && Distinct(log + r.emitted)
    decreases |answers|
  {
    if answers != [] {
      var n := |answers| - 1;
      assert forall a | a in answers[..n] :: a in answers;
      FoldSettles(d, log, answers[..n]);
      var s := FoldAnswers(d, answers[..n]);
      assert answers[n] in answers;
      var t := AnswerStep(s.devices, answers[n]);
      StepSettles(s.devices, log + s.emitted, t);
      assert log + s.emitted + t.emitted == log + (s.emitted + t.emitted);
    }
  }

  /**
   * With non-empty hosts, a key is announced at most once over any run, and
   * every announced key stays complete.
   */
  lemma {:induction false} AnnouncedOnce(d: Directory, inputs: seq<Input>)
    requires forall i | i in inputs :: NonEmptyHosts(i)
    ensures Settled(Run(d, inputs).devices, Run(d, inputs).emitted)
    ensures Distinct(Run(d, inputs).emitted)
    decreases |inputs|
  {
    if inputs != [] {
      var n := |inputs| - 1;
      assert forall i | i in inputs[..n] :: i in inputs;
      AnnouncedOnce(d, inputs[..n]);
      var s := Run(d, inputs[..n]);
      assert inputs[n] in inputs;
      match inputs[n]
      case MdnsResponse(answers, additionals) =>
        FoldSettles(s.devices, s.emitted, answers + additionals);
      case Descriptor(body, parsed, address) =>
        var t := DescriptorStep(s.devices, body, parsed, address);
        StepSettles(s.devices, s.emitted, t);
    }
  }

  // ---------------------------------------------------------------------------
  // The client object

  class Client {
    var devices: Directory
    var events: seq<Event>
    var mdnsOpen: bool
    var ssdpOpen: bool
    var queries: seq<Query>

    /** Every announced key is in the directory. */
    ghost predicate Valid()
      reads this
    {
      forall ev | ev in events :: ev.id in devices
    }

    /** `new Client()`: starts both listeners and sends one probe on each. */
    constructor ()
      ensures Valid()
      ensures devices == map[] && events == [] && mdnsOpen && ssdpOpen
      ensures queries == [MdnsQuery(ServiceName, "PTR"), SsdpSearch(SearchTarget, None)]
    {
      devices := map[];
      events := [];
      mdnsOpen := true;
      queries := [MdnsQuery(ServiceName, "PTR")];
      ssdpOpen := true;
      queries := queries + [SsdpSearch(SearchTarget, None)];
    }

    /** `onEachAnswer` (lib/client.js:50-93). */
    method OnAnswer(a: Answer)
      requires Valid()
      modifies this
      ensures Valid()
      ensures devices == AnswerStep(old(devices), a).devices
      ensures events == old(events) + AnswerStep(old(devices), a).emitted
      ensures mdnsOpen == old(mdnsOpen) && ssdpOpen == old(ssdpOpen) && queries == old(queries)
    {
      match a {
        case Ptr(name, data) =>
          if name == ServiceName && data !in devices {
            devices := devices[data := Entry(None, None)];
          }
        case Srv(name, target) =>
          if name in devices && !Truthy(devices[name].host) {
            devices := devices[name := devices[name].(host := Some(target))];
            if Truthy(devices[name].name) {
              events := events + [Announce(devices, name)];
            }
          }
        case Txt(name, txt) =>
          if name in devices && !Truthy(devices[name].name) {
            var decoded;
            match txt {
              case Single(record) => decoded := record;
              case Segments(records) => decoded := MergeSegments(records);
            }
            var friendlyName := FriendlyName(decoded);
            if friendlyName.Some? {
              devices := devices[name := devices[name].(name := friendlyName)];
              if Truthy(devices[name].host) {
                events := events + [Announce(devices, name)];
              }
            }
          }
        case Other(_) =>
      }
    }

    /** `list.forEach(onEachAnswer)`. */
    method OnAnswers(list: seq<Answer>)
      requires Valid()
      modifies this
      ensures Valid()
      ensures devices == FoldAnswers(old(devices), list).devices
      ensures events == old(events) + FoldAnswers(old(devices), list).emitted
      ensures mdnsOpen == old(mdnsOpen) && ssdpOpen == old(ssdpOpen) && queries == old(queries)
    {
      var i := 0;
      while i < |list|
        invariant 0 <= i <= |list|
        invariant Valid()
        invariant devices == FoldAnswers(old(devices), list[..i]).devices
        invariant events == old(events) + FoldAnswers(old(devices), list[..i]).emitted
        invariant mdnsOpen == old(mdnsOpen) && ssdpOpen == old(ssdpOpen) && queries == old(queries)
      {
        FoldAnswersSnoc(old(devices), list, i);
        OnAnswer(list[i]);
        i := i + 1;
      }
      assert list[..i] == list;
    }

    /**
     * The mDNS `response` handler: every answer, then every additional
     * (lib/client.js:49-97). After `destroy` the listener is gone.
     */
    method OnMdnsResponse(answers: seq<Answer>, additionals: seq<Answer>)
      requires Valid()
      modifies this
      ensures Valid()
      ensures mdnsOpen ==> devices == ResponseStep(old(devices), answers, additionals).devices
      ensures mdnsOpen ==> events == old(events) + ResponseStep(old(devices), answers, additionals).emitted
      ensures !mdnsOpen ==> devices == old(devices) && events == old(events)
      ensures mdnsOpen == old(mdnsOpen) && ssdpOpen == old(ssdpOpen) && queries == old(queries)
    {
      if !mdnsOpen {
        return;
      }
      AnswersBeforeAdditionals(devices, answers, additionals);
      OnAnswers(answers);
      OnAnswers(additionals);
    }

    /**
     * The SSDP `response` handler: the URL it fetches, if any. After `destroy`
     * the listener is gone.
     */
    method OnSsdpResponse(statusCode: int, location: Option<string>) returns (fetch: Option<string>)
      ensures !ssdpOpen ==> fetch.None?
      ensures ssdpOpen ==> fetch == DescriptorLocation(statusCode, location)
    {
      if !ssdpOpen {
        return None;
      }
      if statusCode != 200 || !Truthy(location) {
        return None;
      }
      return location;
    }

    /**
     * The end of the SSDP chain: the descriptor document fetched from the
     * response's LOCATION, its parse, and the responder's address. A fetch
     * already under way still completes after `destroy`.
     */
    method OnDescriptor(body: string, parsed: Parsed, address: string)
      requires Valid()
      modifies this
      ensures Valid()
      ensures devices == DescriptorStep(old(devices), body, parsed, address).devices
      ensures events == old(events) + DescriptorStep(old(devices), body, parsed, address).emitted
      ensures mdnsOpen == old(mdnsOpen) && ssdpOpen == old(ssdpOpen) && queries == old(queries)
    {
      if !GoogleDevice(parsed) {
        return;
      }
      var matchUdn := TagContent(body, "UDN");
      var matchFriendlyName := TagContent(body, "friendlyName");
      if matchUdn.None? || matchFriendlyName.None? {
        return;
      }
      var name := CanonicalId(matchUdn.value);
      var friendlyName := matchFriendlyName.value;
      assert DescriptorIdentity(body, parsed) == Some(Identity(name, friendlyName));
      assert DescriptorStep(old(devices), body, parsed, address) == UpsertStep(old(devices), Identity(name, friendlyName), address);
      if name !in devices {
        devices := devices[name := Entry(Some(friendlyName), Some(address))];
        events := events + [Announce(devices, name)];
      } else if !Truthy(devices[name].name) || !Truthy(devices[name].host) {
        devices := devices[name := devices[name].(name := Some(friendlyName), host := Some(address))];
        events := events + [Announce(devices, name)];
      }
    }

    /** `update()`: probe again on every listener still open. */
    method Update()
      modifies this
      ensures queries == old(queries) + (if mdnsOpen then [MdnsQuery(ServiceName, "PTR")] else [])
        + (if ssdpOpen then [SsdpSearch(SearchTarget, None)] else [])
      ensures devices == old(devices) && events == old(events)
      ensures mdnsOpen == old(mdnsOpen) && ssdpOpen == old(ssdpOpen)
    {
      if mdnsOpen {
        queries := queries + [MdnsQuery(ServiceName, "PTR")];
      }
      if ssdpOpen {
        queries := queries + [SsdpSearch(SearchTarget, None)];
      }
    }

    /** `destroy()`: close both listeners; safe to call twice. */
    method Destroy()
      modifies this
      ensures !mdnsOpen && !ssdpOpen
      ensures devices == old(devices) && events == old(events) && queries == old(queries)
    {
      if mdnsOpen {
        mdnsOpen := false;
      }
      if ssdpOpen {
        ssdpOpen := false;
      }
    }
  }
}
