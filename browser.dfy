/**
 * The legacy discovery front end (lib/Browser.js): PTR and A answers over
 * mDNS, and SSDP descriptors keyed by their `<friendlyName>`, folded into one
 * directory; `deviceOn` is emitted whenever an entry first gets a host.
 */
module LegacyDiscovery {
  import opened Wrappers
  import opened Text
  import opened Records

  /** An mDNS answer; `Other` is any type the handlers ignore. */
  datatype Answer =
    | Ptr(name: string, data: string)
    | A(name: string, data: string)
    | Other(name: string)

  /** `deviceOn`, carrying the options given to `new Device`. */
  datatype Event = DeviceOn(name: string, addresses: seq<string>)

  /** The directory after a handler ran, and the events it emitted. */
  datatype Step = Step(devices: Directory, emitted: seq<Event>)

  const LocalSuffix := ".local"

  /** Keys are never dropped and an entry that has a host never changes again. */
  ghost predicate Keeps(d: Directory, d': Directory) {
    d.Keys <= d'.Keys && forall k | k in d && Truthy(d[k].host) :: d'[k] == d[k]
  }

  lemma KeepsTransitive(d1: Directory, d2: Directory, d3: Directory)
    requires Keeps(d1, d2) && Keeps(d2, d3)
    ensures Keeps(d1, d3)
  {
  }

  /** `ev` announces the first host of its key in `d'`, a key with no host in `d`. */
  ghost predicate Transition(d: Directory, d': Directory, ev: Event) {
    && ev.name in d' && |ev.addresses| == 1 && d'[ev.name].host == Some(ev.addresses[0])
    && (ev.name in d ==> !Truthy(d[ev.name].host))
  }

  // ---------------------------------------------------------------------------
  // mDNS (lib/Browser.js:22-50)

  /** The key a PTR answer registers. */
  function PtrKey(data: string): string {
    RemoveFirst(data, ServiceSuffix)
  }

  /** The key an A answer is about. */
  function AKey(name: string): string {
    RemoveFirst(name, LocalSuffix)
  }

  /**
   * The key of a PTR answer: `<instance>._googlecast._tcp.local` is keyed by
   * `<instance>` when the instance has no dot; data without a dot is its own key.
   */
  lemma PtrKeyOfInstance(instance: string)
    requires '.' !in instance
    ensures PtrKey(instance + ServiceSuffix) == instance
    ensures PtrKey(instance) == instance
  {
    RemoveFirstSuffixPlain(instance, ServiceSuffix);
    RemoveFirstPlain(instance, ServiceSuffix);
  }

  /**
   * The key of an A answer: `<instance>.local` is keyed by `<instance>` when
   * the instance has no dot; a name without a dot is its own key.
   */
  lemma AKeyOfInstance(instance: string)
    requires '.' !in instance
    ensures AKey(instance + LocalSuffix) == instance
    ensures AKey(instance) == instance
  {
    RemoveFirstSuffixPlain(instance, LocalSuffix);
    RemoveFirstPlain(instance, LocalSuffix);
  }

  /** One answer of the PTR pass: register the service instance unless it is known. */
  function PtrStep(d: Directory, a: Answer): (r: Directory)
    ensures Keeps(d, r)
    ensures a.Ptr? && a.name == ServiceName ==>
              && r.Keys == d.Keys + {PtrKey(a.data)}
              && r - {PtrKey(a.data)} == d - {PtrKey(a.data)}
              && r[PtrKey(a.data)] == if PtrKey(a.data) in d then d[PtrKey(a.data)] else Entry(Some(PtrKey(a.data)), None)
    ensures !(a.Ptr? && a.name == ServiceName) ==> r == d
  {
    if a.Ptr? && a.name == ServiceName then
      var key := PtrKey(a.data);
      if key !in d then d[key := Entry(Some(key), None)] else d
    else d
  }

  /** `answers.forEach` with the PTR handler. */
  function FoldPtr(d: Directory, answers: seq<Answer>): (r: Directory)
    decreases |answers|
    ensures Keeps(d, r)
    ensures forall a | a in answers && a.Ptr? && a.name == ServiceName :: PtrKey(a.data) in r
  {
    if answers == [] then d
    else
      var n := |answers| - 1;
      var s := FoldPtr(d, answers[..n]);
      var t := PtrStep(s, answers[n]);
      KeepsTransitive(d, s, t);
      assert forall a | a in answers :: a in answers[..n] || a == answers[n];
      t
  }

  /** Extending the answers by one: the PTR pass handles it last. */
  lemma FoldPtrSnoc(d: Directory, answers: seq<Answer>, i: nat)
    requires i < |answers|
    ensures FoldPtr(d, answers[..i + 1]) == PtrStep(FoldPtr(d, answers[..i]), answers[i])
  {
    assert answers[..i + 1][..i] == answers[..i];
  }

  /** `onanswer`: an A answer gives a known, host-less entry its host. */
  function AStep(d: Directory, a: Answer): (r: Step)
    ensures Keeps(d, r.devices)
    ensures r.devices - {AKey(a.name)} == d - {AKey(a.name)}
    ensures forall ev | ev in r.emitted :: Transition(d, r.devices, ev)
    ensures r.emitted != [] <==> a.A? && AKey(a.name) in d && !Truthy(d[AKey(a.name)].host)
    ensures r.emitted != [] ==>
              && r.emitted == [DeviceOn(AKey(a.name), [a.data])]
              && r.devices[AKey(a.name)] == Entry(d[AKey(a.name)].name, Some(a.data))
    ensures r.emitted == [] ==> r.devices == d
  {
    var key := AKey(a.name);
    if a.A? && key in d && !Truthy(d[key].host) then
      Step(d[key := d[key].(host := Some(a.data))], [DeviceOn(key, [a.data])])
    else Step(d, [])
  }

  /** A list of answers handed to `onanswer` one after the other. */
  function FoldA(d: Directory, list: seq<Answer>): (r: Step)
    decreases |list|
    ensures Keeps(d, r.devices)
    ensures |r.emitted| <= |list|
  {
    if list == [] then Step(d, [])
    else
      var s := FoldA(d, list[..|list| - 1]);
      var t := AStep(s.devices, list[|list| - 1]);
      KeepsTransitive(d, s.devices, t.devices);
      Step(t.devices, s.emitted + t.emitted)
  }

  /** Extending the list by one: `onanswer` handles it last. */
  lemma FoldASnoc(d: Directory, list: seq<Answer>, i: nat)
    requires i < |list|
    ensures var s := FoldA(d, list[..i]); var t := AStep(s.devices, list[i]);
      FoldA(d, list[..i + 1]) == Step(t.devices, s.emitted + t.emitted)
  {
    assert list[..i + 1][..i] == list[..i];
  }

  /** One unfolding of `FoldA`: the last answer is handled last. */
  lemma FoldALast(d: Directory, list: seq<Answer>)
    requires list != []
    ensures var s := FoldA(d, list[..|list| - 1]); var t := AStep(s.devices, list[|list| - 1]);
      FoldA(d, list) == Step(t.devices, s.emitted + t.emitted)
  {
  }

  lemma {:induction false} FoldAAppend(d: Directory, xs: seq<Answer>, ys: seq<Answer>)
    ensures var s := FoldA(d, xs); var t := FoldA(s.devices, ys);
      FoldA(d, xs + ys) == Step(t.devices, s.emitted + t.emitted)
    decreases |ys|
  {
    if ys == [] {
      assert xs + ys == xs;
    } else {
      var s := FoldA(d, xs);
      var n := |ys| - 1;
      FoldAAppend(d, xs, ys[..n]);
      var t' := FoldA(s.devices, ys[..n]);
      var u := AStep(t'.devices, ys[n]);
      var zs := xs + ys;
      assert zs[..|zs| - 1] == xs + ys[..n];
      assert zs[|zs| - 1] == ys[n];
      FoldALast(d, zs);
      FoldALast(s.devices, ys);
      ConcatAssoc(s.emitted, t'.emitted, u.emitted);
    }
  }

  /**
   * The `response` handler: PTR answers are read from `answers` only; then A
   * answers from `additionals`, then from `answers`.
   */
  function ResponseStep(d: Directory, answers: seq<Answer>, additionals: seq<Answer>): (r: Step)
    ensures Keeps(d, r.devices)
  {
    var registered := FoldPtr(d, answers);
    var s := FoldA(registered, additionals + answers);
    KeepsTransitive(d, registered, s.devices);
    s
  }

  /** The response handler as its three passes, each from where the previous one left off. */
  lemma ResponseStepPasses(d: Directory, answers: seq<Answer>, additionals: seq<Answer>, s: Step, t: Step)
    requires s == FoldA(FoldPtr(d, answers), additionals)
    requires t == FoldA(s.devices, answers)
    ensures ResponseStep(d, answers, additionals) == Step(t.devices, s.emitted + t.emitted)
  {
    FoldAAppend(FoldPtr(d, answers), additionals, answers);
  }

  /** A PTR answer among the additionals registers nothing. */
  lemma {:induction false} AdditionalPtrIgnored(d: Directory, additionals: seq<Answer>)
    requires forall a | a in additionals :: !a.A?
    ensures ResponseStep(d, [], additionals) == Step(d, [])
  {
    NoAIgnored(d, additionals + []);
  }

  lemma {:induction false} NoAIgnored(d: Directory, list: seq<Answer>)
    requires forall a | a in list :: !a.A?
    ensures FoldA(d, list) == Step(d, [])
    decreases |list|
  {
    if list != [] {
      var n := |list| - 1;
      assert forall a | a in list[..n] :: a in list;
      NoAIgnored(d, list[..n]);
      assert list[n] in list;
    }
  }

  // ---------------------------------------------------------------------------
  // SSDP (lib/Browser.js:77-113)

  /** The upsert after a descriptor was fetched from a responder at `address`. */
  function SsdpStep(d: Directory, body: string, address: string): (r: Step)
    ensures Keeps(d, r.devices)
    ensures |r.emitted| <= 1 && forall ev | ev in r.emitted :: Transition(d, r.devices, ev)
    ensures TagContent(body, "friendlyName").None? ==> r == Step(d, [])
    ensures TagContent(body, "friendlyName").Some? ==>
              var name := TagContent(body, "friendlyName").value;
              && r.devices - {name} == d - {name}
              && (name in d && Truthy(d[name].host) ==> r == Step(d, []))
              && (name !in d ==>
                    name in r.devices && r.devices[name] == Entry(Some(name), Some(address)) && r.emitted == [DeviceOn(name, [address])])
              && (name in d && !Truthy(d[name].host) ==>
                    name in r.devices && r.devices[name] == Entry(d[name].name, Some(address)) && r.emitted == [DeviceOn(name, [address])])
  {
    match TagContent(body, "friendlyName")
    case None => Step(d, [])
    case Some(name) =>
      if name !in d then
        Step(d[name := Entry(Some(name), Some(address))], [DeviceOn(name, [address])])
      else if !Truthy(d[name].host) then
        Step(d[name := d[name].(host := Some(address))], [DeviceOn(name, [address])])
      else Step(d, [])
  }

  // ---------------------------------------------------------------------------
  // Whole runs

  datatype Input =
    | MdnsResponse(answers: seq<Answer>, additionals: seq<Answer>)
    | SsdpDescriptor(body: string, address: string)

  function InputStep(d: Directory, i: Input): (r: Step)
    ensures Keeps(d, r.devices)
  {
    match i
    case MdnsResponse(answers, additionals) => ResponseStep(d, answers, additionals)
    case SsdpDescriptor(body, address) => SsdpStep(d, body, address)
  }

  function Run(d: Directory, inputs: seq<Input>): (r: Step)
    decreases |inputs|
    ensures Keeps(d, r.devices)
  {
    if inputs == [] then Step(d, [])
    else
      var s := Run(d, inputs[..|inputs| - 1]);
      var t := InputStep(s.devices, inputs[|inputs| - 1]);
      KeepsTransitive(d, s.devices, t.devices);
      Step(t.devices, s.emitted + t.emitted)
  }

  /** Every A record and every responder address is a non-empty string. */
  ghost predicate NonEmptyHosts(i: Input) {
    match i
    case MdnsResponse(answers, additionals) =>
      forall a | a in additionals + answers :: a.A? ==> a.data != ""
    case SsdpDescriptor(_, address) => address != ""
  }

  /** Every announced key has a host in `d`. */
  ghost predicate Settled(d: Directory, log: seq<Event>) {
    forall ev | ev in log :: ev.name in d && Truthy(d[ev.name].host)
  }

  /** No key is announced twice. */
  ghost predicate Distinct(log: seq<Event>) {
    forall i, j | 0 <= i < j < |log| :: log[i].name != log[j].name
  }

  lemma StepSettles(d: Directory, log: seq<Event>, r: Step)
    requires Settled(d, log) && Distinct(log)
    requires Keeps(d, r.devices) && |r.emitted| <= 1
    requires forall ev | ev in r.emitted :: Transition(d, r.devices, ev) && ev.addresses[0] != ""
    ensures Settled(r.devices, log + r.emitted) && Distinct(log + r.emitted)
  {
    if r.emitted != [] {
      var ev := r.emitted[0];
      assert ev in r.emitted;
      forall i | 0 <= i < |log| ensures log[i].name != ev.name {
        assert log[i] in log;
      }
    }
  }

  lemma {:induction false} FoldASettles(d: Directory, log: seq<Event>, list: seq<Answer>)
    requires Settled(d, log) && Distinct(log)
    requires forall a | a in list :: a.A? ==> a.data != ""
    ensures var r := FoldA(d, list);
      Settled(r.devices, log + r.emitted) && Distinct(log + r.emitted)
    decreases |list|
  {
    if list != [] {
      var n := |list| - 1;
      assert forall a | a in list[..n] :: a in list;
      FoldASettles(d, log, list[..n]);
      var s := FoldA(d, list[..n]);
      assert list[n] in list;
      var t := AStep(s.devices, list[n]);
      StepSettles(s.devices, log + s.emitted, t);
      assert log + s.emitted + t.emitted == log + (s.emitted + t.emitted);
    }
  }

  /** The PTR pass cannot undo what was announced. */
  lemma KeepsSettled(d: Directory, d': Directory, log: seq<Event>)
    requires Settled(d, log) && Keeps(d, d')
    ensures Settled(d', log)
  {
  }

  /**
   * `host` is never cleared, so over any run with non-empty addresses a key
   * is announced at most once and every announced key keeps a host.
   */
  lemma {:induction false} AnnouncedOnce(d: Directory, inputs: seq<Input>)
    requires forall i | i in inputs :: NonEmptyHosts(i)
    ensures Settled(Run(d, inputs).devices, Run(d, inputs).emitted)
    ensures Distinct(Run(d, inputs).emitted)
    decreases |inputs|
  {
    if inputs != [] {
      var n := |inputs| - 1;
      assert forall i | i in inputs[..n] :: i in inputs;
      AnnouncedOnce(d, inputs[..n]);
      var s := Run(d, inputs[..n]);
      assert inputs[n] in inputs;
      match inputs[n]
      case MdnsResponse(answers, additionals) =>
        var registered := FoldPtr(s.devices, answers);
        KeepsSettled(s.devices, registered, s.emitted);
        FoldASettles(registered, s.emitted, additionals + answers);
      case SsdpDescriptor(body, address) =>
        var t := SsdpStep(s.devices, body, address);
        StepSettles(s.devices, s.emitted, t);
    }
  }

  /** The announcement of a service instance over mDNS: its PTR and its A record. */
  function Announcement(instance: string, host: string): Input {
    MdnsResponse([Ptr(ServiceName, instance + ServiceSuffix), A(instance + LocalSuffix, host)], [])
  }

  /** The PTR pass over an announcement registers the instance without a host. */
  lemma AnnouncementPtrPass(instance: string, host: string)
    requires '.' !in instance
    ensures FoldPtr(map[], Announcement(instance, host).answers) == map[instance := Entry(Some(instance), None)]
  {
    PtrKeyOfInstance(instance);
    var ptr := Ptr(ServiceName, instance + ServiceSuffix);
    var answers := Announcement(instance, host).answers;
    assert answers[..1] == [ptr] && [ptr][..0] == [];
    assert FoldPtr(map[], [ptr]) == PtrStep(map[], ptr);
  }

  /** The A pass over an announcement gives the registered instance its host. */
  lemma AnnouncementAPass(instance: string, host: string)
    requires '.' !in instance
    ensures FoldA(map[instance := Entry(Some(instance), None)], Announcement(instance, host).answers)
         == Step(map[instance := Entry(Some(instance), Some(host))], [DeviceOn(instance, [host])])
  {
    AKeyOfInstance(instance);
    var registered := map[instance := Entry(Some(instance), None)];
    var ptr := Ptr(ServiceName, instance + ServiceSuffix);
    var answers := Announcement(instance, host).answers;
    assert answers[..1] == [ptr] && [ptr][..0] == [];
    assert FoldA(registered, [ptr]) == Step(registered, []);
    assert AStep(registered, answers[1])
        == Step(map[instance := Entry(Some(instance), Some(host))], [DeviceOn(instance, [host])]);
  }

  lemma AnnouncementRegisters(instance: string, host: string)
    requires '.' !in instance
    ensures InputStep(map[], Announcement(instance, host))
         == Step(map[instance := Entry(Some(instance), Some(host))], [DeviceOn(instance, [host])])
  {
    AnnouncementPtrPass(instance, host);
    AnnouncementAPass(instance, host);
    var answers := Announcement(instance, host).answers;
    assert [] + answers == answers;
  }

  /**
   * One device seen both ways: mDNS registers it under its instance name and
   * SSDP under its friendly name, so two `deviceOn` events carry the same address.
   */
  lemma SameHostTwoKeys(instance: string, host: string, body: string, friendlyName: string)
    requires '.' !in instance
    requires TagContent(body, "friendlyName") == Some(friendlyName) && friendlyName != instance
    ensures var r := Run(map[], [Announcement(instance, host), SsdpDescriptor(body, host)]);
      && r.emitted == [DeviceOn(instance, [host]), DeviceOn(friendlyName, [host])]
      && instance in r.devices && friendlyName in r.devices
      && r.devices[instance].host == r.devices[friendlyName].host == Some(host)
  {
    var inputs := [Announcement(instance, host), SsdpDescriptor(body, host)];
    AnnouncementRegisters(instance, host);
    assert inputs[..1] == [Announcement(instance, host)] && inputs[..1][..0] == [];
    assert Run(map[], inputs[..1])
        == Step(map[instance := Entry(Some(instance), Some(host))], [DeviceOn(instance, [host])]);
  }

  // ---------------------------------------------------------------------------
  // The browser object

  /** One entry of `os.networkInterfaces()`. */
  datatype NetInterface = NetInterface(address: string, internal: bool)

  /** The SSDP searches of one interface group: one per external interface, in order. */
  function GroupSearches(group: seq<NetInterface>): (r: seq<Query>)
    decreases |group|
    ensures |r| <= |group|
  {
    if group == [] then []
    else
      var n := |group| - 1;
      GroupSearches(group[..n]) + if group[n].internal then [] else [SsdpSearch(SearchTarget, Some(group[n].address))]
  }

  /** The SSDP searches of every interface group, group by group. */
  function Searches(groups: seq<seq<NetInterface>>): seq<Query>
    decreases |groups|
  {
    if groups == [] then []
    else
      var n := |groups| - 1;
      Searches(groups[..n]) + GroupSearches(groups[n])
  }

  /** A group's searches are exactly those bound to its external interfaces. */
  lemma {:induction false} GroupSearchesMembers(group: seq<NetInterface>)
    decreases |group|
    ensures forall q | q in GroupSearches(group) ::
              exists k :: 0 <= k < |group| && !group[k].internal && q == SsdpSearch(SearchTarget, Some(group[k].address))
    ensures forall k | 0 <= k < |group| && !group[k].internal ::
              SsdpSearch(SearchTarget, Some(group[k].address)) in GroupSearches(group)
  {
    if group != [] {
      var n := |group| - 1;
      GroupSearchesMembers(group[..n]);
      assert forall k | 0 <= k < n :: group[..n][k] == group[k];
    }
  }

  /** `update()`'s searches are exactly those bound to the external interfaces of every group. */
  lemma {:induction false} SearchesMembers(groups: seq<seq<NetInterface>>)
    decreases |groups|
    ensures forall q | q in Searches(groups) ::
              exists g, k :: 0 <= g < |groups| && 0 <= k < |groups[g]| && !groups[g][k].internal
                             && q == SsdpSearch(SearchTarget, Some(groups[g][k].address))
    ensures forall g, k | 0 <= g < |groups| && 0 <= k < |groups[g]| && !groups[g][k].internal ::
              SsdpSearch(SearchTarget, Some(groups[g][k].address)) in Searches(groups)
  {
    if groups != [] {
      var n := |groups| - 1;
      SearchesMembers(groups[..n]);
      GroupSearchesMembers(groups[n]);
      assert forall g | 0 <= g < n :: groups[..n][g] == groups[g];
    }
  }

  /** Extending the interface group by one: its search, if external, comes last. */
  lemma GroupSearchesSnoc(group: seq<NetInterface>, k: nat)
    requires k < |group|
    ensures GroupSearches(group[..k + 1])
         == GroupSearches(group[..k]) + if group[k].internal then [] else [SsdpSearch(SearchTarget, Some(group[k].address))]
  {
    assert group[..k + 1][..k] == group[..k];
  }

  /** Extending the list of groups by one: its searches come last. */
  lemma SearchesSnoc(groups: seq<seq<NetInterface>>, g: nat)
    requires g < |groups|
    ensures Searches(groups[..g + 1]) == Searches(groups[..g]) + GroupSearches(groups[g])
  {
    assert groups[..g + 1][..g] == groups[..g];
  }

  class Browser {
    var devices: Directory
    var events: seq<Event>
    var dnsOpen: bool
    var queries: seq<Query>

    /** `new Browser()`: an empty directory, then `update()`. */
    constructor (interfaces: seq<seq<NetInterface>>)
      ensures devices == map[] && events == [] && dnsOpen
      ensures queries == Searches(interfaces) + [MdnsQuery(ServiceName, "PTR")]
    {
      devices := map[];
      events := [];
      dnsOpen := true;
      queries := [];
      new;
      var done := Update(interfaces);
    }

    /** `onanswer` (lib/Browser.js:34-46). */
    method OnA(a: Answer)
      modifies this
      ensures devices == AStep(old(devices), a).devices
      ensures events == old(events) + AStep(old(devices), a).emitted
      ensures dnsOpen == old(dnsOpen) && queries == old(queries)
    {
      var name := RemoveFirst(a.name, LocalSuffix);
      if a.A? && name in devices && !Truthy(devices[name].host) {
        devices := devices[name := devices[name].(host := Some(a.data))];
        events := events + [DeviceOn(name, [a.data])];
      }
    }

    /** `list.forEach(onanswer)`. */
    method OnAs(list: seq<Answer>)
      modifies this
      ensures devices == FoldA(old(devices), list).devices
      ensures events == old(events) + FoldA(old(devices), list).emitted
      ensures dnsOpen == old(dnsOpen) && queries == old(queries)
    {
      var i := 0;
      while i < |list|
        invariant 0 <= i <= |list|
        invariant devices == FoldA(old(devices), list[..i]).devices
        invariant events == old(events) + FoldA(old(devices), list[..i]).emitted
        invariant dnsOpen == old(dnsOpen) && queries == old(queries)
      {
        FoldASnoc(old(devices), list, i);
        OnA(list[i]);
        i := i + 1;
      }
      assert list[..i] == list;
    }

    /** The mDNS `response` handler; after `destroy` its listeners are gone. */
    method OnMdnsResponse(answers: seq<Answer>, additionals: seq<Answer>)
      modifies this
      ensures dnsOpen ==> devices == ResponseStep(old(devices), answers, additionals).devices
      ensures dnsOpen ==> events == old(events) + ResponseStep(old(devices), answers, additionals).emitted
      ensures !dnsOpen ==> devices == old(devices) && events == old(events)
      ensures dnsOpen == old(dnsOpen) && queries == old(queries)
    {
      if !dnsOpen {
        return;
      }
      OnPtrs(answers);
      ghost var s := FoldA(devices, additionals);
      OnAs(additionals);
      ghost var t := FoldA(devices, answers);
      OnAs(answers);
      ResponseStepPasses(old(devices), answers, additionals, s, t);
      ConcatAssoc(old(events), s.emitted, t.emitted);
    }

    /** `response.answers.forEach` with the PTR handler (lib/Browser.js:23-32). */
    method OnPtrs(answers: seq<Answer>)
      modifies this
      ensures devices == FoldPtr(old(devices), answers)
      ensures events == old(events) && dnsOpen == old(dnsOpen) && queries == old(queries)
    {
      var i := 0;
      while i < |answers|
        invariant 0 <= i <= |answers|
        invariant devices == FoldPtr(old(devices), answers[..i])
        invariant events == old(events) && dnsOpen == old(dnsOpen) && queries == old(queries)
      {
        FoldPtrSnoc(old(devices), answers, i);
        var a := answers[i];
        if a.Ptr? && a.name == ServiceName {
          var name := RemoveFirst(a.data, ServiceSuffix);
          if name !in devices {
            devices := devices[name := Entry(Some(name), None)];
          }
        }
        i := i + 1;
      }
      assert answers[..i] == answers;
    }

    /** The SSDP `response` handler (lib/Browser.js:77-81): the URL it fetches, if any. */
    method OnSsdpResponse(statusCode: int, location: Option<string>) returns (fetch: Option<string>)
      ensures fetch == DescriptorLocation(statusCode, location)
    {
      if statusCode != 200 {
        return None;
      }
      if !Truthy(location) {
        return None;
      }
      return location;
    }

    /**
     * The end of an SSDP exchange: the descriptor fetched from the response's
     * LOCATION and the responder's address. The SSDP clients are never closed,
     * so this runs even after `destroy`.
     */
    method OnDescriptor(body: string, address: string)
      modifies this
      ensures devices == SsdpStep(old(devices), body, address).devices
      ensures events == old(events) + SsdpStep(old(devices), body, address).emitted
      ensures dnsOpen == old(dnsOpen) && queries == old(queries)
    {
      var matched := TagContent(body, "friendlyName");
      if matched.None? {
        return;
      }
      var name := matched.value;
      if name !in devices {
        devices := devices[name := Entry(Some(name), Some(address))];
        events := events + [DeviceOn(name, [address])];
      } else if !Truthy(devices[name].host) {
        devices := devices[name := devices[name].(host := Some(address))];
        events := events + [DeviceOn(name, [address])];
      }
    }

    /** `update()`: an SSDP search from every external interface, then the mDNS query. */
    method Update(interfaces: seq<seq<NetInterface>>) returns (done: Completion)
      modifies this
      ensures queries == old(queries) + Searches(interfaces) + (if dnsOpen then [MdnsQuery(ServiceName, "PTR")] else [])
      ensures done == (if dnsOpen then Returned else Threw)
      ensures devices == old(devices) && events == old(events) && dnsOpen == old(dnsOpen)
    {
      var g := 0;
      while g < |interfaces|
        invariant 0 <= g <= |interfaces|
        invariant queries == old(queries) + Searches(interfaces[..g])
        invariant devices == old(devices) && events == old(events) && dnsOpen == old(dnsOpen)
      {
        SearchesSnoc(interfaces, g);
        SearchGroup(interfaces[g]);
        g := g + 1;
      }
      assert interfaces[..g] == interfaces;
      if !dnsOpen {
        // `self._dns.query` on the null `_dns`, once every search is sent
        return Threw;
      }
      queries := queries + [MdnsQuery(ServiceName, "PTR")];
      return Returned;
    }

    /** The searches of one group of `networkInterfaces` (lib/Browser.js:70-115). */
    method SearchGroup(group: seq<NetInterface>)
      modifies this
      ensures queries == old(queries) + GroupSearches(group)
      ensures devices == old(devices) && events == old(events) && dnsOpen == old(dnsOpen)
    {
      var k := 0;
      while k < |group|
        invariant 0 <= k <= |group|
        invariant queries == old(queries) + GroupSearches(group[..k])
        invariant devices == old(devices) && events == old(events) && dnsOpen == old(dnsOpen)
      {
        GroupSearchesSnoc(group, k);
        if !group[k].internal {
          queries := queries + [SsdpSearch(SearchTarget, Some(group[k].address))];
        }
        k := k + 1;
      }
      assert group[..k] == group;
    }

    /** `destroy()`: `_dns` becomes null, so a second call throws before changing anything. */
    method Destroy() returns (done: Completion)
      modifies this
      ensures !dnsOpen
      ensures done == (if old(dnsOpen) then Returned else Threw)
      ensures devices == old(devices) && events == old(events) && queries == old(queries)
    {
      if !dnsOpen {
        // `self._dns.removeAllListeners()` on the null `_dns`
        return Threw;
      }
      dnsOpen := false;
      return Returned;
    }

    /** `stop()`, the deprecated name of `destroy()`. */
    method Stop() returns (done: Completion)
      modifies this
      ensures !dnsOpen
      ensures done == (if old(dnsOpen) then Returned else Threw)
      ensures devices == old(devices) && events == old(events) && queries == old(queries)
    {
      done := Destroy();
    }
  }
}
