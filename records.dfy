/**
 * The discovery directory shared by both discovery front ends: a dictionary
 * `_devices` from a device key to `{name, host}`, either of which may be null.
 */
module Records {
  import opened Wrappers
  import opened Text

  const ServiceName := "_googlecast._tcp.local"
  /** What a cast service instance's name ends with: a dot, then the service name. */
  const ServiceSuffix := "." + ServiceName
  const SearchTarget := "urn:dial-multiscreen-org:service:dial:1"

  /** A probe sent on the network: an mDNS question, or an SSDP M-SEARCH. */
  datatype Query =
    | MdnsQuery(service: string, recordType: string)
    | SsdpSearch(target: string, unicastHost: Option<string>)

  /** The URL fetched for an SSDP response: only a 200 with a LOCATION header is followed. */
  function DescriptorLocation(statusCode: int, location: Option<string>): (r: Option<string>)
    ensures r.Some? <==> statusCode == 200 && Truthy(location)
    ensures r.Some? ==> r == location
  {
    if statusCode != 200 || !Truthy(location) then None else location
  }

  datatype Entry = Entry(name: Option<string>, host: Option<string>)

  /** Both fields are known (truthy). */
  predicate Complete(e: Entry) {
    Truthy(e.name) && Truthy(e.host)
  }

  type Directory = map<string, Entry>

  /** `d'` keeps every key of `d`, and every complete entry of `d` as it was. */
  ghost predicate Grows(d: Directory, d': Directory) {
    d.Keys <= d'.Keys && forall k :: k in d && Complete(d[k]) ==> d'[k] == d[k]
  }

  lemma GrowsTransitive(d1: Directory, d2: Directory, d3: Directory)
    requires Grows(d1, d2) && Grows(d2, d3)
    ensures Grows(d1, d3)
  {
  }
}
