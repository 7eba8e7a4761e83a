/** collector/task/darkstat/darkstat.go: per-host byte counters scraped from darkstat, turned into
    host metrics labelled from the inventory. The scrape, `net.ParseIP` and `strconv.ParseFloat`
    are parameters; the float bandwidth is an opaque type `B`. */
module Darkstat {
  import opened Wrappers
  import opened IPv4
  import Collections
  import opened InventoryHosts
  import opened Scrape

  const HostBytesTotal := "host_bytes_total"
  const Ingress := "ingress"
  const Egress := "egress"
  const ErrEmptyAddress := "Darkstat address is empty"
  const ErrMissingFamily := "Metric host_bytes_total doesn't exist"

  datatype Task<B> = Task(enabled: bool, darkstatAddr: string, hosts: seq<HostMetric<B>>)

  /** The local hostgroup and domain: the inventory entry of the local address when there is one
      (even with empty fields), the address text otherwise. */
  datatype Identity = Identity(hostgroup: string, domain: string)

  function LocalIdentity(inventory: map<string, Host>, local: LocalAddr): (id: Identity)
    ensures local.text in inventory ==>
      id == Identity(inventory[local.text].hostgroup, inventory[local.text].domain)
    ensures local.text !in inventory ==> id == Identity(local.text, local.text)
  {
    if local.text in inventory then Identity(inventory[local.text].hostgroup, inventory[local.text].domain)
    else Identity(local.text, local.text)
  }

  /** The first family with the given name. */
  function FindFirst(families: seq<Family>, name: string): (r: Option<Family>)
    ensures r.None? <==> forall i :: 0 <= i < |families| ==> families[i].name != name
    ensures r.Some? ==> exists i :: 0 <= i < |families| && families[i] == r.value && r.value.name == name &&
                                    forall j :: 0 <= j < i ==> families[j].name != name
    decreases |families|
  {
    if |families| == 0 then None
    else if families[0].name == name then Some(families[0])
    else
      var r := FindFirst(families[1..], name);
      assert forall i :: 1 <= i < |families| ==> families[i] == families[1..][i - 1];
      if r.Some? then
        var i :| 0 <= i < |families[1..]| && families[1..][i] == r.value && r.value.name == name &&
                 forall j :: 0 <= j < i ==> families[1..][j].name != name;
        assert families[i + 1] == r.value;
        r
      else r
  }

  /** darkstat counts from its own side: bytes going `out` arrive here, bytes coming `in` leave. */
  function DirectionOf(dir: string): (d: string)
    ensures d == Ingress <==> dir == "out"
    ensures d == Egress <==> dir == "in"
    ensures d == "" <==> dir != "out" && dir != "in"
  {
    if dir == "out" then Ingress else if dir == "in" then Egress else ""
  }

  /** What one sample of `host_bytes_total` contributes: nothing for the local address itself or
      for a value that does not parse, otherwise a metric labelled from the inventory. */
  function MetricOf<B>(inventory: map<string, Host>, local: LocalAddr, parseIP: string -> Option<Addr>,
                       parseFloat: string -> Option<B>, s: Sample): (r: Option<HostMetric<B>>)
    ensures r.None? <==>
      parseIP(Collections.GetOrEmpty(s.labels, "ip")) == Some(local.ip) || parseFloat(s.value).None?
    ensures r.Some? ==>
      var ip := Collections.GetOrEmpty(s.labels, "ip");
      && r.value.remoteIPAddr == ip
      && r.value.direction == DirectionOf(Collections.GetOrEmpty(s.labels, "dir"))
      && r.value.bandwidth == parseFloat(s.value).value
      && (ip in inventory ==> r.value.remoteHostgroup == inventory[ip].hostgroup && r.value.remoteDomain == inventory[ip].domain)
      && (ip !in inventory ==> r.value.remoteHostgroup == "" && r.value.remoteDomain == "")
      && Identity(r.value.localHostgroup, r.value.localDomain) == LocalIdentity(inventory, local)
  {
    var ip := Collections.GetOrEmpty(s.labels, "ip");
    if parseIP(ip) == Some(local.ip) then None
    else
      var remote := if ip in inventory then inventory[ip] else ZeroHost;
      match parseFloat(s.value)
      case None => None
      case Some(bandwidth) =>
        var id := LocalIdentity(inventory, local);
        Some(HostMetric(DirectionOf(Collections.GetOrEmpty(s.labels, "dir")), id.hostgroup,
                        remote.hostgroup, ip, id.domain, remote.domain, bandwidth))
  }

  /** The extraction loop over the family's samples. */
  method Extract<B>(inventory: map<string, Host>, local: LocalAddr, parseIP: string -> Option<Addr>,
                    parseFloat: string -> Option<B>, samples: seq<Sample>) returns (hosts: seq<HostMetric<B>>)
    ensures hosts == Collections.FilterMap(samples, (s: Sample) => MetricOf(inventory, local, parseIP, parseFloat, s))
  {
    var f := (s: Sample) => MetricOf(inventory, local, parseIP, parseFloat, s);
    hosts := [];
    for i := 0 to |samples|
      invariant hosts == Collections.FilterMap(samples[..i], f)
    {
      Collections.FilterMapSnoc(samples[..i], samples[i], f);
      assert samples[..i + 1] == samples[..i] + [samples[i]];
      var m := MetricOf(inventory, local, parseIP, parseFloat, samples[i]);
      if m.Some? {
        hosts := hosts + [m.value];
      }
    }
    assert samples[..|samples|] == samples;
  }

  /** The samples' metrics, as a function. */
  function Metrics<B>(inventory: map<string, Host>, local: LocalAddr, parseIP: string -> Option<Addr>,
                      parseFloat: string -> Option<B>, samples: seq<Sample>): seq<HostMetric<B>>
  {
    Collections.FilterMap(samples, (s: Sample) => MetricOf(inventory, local, parseIP, parseFloat, s))
  }

  /** `Collect`, given the inventory, the local-address outcome and the scrape outcome. */
  function Collect<B>(t: Task<B>, inventory: map<string, Host>, local: Result<LocalAddr, string>,
                      scrape: Result<seq<Family>, string>, parseIP: string -> Option<Addr>,
                      parseFloat: string -> Option<B>): (r: Collected<Task<B>>)
    ensures !t.enabled ==> r == Collected(t, None)
    ensures t.enabled && t.darkstatAddr == "" ==> r == Collected(t, Some(ErrEmptyAddress))
    ensures r.err.Some? ==> r.state == t
    ensures t.enabled && t.darkstatAddr != "" && local.Success? && scrape.Success? ==>
      (r.err == Some(ErrMissingFamily) <==> FindFirst(scrape.value, HostBytesTotal).None?)
    ensures t.enabled && r.err.None? ==>
      && local.Success? && scrape.Success? && FindFirst(scrape.value, HostBytesTotal).Some?
      && r.state == t.(hosts := Metrics(inventory, local.value, parseIP, parseFloat,
                                        FindFirst(scrape.value, HostBytesTotal).value.metrics))
  {
    if !t.enabled then Collected(t, None)
    else if t.darkstatAddr == "" then Collected(t, Some(ErrEmptyAddress))
    else
      match local
      case Failure(e) => Collected(t, Some(e))
      case Success(addr) =>
        match scrape
        case Failure(e) => Collected(t, Some(e))
        case Success(families) =>
          match FindFirst(families, HostBytesTotal)
          case None => Collected(t, Some(ErrMissingFamily))
          case Some(family) =>
            Collected(t.(hosts := Metrics(inventory, addr, parseIP, parseFloat, family.metrics)), None)
  }

  /** A sample that is skipped (its own address, an unparseable value) drops out alone: the
      metrics of the samples around it are kept, in order. */
  lemma SkippedSampleDropsAlone<B>(inventory: map<string, Host>, local: LocalAddr, parseIP: string -> Option<Addr>,
                                   parseFloat: string -> Option<B>, before: seq<Sample>, s: Sample, after: seq<Sample>)
    requires MetricOf(inventory, local, parseIP, parseFloat, s).None?
    ensures Metrics(inventory, local, parseIP, parseFloat, before + [s] + after)
         == Metrics(inventory, local, parseIP, parseFloat, before) + Metrics(inventory, local, parseIP, parseFloat, after)
  {
    var f := (x: Sample) => MetricOf(inventory, local, parseIP, parseFloat, x);
    Collections.FilterMapSkipsRejected(before, s, after, f);
    Collections.FilterMapAppend(before, after, f);
  }

  /** When every sample yields a metric, there is one metric per sample, in order, each carrying
      its sample's `ip` label. */
  lemma EverySampleKept<B>(inventory: map<string, Host>, local: LocalAddr, parseIP: string -> Option<Addr>,
                           parseFloat: string -> Option<B>, samples: seq<Sample>)
    requires forall i :: 0 <= i < |samples| ==> MetricOf(inventory, local, parseIP, parseFloat, samples[i]).Some?
    ensures |Metrics(inventory, local, parseIP, parseFloat, samples)| == |samples|
    ensures forall i :: 0 <= i < |samples| ==>
      Metrics(inventory, local, parseIP, parseFloat, samples)[i].remoteIPAddr == Collections.GetOrEmpty(samples[i].labels, "ip")
  {
    var f := (x: Sample) => MetricOf(inventory, local, parseIP, parseFloat, x);
    Collections.FilterMapKeepsAll(samples, f);
  }
}
