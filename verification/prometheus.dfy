/** prometheus/prometheus.go and prometheus/planetexporter.go: how the planet-federator reads the
    planet-exporter's series back out of Prometheus. A range query's outcome is a parameter: the
    query error, or the matrix of series, each its label set and its samples. The peak of a
    series' samples (`getMaxValueFromSamplePairs`, floating point) is a parameter too. */
module Prometheus {
  import opened Wrappers
  import Text
  import Collections

  /** A series' label set. */
  type Metric = map<string, string>

  datatype SampleStream<S> = SampleStream(metric: Metric, values: seq<S>)

  // Labels.

  /** `getLabelValue`: the label's value, or the empty string and an error when it is absent. */
  function GetLabelValue(name: string, metric: Metric): (r: WithError<string>)
    ensures r.err.None? <==> name in metric
    ensures r.err.None? ==> r.value == metric[name]
    ensures r.err.Some? ==> r.value == ""
  {
    if name in metric then WithError(metric[name], None)
    else WithError("", Some("Could not find " + name + " label in metrics"))
  }

  /** `getIPAddressFromLabelValue`: the label's value up to its first ':', the whole value when it
      has none. Splitting always yields a first part, so the only failure is an absent label. */
  function GetIPAddressFromLabelValue(name: string, metric: Metric): (r: WithError<string>)
    ensures r.err.None? <==> name in metric
    ensures r.err.None? ==> r.value <= metric[name] && ':' !in r.value
    ensures r.err.None? ==> r.value == metric[name] || metric[name][|r.value|] == ':'
    ensures r.err.Some? ==> r.value == "" && r.err == GetLabelValue(name, metric).err
  {
    var lv := GetLabelValue(name, metric);
    if lv.err.Some? then WithError("", lv.err)
    else
      var ipParts := Text.Split(lv.value, ':');
      if |ipParts| < 1 then
        assert false;
        WithError("", Some("Could not extract IP from the metric"))
      else WithError(ipParts[0], None)
  }

  /** An "address:port" label gives its address, and a label without a port gives itself. */
  lemma IPAddressOfHostPort(name: string, metric: Metric, address: string, port: string)
    requires ':' !in address
    ensures name in metric && metric[name] == address + ":" + port ==>
              GetIPAddressFromLabelValue(name, metric) == WithError(address, None)
    ensures name in metric && metric[name] == address ==>
              GetIPAddressFromLabelValue(name, metric) == WithError(address, None)
  {
    assert address + ":" + port == address + [':'] + port;
    Text.BeforeFirstOfPrefix(address, port, ':');
  }

  // Records read from the three range queries.

  datatype TrafficBandwidth<B> = TrafficBandwidth(
    localHostgroup: string, remoteHostgroup: string, localDomain: string, remoteDomain: string,
    bandwidthBitsPerSecond: B, direction: string)

  datatype UpstreamService = UpstreamService(
    localHostgroup: string, localAddress: string, localProcessName: string, upstreamPort: string,
    upstreamHostgroup: string, upstreamAddress: string, protocol: string)

  datatype DownstreamService = DownstreamService(
    localHostgroup: string, localAddress: string, localProcessName: string, localPort: string,
    downstreamHostgroup: string, downstreamAddress: string, protocol: string)

  const LocalHostgroupLabel := "local_hostgroup"

  /** Zero-valued label read: an absent label reads as the empty string. */
  function Label(metric: Metric, name: string): string {
    Collections.GetOrEmpty(metric, name)
  }

  /** One traffic series: none without a `local_hostgroup` label. */
  function TrafficOf<S, B>(s: SampleStream<S>, peak: seq<S> -> B): (r: Option<TrafficBandwidth<B>>)
    ensures r.Some? <==> LocalHostgroupLabel in s.metric
    ensures r.Some? ==>
      && r.value.localHostgroup == s.metric[LocalHostgroupLabel]
      && r.value.localDomain == Label(s.metric, "local_domain")
      && r.value.remoteHostgroup == Label(s.metric, "remote_hostgroup")
      && r.value.remoteDomain == Label(s.metric, "remote_domain")
      && r.value.direction == Label(s.metric, "direction")
      && r.value.bandwidthBitsPerSecond == peak(s.values)
  {
    if LocalHostgroupLabel !in s.metric then None
    else
      Some(TrafficBandwidth(s.metric[LocalHostgroupLabel], Label(s.metric, "remote_hostgroup"),
                            Label(s.metric, "local_domain"), Label(s.metric, "remote_domain"),
                            peak(s.values), Label(s.metric, "direction")))
  }

  /** One upstream series: the `port` label is the upstream port, the `remote_*` labels the
      upstream side; the protocol is never filled in. */
  function UpstreamOf<S>(s: SampleStream<S>): (r: Option<UpstreamService>)
    ensures r.Some? <==> LocalHostgroupLabel in s.metric
    ensures r.Some? ==>
      && r.value.localHostgroup == s.metric[LocalHostgroupLabel]
      && r.value.localAddress == Label(s.metric, "local_address")
      && r.value.localProcessName == Label(s.metric, "process_name")
      && r.value.upstreamPort == Label(s.metric, "port")
      && r.value.upstreamHostgroup == Label(s.metric, "remote_hostgroup")
      && r.value.upstreamAddress == Label(s.metric, "remote_address")
      && r.value.protocol == ""
  {
    if LocalHostgroupLabel !in s.metric then None
    else
      Some(UpstreamService(s.metric[LocalHostgroupLabel], Label(s.metric, "local_address"),
                           Label(s.metric, "process_name"), Label(s.metric, "port"),
                           Label(s.metric, "remote_hostgroup"), Label(s.metric, "remote_address"), ""))
  }

  /** One downstream series: the `port` label is the local port, the `remote_*` labels the
      downstream side; the protocol is never filled in. */
  function DownstreamOf<S>(s: SampleStream<S>): (r: Option<DownstreamService>)
    ensures r.Some? <==> LocalHostgroupLabel in s.metric
    ensures r.Some? ==>
      && r.value.localHostgroup == s.metric[LocalHostgroupLabel]
      && r.value.localAddress == Label(s.metric, "local_address")
      && r.value.localProcessName == Label(s.metric, "process_name")
      && r.value.localPort == Label(s.metric, "port")
      && r.value.downstreamHostgroup == Label(s.metric, "remote_hostgroup")
      && r.value.downstreamAddress == Label(s.metric, "remote_address")
      && r.value.protocol == ""
  {
    if LocalHostgroupLabel !in s.metric then None
    else
      Some(DownstreamService(s.metric[LocalHostgroupLabel], Label(s.metric, "local_address"),
                             Label(s.metric, "process_name"), Label(s.metric, "port"),
                             Label(s.metric, "remote_hostgroup"), Label(s.metric, "remote_address"), ""))
  }

  /** `TrafficOf` with the peak fixed, as a function value. */
  function TrafficReader<S, B>(peak: seq<S> -> B): SampleStream<S> -> Option<TrafficBandwidth<B>> {
    (s: SampleStream<S>) => TrafficOf(s, peak)
  }

  function UpstreamReader<S>(): SampleStream<S> -> Option<UpstreamService> {
    (s: SampleStream<S>) => UpstreamOf(s)
  }

  function DownstreamReader<S>(): SampleStream<S> -> Option<DownstreamService> {
    (s: SampleStream<S>) => DownstreamOf(s)
  }

  /** `QueryPlanetExporterTrafficBandwidth`: the query error, or one record per series that has a
      `local_hostgroup` label, in matrix order. */
  function QueryPlanetExporterTrafficBandwidth<S, B>(matrix: Result<seq<SampleStream<S>>, string>, peak: seq<S> -> B)
    : (r: Result<seq<TrafficBandwidth<B>>, string>)
    ensures r.Failure? <==> matrix.Failure?
    ensures r.Failure? ==> r.error == matrix.error
    ensures r.Success? ==> |r.value| <= |matrix.value|
    ensures r.Success? ==> forall t :: t in r.value ==> exists i :: 0 <= i < |matrix.value| && TrafficOf(matrix.value[i], peak) == Some(t)
  {
    match matrix
    case Failure(e) => Failure(e)
    case Success(series) => Success(Collections.FilterMap(series, TrafficReader(peak)))
  }

  /** `QueryPlanetExporterUpstreamServices`, likewise. */
  function QueryPlanetExporterUpstreamServices<S>(matrix: Result<seq<SampleStream<S>>, string>)
    : (r: Result<seq<UpstreamService>, string>)
    ensures r.Failure? <==> matrix.Failure?
    ensures r.Failure? ==> r.error == matrix.error
    ensures r.Success? ==> forall u :: u in r.value ==> u.protocol == ""
    ensures r.Success? ==> forall u :: u in r.value ==> exists i :: 0 <= i < |matrix.value| && UpstreamOf(matrix.value[i]) == Some(u)
  {
    match matrix
    case Failure(e) => Failure(e)
    case Success(series) => Success(Collections.FilterMap(series, UpstreamReader()))
  }

  /** `QueryPlanetExporterDownstreamServices`, likewise. */
  function QueryPlanetExporterDownstreamServices<S>(matrix: Result<seq<SampleStream<S>>, string>)
    : (r: Result<seq<DownstreamService>, string>)
    ensures r.Failure? <==> matrix.Failure?
    ensures r.Failure? ==> r.error == matrix.error
    ensures r.Success? ==> forall d :: d in r.value ==> d.protocol == ""
    ensures r.Success? ==> forall d :: d in r.value ==> exists i :: 0 <= i < |matrix.value| && DownstreamOf(matrix.value[i]) == Some(d)
  {
    match matrix
    case Failure(e) => Failure(e)
    case Success(series) => Success(Collections.FilterMap(series, DownstreamReader()))
  }

  /** A series without a `local_hostgroup` label is skipped by all three queries, and the series
      around it are read as if it were not there. */
  lemma UnlabelledSeriesSkipped<S, B>(before: seq<SampleStream<S>>, s: SampleStream<S>, after: seq<SampleStream<S>>,
                                      peak: seq<S> -> B)
    requires LocalHostgroupLabel !in s.metric
    ensures QueryPlanetExporterTrafficBandwidth(Success(before + [s] + after), peak)
         == QueryPlanetExporterTrafficBandwidth(Success(before + after), peak)
    ensures QueryPlanetExporterUpstreamServices(Success(before + [s] + after))
         == QueryPlanetExporterUpstreamServices(Success(before + after))
    ensures QueryPlanetExporterDownstreamServices(Success(before + [s] + after))
         == QueryPlanetExporterDownstreamServices(Success(before + after))
  {
    assert TrafficReader(peak)(s).None?;
    assert UpstreamReader<S>()(s).None?;
    assert DownstreamReader<S>()(s).None?;
    Collections.FilterMapSkipsRejected(before, s, after, TrafficReader(peak));
    Collections.FilterMapSkipsRejected(before, s, after, UpstreamReader<S>());
    Collections.FilterMapSkipsRejected(before, s, after, DownstreamReader<S>());
  }

  /** When every series is labelled, there is exactly one record per series, in matrix order. */
  lemma LabelledSeriesKeptInOrder<S>(series: seq<SampleStream<S>>)
    requires forall i :: 0 <= i < |series| ==> LocalHostgroupLabel in series[i].metric
    ensures var r := QueryPlanetExporterUpstreamServices(Success(series)).value;
            |r| == |series| && forall i :: 0 <= i < |series| ==> Some(r[i]) == UpstreamOf(series[i])
    ensures var r := QueryPlanetExporterDownstreamServices(Success(series)).value;
            |r| == |series| && forall i :: 0 <= i < |series| ==> Some(r[i]) == DownstreamOf(series[i])
  {
    assert forall i :: 0 <= i < |series| ==> UpstreamReader<S>()(series[i]).Some?;
    assert forall i :: 0 <= i < |series| ==> DownstreamReader<S>()(series[i]).Some?;
    Collections.FilterMapKeepsAll(series, UpstreamReader<S>());
    Collections.FilterMapKeepsAll(series, DownstreamReader<S>());
  }

  /** When every series is labelled, there is exactly one traffic record per series, in matrix
      order, each carrying its series' peak. */
  lemma LabelledTrafficKeptInOrder<S, B>(series: seq<SampleStream<S>>, peak: seq<S> -> B)
    requires forall i :: 0 <= i < |series| ==> LocalHostgroupLabel in series[i].metric
    ensures var r := QueryPlanetExporterTrafficBandwidth(Success(series), peak).value;
            |r| == |series| && forall i :: 0 <= i < |series| ==> Some(r[i]) == TrafficOf(series[i], peak)
  {
    assert forall i :: 0 <= i < |series| ==> TrafficReader(peak)(series[i]).Some?;
    Collections.FilterMapKeepsAll(series, TrafficReader(peak));
  }

  /** The label set the planet-exporter's dependency metrics carry for a record. */
  function DependencyLabels(localHostgroup: string, localAddress: string, processName: string, port: string,
                            remoteHostgroup: string, remoteAddress: string, protocol: string): Metric {
    map[LocalHostgroupLabel := localHostgroup, "local_address" := localAddress, "process_name" := processName,
        "port" := port, "remote_hostgroup" := remoteHostgroup, "remote_address" := remoteAddress,
        "protocol" := protocol]
  }

  /** Reading the labels of a dependency gives it back, except that the protocol label is
      dropped: the records always carry the empty protocol. */
  lemma DependencyLabelsRoundTrip<S>(u: UpstreamService, d: DownstreamService, values: seq<S>)
    ensures UpstreamOf(SampleStream(DependencyLabels(u.localHostgroup, u.localAddress, u.localProcessName,
                                                     u.upstreamPort, u.upstreamHostgroup, u.upstreamAddress,
                                                     u.protocol), values))
         == Some(u.(protocol := ""))
    ensures DownstreamOf(SampleStream(DependencyLabels(d.localHostgroup, d.localAddress, d.localProcessName,
                                                       d.localPort, d.downstreamHostgroup, d.downstreamAddress,
                                                       d.protocol), values))
         == Some(d.(protocol := ""))
  {
  }
}
