/** federator/influxdb/query/query.go: what the federator reads back from InfluxDB. A query's
    outcome (client error, error response, or the decoded results) is a parameter; each result
    row is given as its four columns. */
module Query {
  import opened Wrappers
  import opened Ints
  import Text
  import Collections

  /** One decoded column value: a `json.Number` with its text, or a value of any other type. */
  datatype Cell = Number(text: string) | OtherValue

  /** A row of the traffic query: time, then MIN, MAX and MEAN of `bandwidth_bps`. */
  datatype Row = Row(time: Cell, min: Cell, max: Cell, mean: Cell)

  datatype Series = Series(name: string, tags: map<string, string>, values: seq<Row>)

  datatype QueryResult = QueryResult(series: seq<Series>)

  /** What `c.client.Query` gave: a client error, a response carrying an error, or results. */
  datatype Outcome = ClientFailed(reason: string) | ResponseError(reason: string) | Answered(results: seq<QueryResult>)

  datatype TrafficBandwidth = TrafficBandwidth(
    trafficDirection: string, localHostgroup: string, localHostgroupAddress: string,
    remoteHostgroup: string, remoteHostgroupAddress: string,
    bitsMin1h: int, bitsMax1h: int, bitsAvg1h: int)

  datatype Dependency = Dependency(
    direction: string, protocol: string, localHostgroupProcessName: string,
    localHostgroup: string, localHostgroupAddress: string, localHostgroupAddressPort: string,
    remoteHostgroup: string, remoteHostgroupAddress: string, remoteHostgroupAddressPort: string)

  /** The tag keys each query groups by (query.go:77, 195, 212): a series of its answer carries
      these tags and no others. */
  const TrafficGroupBy: set<string> := {"service", "address", "remote_service", "remote_address"}
  const UpstreamGroupBy: set<string> :=
    {"service", "upstream_service", "upstream_address", "process_name", "upstream_port", "protocol"}
  const DownstreamGroupBy: set<string> :=
    {"service", "downstream_service", "downstream_address", "process_name", "port", "protocol"}

  /** The dependency key sets with the local `address` that the reader copies. */
  const UpstreamGroupByIntended: set<string> := UpstreamGroupBy + {"address"}
  const DownstreamGroupByIntended: set<string> := DownstreamGroupBy + {"address"}

  /** The tags of a series grouped by `keys`: the stored tags restricted to those keys. */
  function GroupTags(tags: map<string, string>, keys: set<string>): (g: map<string, string>)
    ensures forall k :: k in g <==> k in keys && k in tags
    ensures forall k :: k in g ==> g[k] == tags[k]
  {
    map k | k in keys && k in tags :: tags[k]
  }

  const ErrTypeAssertion := "error on type assertion"
  const ErrEmptyData := "received empty data"

  /** `transformJSONNumberToInteger`: the number's text up to the first `.`, read as a base-10
      64-bit integer (so the fraction is truncated toward zero); -1 with an error otherwise. */
  function TransformJSONNumberToInteger(c: Cell): (r: WithError<int>)
    ensures r.err.Some? <==> c.OtherValue? || Text.ParseInt64(Text.BeforeFirst(c.text, '.')).None?
    ensures r.err.Some? ==> r.value == -1
    ensures r.err.None? ==> IsInt64(r.value) && Text.ParseInt64(Text.BeforeFirst(c.text, '.')) == Some(r.value)
    ensures c.OtherValue? ==> r.err == Some(ErrTypeAssertion)
  {
    match c
    case OtherValue => WithError(-1, Some(ErrTypeAssertion))
    case Number(text) =>
      var integerString := Text.Split(text, '.')[0];
      match Text.ParseInt64(integerString)
      case None => WithError(-1, Some("error converting " + integerString + " to int"))
      case Some(v) => WithError(v, None)
  }

  /** A printed 64-bit integer converts back to itself. */
  lemma TransformIntegerRoundTrip(n: int)
    requires IsInt64(n)
    ensures TransformJSONNumberToInteger(Number(Text.FormatInt(n))) == WithError(n, None)
  {
    Text.FormatIntHasNo(n, '.');
    assert Text.BeforeFirst(Text.FormatInt(n), '.') == Text.FormatInt(n);
    Text.FormatParseRoundTrip(n);
  }

  /** A fraction is thrown away: `n.ddd` converts to `n`, so 12.9 gives 12 and -3.7 gives -3. */
  lemma TransformTruncatesFraction(n: int, fraction: string)
    requires IsInt64(n)
    ensures TransformJSONNumberToInteger(Number(Text.FormatInt(n) + "." + fraction)) == WithError(n, None)
  {
    Text.FormatIntHasNo(n, '.');
    Text.BeforeFirstOfPrefix(Text.FormatInt(n), fraction, '.');
    assert Text.FormatInt(n) + "." + fraction == Text.FormatInt(n) + ['.'] + fraction;
    Text.FormatParseRoundTrip(n);
  }

  /** Text with nothing before the point, such as ".5", is an error. */
  lemma TransformRejectsBareFraction(fraction: string)
    ensures TransformJSONNumberToInteger(Number("." + fraction)).err.Some?
    ensures TransformJSONNumberToInteger(Number("." + fraction)).value == -1
  {
    Text.BeforeFirstOfPrefix("", fraction, '.');
    assert "" + ['.'] + fraction == "." + fraction;
  }

  /** One traffic row: emitted only when MIN, MAX and MEAN all convert. */
  function TrafficOfRow(name: string, tags: map<string, string>, row: Row): (r: Option<TrafficBandwidth>)
    ensures r.Some? <==>
      && TransformJSONNumberToInteger(row.min).err.None?
      && TransformJSONNumberToInteger(row.max).err.None?
      && TransformJSONNumberToInteger(row.mean).err.None?
    ensures r.Some? ==>
      && r.value.trafficDirection == name
      && r.value.localHostgroup == Collections.GetOrEmpty(tags, "service")
      && r.value.localHostgroupAddress == Collections.GetOrEmpty(tags, "address")
      && r.value.remoteHostgroup == Collections.GetOrEmpty(tags, "remote_service")
      && r.value.remoteHostgroupAddress == Collections.GetOrEmpty(tags, "remote_address")
      && r.value.bitsMin1h == TransformJSONNumberToInteger(row.min).value
      && r.value.bitsMax1h == TransformJSONNumberToInteger(row.max).value
      && r.value.bitsAvg1h == TransformJSONNumberToInteger(row.mean).value
      && IsInt64(r.value.bitsMin1h) && IsInt64(r.value.bitsMax1h) && IsInt64(r.value.bitsAvg1h)
  {
    var min := TransformJSONNumberToInteger(row.min);
    var max := TransformJSONNumberToInteger(row.max);
    var mean := TransformJSONNumberToInteger(row.mean);
    if min.err.Some? || max.err.Some? || mean.err.Some? then None
    else
      Some(TrafficBandwidth(name, Collections.GetOrEmpty(tags, "service"), Collections.GetOrEmpty(tags, "address"),
                            Collections.GetOrEmpty(tags, "remote_service"), Collections.GetOrEmpty(tags, "remote_address"),
                            min.value, max.value, mean.value))
  }

  /** `TrafficOfRow` with the series name and tags fixed, as a function value. */
  function RowsOf(name: string, tags: map<string, string>): Row -> Option<TrafficBandwidth> {
    (row: Row) => TrafficOfRow(name, tags, row)
  }

  /** The records of one series' rows. */
  function SeriesTraffic(s: Series): seq<TrafficBandwidth> {
    Collections.FilterMap(s.values, RowsOf(s.name, s.tags))
  }

  /** Every record of a series carries the series name as its direction. */
  lemma SeriesTrafficDirection(s: Series)
    ensures forall t :: t in SeriesTraffic(s) ==> t.trafficDirection == s.name
  {
    forall t | t in SeriesTraffic(s)
      ensures t.trafficDirection == s.name
    {
      var k :| 0 <= k < |s.values| && RowsOf(s.name, s.tags)(s.values[k]) == Some(t);
    }
  }

  /** The records of each series, one chunk per series. */
  function SeriesChunks(ss: seq<Series>): (cs: seq<seq<TrafficBandwidth>>)
    ensures |cs| == |ss| && forall i :: 0 <= i < |ss| ==> cs[i] == SeriesTraffic(ss[i])
  {
    seq(|ss|, i requires 0 <= i < |ss| => SeriesTraffic(ss[i]))
  }

  /** The rows of all series, series by series, rows in order, unconvertible rows skipped. */
  function TrafficOfSeries(ss: seq<Series>): (ts: seq<TrafficBandwidth>)
    ensures ts == Collections.Flatten(SeriesChunks(ss))
    ensures forall t :: t in ts ==> exists i :: 0 <= i < |ss| && t.trafficDirection == ss[i].name
    decreases |ss|
  {
    if |ss| == 0 then []
    else
      var first := SeriesTraffic(ss[0]);
      SeriesTrafficDirection(ss[0]);
      var rest := TrafficOfSeries(ss[1..]);
      assert forall i :: 1 <= i < |ss| ==> ss[i] == ss[1..][i - 1];
      assert SeriesChunks(ss)[1..] == SeriesChunks(ss[1..]);
      first + rest
  }

  /** Reading two lists of series one after the other gives the records of the first, then those
      of the second. */
  lemma {:induction false} TrafficOfSeriesAppend(a: seq<Series>, b: seq<Series>)
    ensures TrafficOfSeries(a + b) == TrafficOfSeries(a) + TrafficOfSeries(b)
    decreases |a|
  {
    if |a| == 0 {
      assert a + b == b;
    } else {
      assert (a + b)[1..] == a[1..] + b;
      TrafficOfSeriesAppend(a[1..], b);
    }
  }

  /** The response check shared by both queries: errors, then "no results or no series". */
  function SeriesOf(o: Outcome): (r: Result<seq<Series>, string>)
    ensures r.Success? <==> o.Answered? && |o.results| > 0 && |o.results[0].series| > 0
    ensures r.Success? ==> r.value == o.results[0].series
    ensures o.Answered? && (|o.results| == 0 || |o.results[0].series| == 0) ==> r == Failure(ErrEmptyData)
  {
    match o
    case ClientFailed(e) => Failure("failed to query QueryFederatorTraffic: " + e)
    case ResponseError(e) => Failure("received invalid response: " + e)
    case Answered(results) =>
      if |results| == 0 || |results[0].series| == 0 then Failure(ErrEmptyData)
      else Success(results[0].series)
  }

  /** `queryFederatorTrafficData`. */
  function QueryFederatorTrafficData(o: Outcome): (r: Result<seq<TrafficBandwidth>, string>)
    ensures r.Success? <==> SeriesOf(o).Success?
    ensures r.Success? ==> r.value == TrafficOfSeries(SeriesOf(o).value)
  {
    match SeriesOf(o)
    case Failure(e) => Failure(e)
    case Success(ss) => Success(TrafficOfSeries(ss))
  }

  /** `QueryFederatorTraffic`: the ingress query, then the egress query; any failure yields no
      data and an error. */
  function QueryFederatorTraffic(ingress: Outcome, egress: Outcome): (r: Result<seq<TrafficBandwidth>, string>)
    ensures r.Success? <==> QueryFederatorTrafficData(ingress).Success? && QueryFederatorTrafficData(egress).Success?
    ensures r.Success? ==> r.value == QueryFederatorTrafficData(ingress).value + QueryFederatorTrafficData(egress).value
  {
    match QueryFederatorTrafficData(ingress)
    case Failure(e) => Failure("failed to query ingress traffic data for time range 1h: " + e)
    case Success(ins) =>
      match QueryFederatorTrafficData(egress)
      case Failure(e) => Failure("failed to query egress traffic data for time range 1h: " + e)
      case Success(outs) => Success(ins + outs)
  }

  /** One dependency series: the remote side comes from the `upstream_*` tags exactly for an
      "upstream" series, from the `downstream_*` tags otherwise; the ports always come from
      `port` and `upstream_port`. */
  function DependencyOf(s: Series): (d: Dependency)
    ensures d.direction == s.name
    ensures s.name == "upstream" ==>
      d.remoteHostgroup == Collections.GetOrEmpty(s.tags, "upstream_service") &&
      d.remoteHostgroupAddress == Collections.GetOrEmpty(s.tags, "upstream_address")
    ensures s.name != "upstream" ==>
      d.remoteHostgroup == Collections.GetOrEmpty(s.tags, "downstream_service") &&
      d.remoteHostgroupAddress == Collections.GetOrEmpty(s.tags, "downstream_address")
    ensures d.localHostgroupAddressPort == Collections.GetOrEmpty(s.tags, "port")
    ensures d.remoteHostgroupAddressPort == Collections.GetOrEmpty(s.tags, "upstream_port")
    ensures && d.protocol == Collections.GetOrEmpty(s.tags, "protocol")
            && d.localHostgroupProcessName == Collections.GetOrEmpty(s.tags, "process_name")
            && d.localHostgroup == Collections.GetOrEmpty(s.tags, "service")
            && d.localHostgroupAddress == Collections.GetOrEmpty(s.tags, "address")
  {
    var remoteHostgroup := if s.name == "upstream" then Collections.GetOrEmpty(s.tags, "upstream_service")
                           else Collections.GetOrEmpty(s.tags, "downstream_service");
    var remoteAddress := if s.name == "upstream" then Collections.GetOrEmpty(s.tags, "upstream_address")
                         else Collections.GetOrEmpty(s.tags, "downstream_address");
    Dependency(s.name, Collections.GetOrEmpty(s.tags, "protocol"), Collections.GetOrEmpty(s.tags, "process_name"),
               Collections.GetOrEmpty(s.tags, "service"), Collections.GetOrEmpty(s.tags, "address"),
               Collections.GetOrEmpty(s.tags, "port"), remoteHostgroup, remoteAddress,
               Collections.GetOrEmpty(s.tags, "upstream_port"))
  }

  /** `queryFederatorDependencyData`: one record per series, in order. */
  function QueryFederatorDependencyData(o: Outcome): (r: Result<seq<Dependency>, string>)
    ensures r.Success? <==> SeriesOf(o).Success?
    ensures r.Success? ==>
      && |r.value| == |SeriesOf(o).value|
      && forall i :: 0 <= i < |r.value| ==> r.value[i] == DependencyOf(SeriesOf(o).value[i])
  {
    match SeriesOf(o)
    case Failure(e) => Failure(e)
    case Success(ss) => Success(seq(|ss|, i requires 0 <= i < |ss| => DependencyOf(ss[i])))
  }

  /** `QueryFederatorDependencyLast7d`: upstream records first, then downstream records. */
  function QueryFederatorDependencyLast7d(upstream: Outcome, downstream: Outcome): (r: Result<seq<Dependency>, string>)
    ensures r.Success? <==> QueryFederatorDependencyData(upstream).Success? && QueryFederatorDependencyData(downstream).Success?
    ensures r.Success? ==> r.value == QueryFederatorDependencyData(upstream).value + QueryFederatorDependencyData(downstream).value
  {
    match QueryFederatorDependencyData(upstream)
    case Failure(e) => Failure("failed to query ingress traffic data: " + e)
    case Success(ups) =>
      match QueryFederatorDependencyData(downstream)
      case Failure(e) => Failure("failed to query egress traffic data: " + e)
      case Success(downs) => Success(ups + downs)
  }

  /** Neither dependency query groups by `address`, so every dependency it returns has an empty
      local address, whatever the stored points carry. */
  lemma DependencyQueriesDropLocalAddress(name: string, tags: map<string, string>, values: seq<Row>)
    ensures DependencyOf(Series(name, GroupTags(tags, UpstreamGroupBy), values)).localHostgroupAddress == ""
    ensures DependencyOf(Series(name, GroupTags(tags, DownstreamGroupBy), values)).localHostgroupAddress == ""
  {
    assert "address" !in UpstreamGroupBy && "address" !in DownstreamGroupBy;
  }

  /** With no downstream series, the whole dependency query fails, and the upstream records are
      discarded with it. */
  lemma NoDownstreamSeriesFailsLast7d(upstream: Outcome, results: seq<QueryResult>)
    requires |results| == 0 || |results[0].series| == 0
    ensures QueryFederatorDependencyLast7d(upstream, Answered(results)).Failure?
    ensures QueryFederatorDependencyData(upstream).Success? ==>
      QueryFederatorDependencyLast7d(upstream, Answered(results))
      == Failure("failed to query egress traffic data: " + ErrEmptyData)
  {
  }

  /** A row that does not convert drops out alone; the rows around it are kept, in order. */
  lemma UnconvertibleRowDropsAlone(s: Series, before: seq<Row>, row: Row, after: seq<Row>)
    requires TrafficOfRow(s.name, s.tags, row).None?
    ensures SeriesTraffic(s.(values := before + [row] + after))
         == SeriesTraffic(s.(values := before)) + SeriesTraffic(s.(values := after))
  {
    Collections.FilterMapSkipsRejected(before, row, after, RowsOf(s.name, s.tags));
    Collections.FilterMapAppend(before, after, RowsOf(s.name, s.tags));
  }
}
