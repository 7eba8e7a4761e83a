/** federator/influxdb/influxdb.go: the InfluxDB backend of the planet-federator, which turns
    traffic and dependency records into points. A point is its measurement, its tags and its
    fields; the time stamp and the asynchronous write are not modelled. Reading points back is
    what federator/influxdb/query/query.go does with the series of a measurement, grouped by the
    tag keys of its query, so the properties here are stated against that reader. The downstream point is modelled as written,
    under the upstream measurement and tag keys, and as the reader expects it; the backend
    operation writes the first. */
module FederatorInfluxDB {
  import opened Wrappers
  import opened Federator
  import Query
  import Collections

  const UpstreamMeasurement := "upstream"
  const DownstreamMeasurement := "downstream"

  const LocalHostgroupTag := "service"
  const LocalAddressTag := "address"
  const LocalPortTag := "port"
  const LocalProcessNameTag := "process_name"
  const RemoteHostgroupTag := "remote_service"
  const RemoteAddressTag := "remote_address"
  const UpstreamHostgroupTag := "upstream_service"
  const UpstreamAddressTag := "upstream_address"
  const UpstreamPortTag := "upstream_port"
  const DownstreamHostgroupTag := "downstream_service"
  const DownstreamAddressTag := "downstream_address"
  const ProtocolTag := "protocol"

  const BandwidthBpsField := "bandwidth_bps"
  const ServiceDependencyField := "service_dependency"

  datatype FieldValue<B> = Float(bits: B) | Integer(n: int)

  datatype Point<B> = Point(measurement: string, tags: map<string, string>, fields: map<string, FieldValue<B>>)

  /** The point of a traffic record, in the measurement named by its normalised direction. */
  function TrafficPoint<B>(t: TrafficBandwidth<B>): (p: Point<B>)
    ensures p.measurement == NormalizeDirection(t.direction)
    ensures p.fields == map[BandwidthBpsField := Float(t.bitsPerSecond)]
  {
    Point(NormalizeDirection(t.direction),
          map[LocalHostgroupTag := t.localHostgroup, LocalAddressTag := t.localAddress,
              RemoteHostgroupTag := t.remoteHostgroup, RemoteAddressTag := t.remoteDomain],
          map[BandwidthBpsField := Float(t.bitsPerSecond)])
  }

  /** The point of an upstream dependency. */
  function UpstreamPoint<B>(u: UpstreamService): (p: Point<B>)
    ensures p.measurement == UpstreamMeasurement
    ensures p.fields == map[ServiceDependencyField := Integer(1)]
  {
    Point(UpstreamMeasurement,
          map[LocalHostgroupTag := u.localHostgroup, LocalAddressTag := u.localAddress,
              UpstreamHostgroupTag := u.upstreamHostgroup, UpstreamAddressTag := u.upstreamAddress,
              UpstreamPortTag := u.upstreamPort, LocalProcessNameTag := u.localProcessName,
              ProtocolTag := u.protocol],
          map[ServiceDependencyField := Integer(1)])
  }

  /** The downstream point as `AddDownstreamService` builds it: in the upstream measurement, the
      remote side under the upstream tag keys. */
  function DownstreamPointAsWritten<B>(d: DownstreamService): (p: Point<B>)
    ensures p.measurement == UpstreamMeasurement
    ensures DownstreamHostgroupTag !in p.tags && DownstreamAddressTag !in p.tags
    ensures p.fields == map[ServiceDependencyField := Integer(1)]
  {
    Point(UpstreamMeasurement,
          map[LocalHostgroupTag := d.localHostgroup, LocalAddressTag := d.localAddress,
              LocalPortTag := d.localPort, LocalProcessNameTag := d.localProcessName,
              UpstreamHostgroupTag := d.downstreamHostgroup, UpstreamAddressTag := d.downstreamAddress,
              ProtocolTag := d.protocol],
          map[ServiceDependencyField := Integer(1)])
  }

  /** The downstream point as the reader expects it. */
  function DownstreamPoint<B>(d: DownstreamService): (p: Point<B>)
    ensures p.measurement == DownstreamMeasurement
    ensures UpstreamHostgroupTag !in p.tags && UpstreamAddressTag !in p.tags
    ensures p.fields == map[ServiceDependencyField := Integer(1)]
  {
    Point(DownstreamMeasurement,
          map[LocalHostgroupTag := d.localHostgroup, LocalAddressTag := d.localAddress,
              LocalPortTag := d.localPort, LocalProcessNameTag := d.localProcessName,
              DownstreamHostgroupTag := d.downstreamHostgroup, DownstreamAddressTag := d.downstreamAddress,
              ProtocolTag := d.protocol],
          map[ServiceDependencyField := Integer(1)])
  }

  /** The series the reader sees for a point, queried with GROUP BY `keys`: the point's
      measurement, only its tags among `keys`, and the rows `values`. */
  function SeriesOf<B>(p: Point<B>, keys: set<string>, values: seq<Query.Row>): Query.Series {
    Query.Series(p.measurement, Query.GroupTags(p.tags, keys), values)
  }

  /** A traffic point reads back as a record of its normalised direction with its hosts, for
      every row whose numbers convert. */
  lemma TrafficPointRoundTrip<B>(t: TrafficBandwidth<B>, row: Query.Row)
    ensures var r := Query.TrafficOfRow(TrafficPoint(t).measurement,
                                        Query.GroupTags(TrafficPoint(t).tags, Query.TrafficGroupBy), row);
            r.Some? ==>
              && r.value.trafficDirection == NormalizeDirection(t.direction)
              && r.value.localHostgroup == t.localHostgroup
              && r.value.localHostgroupAddress == t.localAddress
              && r.value.remoteHostgroup == t.remoteHostgroup
              && r.value.remoteHostgroupAddress == t.remoteDomain
  {
  }

  /** An upstream point, read by the upstream query, gives an upstream dependency with every
      field of the record but the local address, which that query does not group by, and no
      local port. */
  lemma UpstreamPointRoundTrip<B>(u: UpstreamService, values: seq<Query.Row>)
    ensures Query.DependencyOf(SeriesOf(UpstreamPoint<B>(u), Query.UpstreamGroupBy, values))
         == Query.Dependency(UpstreamMeasurement, u.protocol, u.localProcessName, u.localHostgroup,
                             "", "", u.upstreamHostgroup, u.upstreamAddress, u.upstreamPort)
  {
  }

  /** A downstream point as the reader expects it, read by the downstream query, gives a
      downstream dependency with every field of the record but the local address, and no
      upstream port. */
  lemma DownstreamPointRoundTrip<B>(d: DownstreamService, values: seq<Query.Row>)
    ensures Query.DependencyOf(SeriesOf(DownstreamPoint<B>(d), Query.DownstreamGroupBy, values))
         == Query.Dependency(DownstreamMeasurement, d.protocol, d.localProcessName, d.localHostgroup,
                             "", d.localPort, d.downstreamHostgroup, d.downstreamAddress, "")
  {
  }

  /** As written, the local address of a dependency is lost on the way back. */
  lemma DependencyLocalAddressLost<B>(values: seq<Query.Row>)
    ensures var u := UpstreamService("web", "10.0.0.1", "nginx", "5432", "db", "10.0.0.2", "tcp");
            Query.DependencyOf(SeriesOf(UpstreamPoint<B>(u), Query.UpstreamGroupBy, values)).localHostgroupAddress == ""
  {
    var u := UpstreamService("web", "10.0.0.1", "nginx", "5432", "db", "10.0.0.2", "tcp");
    Query.DependencyQueriesDropLocalAddress(UpstreamMeasurement, UpstreamPoint<B>(u).tags, values);
  }

  /** When the queries also group by `address`, the upstream point and the downstream point as
      the reader expects it read back as their full records. */
  lemma DependencyPointsRoundTripIntended<B>(u: UpstreamService, d: DownstreamService, values: seq<Query.Row>)
    ensures Query.DependencyOf(SeriesOf(UpstreamPoint<B>(u), Query.UpstreamGroupByIntended, values))
         == Query.Dependency(UpstreamMeasurement, u.protocol, u.localProcessName, u.localHostgroup,
                             u.localAddress, "", u.upstreamHostgroup, u.upstreamAddress, u.upstreamPort)
    ensures Query.DependencyOf(SeriesOf(DownstreamPoint<B>(d), Query.DownstreamGroupByIntended, values))
         == Query.Dependency(DownstreamMeasurement, d.protocol, d.localProcessName, d.localHostgroup,
                             d.localAddress, d.localPort, d.downstreamHostgroup, d.downstreamAddress, "")
  {
  }

  /** As written, a downstream dependency is stored among the upstream ones and reads back as an
      upstream dependency. */
  lemma DownstreamPointAsWrittenReadsAsUpstream<B>(d: DownstreamService, values: seq<Query.Row>)
    ensures Query.DependencyOf(SeriesOf(DownstreamPointAsWritten<B>(d), Query.UpstreamGroupBy, values)).direction == UpstreamMeasurement
    ensures Query.DependencyOf(SeriesOf(DownstreamPointAsWritten<B>(d), Query.UpstreamGroupBy, values)).remoteHostgroup == d.downstreamHostgroup
  {
  }

  /** `AddTrafficBandwidthData`: writes the traffic point and returns no error. */
  function AddTrafficBandwidthData<B>(t: TrafficBandwidth<B>): (r: WithError<Point<B>>)
    ensures r.err.None?
    ensures r.value.measurement == NormalizeDirection(t.direction)
    ensures Collections.GetOrEmpty(r.value.tags, RemoteAddressTag) == t.remoteDomain
  {
    WithError(TrafficPoint(t), None)
  }

  /** `AddUpstreamService`: writes the upstream point and returns no error. */
  function AddUpstreamService<B>(u: UpstreamService): (r: WithError<Point<B>>)
    ensures r.err.None?
    ensures forall values :: Query.DependencyOf(SeriesOf(r.value, Query.UpstreamGroupBy, values)).direction == UpstreamMeasurement
  {
    WithError(UpstreamPoint(u), None)
  }

  /** `AddDownstreamService`: writes the downstream point as built, returning no error; the
      reader takes it for an upstream dependency whose remote side is the downstream one. */
  function AddDownstreamService<B>(d: DownstreamService): (r: WithError<Point<B>>)
    ensures r.err.None?
    ensures r.value.measurement == UpstreamMeasurement
    ensures forall values :: Query.DependencyOf(SeriesOf(r.value, Query.UpstreamGroupBy, values)).direction == UpstreamMeasurement
    ensures forall values :: Query.DependencyOf(SeriesOf(r.value, Query.UpstreamGroupBy, values)).remoteHostgroup == d.downstreamHostgroup
    ensures forall values :: Query.DependencyOf(SeriesOf(r.value, Query.UpstreamGroupBy, values)).remoteHostgroupAddress == d.downstreamAddress
  {
    WithError(DownstreamPointAsWritten(d), None)
  }
}
