# planet-exporter, modelled in Dafny

planet-exporter runs on every host of a fleet. Each collection round does three things:

- It enumerates the host's sockets.
- It labels the local and remote addresses with the hostgroup and domain of an inventory.
- It publishes three kinds of metric: traffic bandwidth per remote host (from darkstat or from an
  eBPF exporter), upstream dependencies (connections this host opened) and downstream
  dependencies (connections to this host's listening ports).

The planet-federator reads those metrics back from Prometheus. It stores them through a backend,
either InfluxDB or BigQuery. A separate command copies the InfluxDB data into BigQuery tables on a
schedule.

This project models the core of that pipeline as pure functions and short methods over immutable
data:

- the inventory task: parsing ndjson and JSON-array host lists, the exact-address map, and the
  CIDR-aware lookup with the longest prefix winning (`inventory_hosts.dfy`,
  `inventory_collect.dfy`, `inventory_lookup.dfy`);
- socket classification into listening ports and peer tuples (`network.dfy`);
- the socketstat task, which correlates peers into deduplicated upstream and downstream records
  (`socketstat.dfy`);
- the darkstat and eBPF bandwidth scrapers (`darkstat.dfy`, `tcptop.dfy`, with shared shapes in
  `scrape.dfy`);
- the federator's Prometheus readers (`prometheus.dfy`) and its two backends (`federator.dfy`,
  `federator_influxdb.dfy`, `federator_bigquery.dfy`);
- the InfluxDB query client (`query.dfy`);
- the InfluxDB-to-BigQuery jobs (`bq_jobs.dfy`, `bq_insert.dfy`, `nullstring.dfy`).

The shared helpers are `wrappers.dfy` (Option, Result, a value with an optional error),
`collections.dfy` (filter-map, last-wins indexing, flattening), `text.dfy` (decimal formatting and
parsing, splitting), `ints.dfy` and `ipv4.dfy`.

Everything outside the code's own logic is a parameter of the model:

- the socket enumeration, the default local address, HTTP fetches and Prometheus scrapes are
  given as their outcomes;
- `net.ParseIP`, `net.ParseCIDR` and `strconv.ParseFloat` are given as functions;
- an inserter's `Put` is given as the error it returns.

Floating-point values are an opaque type parameter.

## Model

| member | source | states |
|---|---|---|
| InventoryHosts.DecodeStream | collector/task/inventory/host.go:48-58 | ndjson decoding into one reused entry gives one host per decoded line, and each host agrees with the members its line assigned |
| InventoryHosts.ParseHosts | collector/task/inventory/host.go:41-78 | an unknown format is an error; ndjson never fails and yields exactly the hosts the stream decoder yields, in order; a JSON array fails exactly when its decoding fails and otherwise yields its elements |
| InventoryHosts.DecodeStreamOfCompleteEntries | collector/task/inventory/host.go:48-58 | when every line sets every member, ndjson decoding yields exactly those lines' hosts, in order |
| InventoryHosts.NDJSONCarriesOmittedMembers | collector/task/inventory/host.go:49-56 | a line that omits a member keeps the previous line's value for it, because the entry is reused |
| InventoryHosts.ArrayTrailingDataIgnored | collector/task/inventory/host.go:60-70 | data after a well-formed JSON array does not change the parsed hosts |
| InventoryCollect.Elements | collector/task/inventory/inventory.go:94-100 | one host per array element, agreeing with the element's members |
| InventoryCollect.BuildExactMap | collector/task/inventory/inventory.go:102-105 | the keys are exactly the hosts' addresses, each maps to a host with that address, and the last host with an address wins |
| InventoryCollect.Collect | collector/task/inventory/inventory.go:71-114 | disabled does nothing; an empty address is an error; any error leaves the state unchanged; the round publishes exactly when the fetch answers with a decoded array, and then the published map is built from it |
| InventoryCollect.GetReturnsLastPublished | collector/task/inventory/inventory.go:62-68 | after any sequence of rounds, `Get` returns the map of the last round that published, or the initial map when none did |
| InventoryCollect.DuplicateAddressLastWins | collector/task/inventory/inventory.go:102-105 | of two hosts with the same address, the later one is kept |
| InventoryLookup.ParseInventory | collector/task/inventory/inventory_test.go:116-243 | the inventory built host by host equals the reference definition: the last exact entry per address, and the parsed networks in order |
| InventoryLookup.AddHostExtendsReference | collector/task/inventory/inventory_test.go:143-158 | adding one host to the inventory of a list gives the inventory of the extended list |
| InventoryLookup.ParseInventoryDropsUnknown | collector/task/inventory/inventory_test.go:161-174 | no entry of the parsed inventory is an unknown host |
| InventoryLookup.ParseInventoryExactKeys | collector/task/inventory/inventory_test.go:129-158 | an address is an exact key exactly when some known, non-CIDR host has it, and the key maps to a host with that address |
| InventoryLookup.ExactKeyHasHost | collector/task/inventory/inventory_test.go:143-158 | every exact key comes from a host of the list |
| InventoryLookup.ExactHostHasKey | collector/task/inventory/inventory_test.go:143-158 | every known non-CIDR host's address is an exact key |
| InventoryLookup.SkippedHostIrrelevant | collector/task/inventory/inventory_test.go:196-215 | an unknown host or an unparseable CIDR can be removed from the list without changing the inventory |
| InventoryLookup.LongestMatch | collector/task/inventory/inventory_test.go:293-298 | finds no network exactly when none contains the address; otherwise one that contains it, whose prefix is the longest, and the earliest among the longest |
| InventoryLookup.GetHost | collector/task/inventory/inventory_test.go:246-332 | an exact key wins; otherwise the longest containing network's host; not found gives the zero host |
| InventoryLookup.ZeroNetworkAlwaysMatches | collector/task/inventory/inventory_test.go:300-305 | with a /0 network in the inventory, every parseable address is found |
| InventoryLookup.GetHostFixtureSeventeen | collector/task/inventory/inventory_test.go:286-291 | in the test fixture, an address inside only the /17 network gets that network's host |
| InventoryLookup.GetHostFixtureLongestPrefix | collector/task/inventory/inventory_test.go:293-298 | in the test fixture, an address inside both networks gets the longer prefix's host |
| InventoryLookup.GetHostFixtureFallbacks | collector/task/inventory/inventory_test.go:279-315 | in the test fixture, an exact address wins, an uncovered address falls to 0.0.0.0/0, and the empty inventory finds nothing |
| InventoryLookup.ParseInventoryKeepsZeroNetwork | collector/task/inventory/inventory_test.go:217-237 | parsing the test's list keeps the 0.0.0.0/0 entry as a network |
| Network.ProtocolOf | pkg/network/network.go:48-56 | a stream socket is "tcp", a datagram socket is "udp", and every other type is "" |
| Network.FilterListeningPorts | pkg/network/network.go:86-95 | the loop yields the local ports of the LISTEN sockets, in order |
| Network.PeerConnections | pkg/network/network.go:35-70 | an enumeration error is returned with no ports or peers; otherwise the listening ports and the ESTABLISHED or TIME_WAIT tuples, in order |
| Network.AtMostOneList | pkg/network/network.go:57-66 | a socket is never both a listening port and a peer, and it is neither exactly when its status is none of the three |
| Network.PeerTupleCopiesEndpoints | pkg/network/network.go:59-65 | every peer tuple copies the endpoints of an ESTABLISHED or TIME_WAIT socket |
| Network.AllListeningKeepsEveryPort | pkg/network/network.go:86-95 | when every socket listens, one port per socket is kept, in order |
| SocketStat.ListenerIndex | collector/task/socketstat/socketstat.go:103-107 | the keys are the servers' ports, each maps to a server on that port, and the last server on a port wins |
| SocketStat.WithLoopback | collector/task/socketstat/socketstat.go:122-126 | 127.0.0.1 maps to the localhost entry, and every other address is unchanged |
| SocketStat.Resolve | collector/task/socketstat/socketstat.go:132-147 | an address resolves to its inventory domain when that is non-empty, otherwise to itself; the hostgroup is the inventory's or "" |
| SocketStat.CandidateOf | collector/task/socketstat/socketstat.go:149-190 | a peer on a listening port is a downstream; otherwise it is an upstream unless its remote resolves to localhost; the record carries the peer's protocol, the local and remote hostgroups and addresses that the inventory resolves, and the downstream takes the listener's process name when its own is empty |
| SocketStat.AdmitKeepsConsistent | collector/task/socketstat/socketstat.go:151-189 | admitting a candidate keeps the seen set equal to the keys of the recorded connections, each recorded once |
| SocketStat.AdmitTracks | collector/task/socketstat/socketstat.go:151-189 | after admitting, the seen set is the set of keys of all candidates so far |
| SocketStat.Dedup | collector/task/socketstat/socketstat.go:151-189 | the deduplicated records are consistent with, and track, the candidates |
| SocketStat.CorrelateSnoc | collector/task/socketstat/socketstat.go:121-191 | correlating one more peer is one loop step on the earlier result |
| SocketStat.DedupSnoc | collector/task/socketstat/socketstat.go:151-189 | deduplicating one more candidate admits it into the earlier result |
| SocketStat.CorrelatePeers | collector/task/socketstat/socketstat.go:116-191 | the loop over the peers computes the functional correlation's upstreams and downstreams |
| SocketStat.CorrelatePrefixStep | collector/task/socketstat/socketstat.go:121-191 | one loop step extends the correlation of a prefix to the next prefix |
| SocketStat.CorrelatePeer | collector/task/socketstat/socketstat.go:121-190 | the loop body applied to one peer is one correlation step |
| SocketStat.ProcessOf | collector/task/socketstat/socketstat.go:196-200 | a server process keeps the server's name, its port text parses back to the port, and its bind is the address, ":" and the port |
| SocketStat.ServerProcesses | collector/task/socketstat/socketstat.go:193-201 | one process per listening server, in order, carrying its name, its port as text that parses back to the port, and the bind address `address:port` |
| SocketStat.Collect | collector/task/socketstat/socketstat.go:88-213 | disabled does nothing; an enumeration or local-address error is returned and leaves the state unchanged; otherwise the snapshot holds the server processes, and the published upstreams and downstreams are those of the correlation of the peers |
| SocketStat.DedupKeepsFirstOccurrences | collector/task/socketstat/socketstat.go:153-172 | the recorded downstreams and upstreams are exactly the first occurrence of each key, in order |
| SocketStat.CollectPublishesFirstOccurrences | collector/task/socketstat/socketstat.go:146-213 | after a successful round, the published downstreams and upstreams are the first occurrence of each key among the classified peers, in order |
| SocketStat.SeenMeansNotFirst | collector/task/socketstat/socketstat.go:154 | a candidate's key has been seen before it exactly when it is not the first with that key |
| SocketStat.DirectionsNeverCollide | collector/task/socketstat/socketstat.go:151-176 | a downstream key never equals an upstream key |
| SocketStat.DownstreamsComeFromListeners | collector/task/socketstat/socketstat.go:150-172 | every downstream comes from a peer on a listening port |
| SocketStat.UpstreamsComeFromNonListeners | collector/task/socketstat/socketstat.go:174-189 | every upstream comes from a peer not on a listening port, and its remote is never localhost |
| SocketStat.ClassifiedPeerIsRecorded | collector/task/socketstat/socketstat.go:149-190 | every classified peer's key is seen and some record with that key is kept |
| SocketStat.RepeatedPeerAddsNothing | collector/task/socketstat/socketstat.go:154-178 | a peer seen earlier in the round adds nothing |
| SocketStat.SeenKeysIgnoreOrder | collector/task/socketstat/socketstat.go:116-191 | the set of seen keys depends only on which peers occur, not on their order |
| SocketStat.SeenKeyIsOfAPeer | collector/task/socketstat/socketstat.go:116-191 | every seen key is the key of some peer |
| SocketStat.PeerKeyIsSeen | collector/task/socketstat/socketstat.go:116-191 | every classified peer's key is seen |
| SocketStat.LoopbackResolvesToLocalhost | collector/task/socketstat/socketstat.go:122-126 | 127.0.0.1 resolves to localhost whatever the inventory says |
| SocketStat.LoopbackLocalIsRewritten | collector/task/socketstat/socketstat.go:128-130 | a loopback local address is treated as the default local address |
| SocketStat.RemoteLoopbackNeverUpstream | collector/task/socketstat/socketstat.go:174 | a peer whose remote is 127.0.0.1 is never an upstream |
| SocketStat.SharedPortLaterListenerWins | collector/task/socketstat/socketstat.go:104-105 | of two servers on one port, the later one is the listener |
| SocketStat.KeysAreNotInjective | collector/task/socketstat/socketstat.go:151 | two different records can share a key, because the fields are joined with "_" |
| Darkstat.LocalIdentity | collector/task/darkstat/darkstat.go:101-107 | the local hostgroup and domain come from the inventory entry of the local address when there is one, and are the address text otherwise |
| Darkstat.FindFirst | collector/task/darkstat/darkstat.go:116-124 | finds nothing exactly when no family has the name; otherwise the first family with it |
| Darkstat.DirectionOf | collector/task/darkstat/darkstat.go:146-153 | "out" is ingress, "in" is egress, and anything else is "" |
| Darkstat.MetricOf | collector/task/darkstat/darkstat.go:128-164 | a sample is dropped exactly when it is the local address or its value does not parse; otherwise the metric carries its ip, its reversed direction, its bandwidth, the inventory's labels and the local identity |
| Darkstat.Extract | collector/task/darkstat/darkstat.go:127-164 | the loop yields the metrics of the kept samples, in order |
| Darkstat.Collect | collector/task/darkstat/darkstat.go:80-173 | disabled does nothing; an empty address, a local-address or scrape error, or a missing host_bytes_total family is returned and leaves the state unchanged; otherwise the hosts are the family's metrics |
| Darkstat.SkippedSampleDropsAlone | collector/task/darkstat/darkstat.go:133-144 | a skipped sample drops out alone and the other samples' metrics are kept in order |
| Darkstat.EverySampleKept | collector/task/darkstat/darkstat.go:155-163 | when no sample is skipped, there is one metric per sample carrying that sample's ip |
| Tcptop.Search | collector/task/ebpf/tcptop.go:130-140 | a family is held at the end exactly when one was held or one with its name occurs, and it is a family of the list with that name |
| Tcptop.SearchFindsUnique | collector/task/ebpf/tcptop.go:130-140 | a send family that occurs once is the one found |
| Tcptop.SearchKeeps | collector/task/ebpf/tcptop.go:130-140 | a held send family is kept when no later family has its name |
| Tcptop.SearchStopsWhenBothHeld | collector/task/ebpf/tcptop.go:137-139 | the search stops once both are held: an earlier same-named family is replaced, and a later one is not looked at |
| Tcptop.LocalIdentity | collector/task/ebpf/tcptop.go:176-185 | the local hostgroup and domain come from `GetHost` of the local address when it is found, and are the address text otherwise |
| Tcptop.MetricOf | collector/task/ebpf/tcptop.go:187-214 | a sample is dropped exactly when its daddr does not parse, is the local address, or its value does not parse; otherwise the metric carries the direction, daddr, `GetHost`'s labels, the bandwidth and the local identity |
| Tcptop.ToHostMetrics | collector/task/ebpf/tcptop.go:167-216 | without a local address there are no metrics and an error; otherwise the kept samples' metrics, all with the given direction |
| Tcptop.Collect | collector/task/ebpf/tcptop.go:109-164 | disabled does nothing; an empty address, a scrape error or a missing family is returned and leaves the state unchanged; otherwise the hosts are the egress metrics followed by the ingress metrics |
| Tcptop.FailedDirectionContributesNothing | collector/task/ebpf/tcptop.go:148-158 | a direction whose conversion fails contributes nothing, and the other direction is still published |
| Query.TransformJSONNumberToInteger | federator/influxdb/query/query.go:144-159 | fails (with -1) exactly when the cell is not a number or its text before the first "." is not a 64-bit integer; otherwise it returns that integer |
| Query.TransformIntegerRoundTrip | federator/influxdb/query/query.go:150-157 | a formatted 64-bit integer converts back to itself |
| Query.TransformTruncatesFraction | federator/influxdb/query/query.go:150-152 | the decimals after the point are thrown away |
| Query.TransformRejectsBareFraction | federator/influxdb/query/query.go:151-155 | a number written with nothing before its point fails with -1 |
| Query.TrafficOfRow | federator/influxdb/query/query.go:109-136 | a row yields a record exactly when its min, max and mean convert; the record carries the series name as direction, the series tags, and the three converted integers as its minimum, maximum and average |
| Query.SeriesTrafficDirection | federator/influxdb/query/query.go:127 | every record of a series has the series name as its direction |
| Query.TrafficOfSeries | federator/influxdb/query/query.go:108-140 | the records are the concatenation, series by series, of each series' records; every record's direction is the name of one of the series |
| Query.TrafficOfSeriesAppend | federator/influxdb/query/query.go:108-140 | reading two lists of series in turn gives the records of the first followed by those of the second |
| Query.SeriesOf | federator/influxdb/query/query.go:95-104 | a response gives its first result's series exactly when it is answered and that list is non-empty; an empty answer is "received empty data" |
| Query.QueryFederatorTrafficData | federator/influxdb/query/query.go:94-142 | succeeds exactly when the response has series, and then yields the series' records |
| Query.QueryFederatorTraffic | federator/influxdb/query/query.go:57-91 | succeeds exactly when both the ingress and the egress queries succeed, and yields the ingress records followed by the egress ones |
| Query.DependencyOf | federator/influxdb/query/query.go:242-263 | the direction is the series name; the remote side comes from the upstream_* tags exactly for an "upstream" series; the protocol, process name, local hostgroup, local address and both ports come from their tags |
| Query.DependencyQueriesDropLocalAddress | federator/influxdb/query/query.go:186-258 | neither dependency query groups by `address`, so every dependency read back has an empty local address |
| Query.NoDownstreamSeriesFailsLast7d | federator/influxdb/query/query.go:184-223 | with no downstream series the whole query fails with "received empty data", discarding the upstream records |
| Query.QueryFederatorDependencyData | federator/influxdb/query/query.go:228-267 | succeeds exactly when the response has series, and then yields one dependency per series |
| Query.QueryFederatorDependencyLast7d | federator/influxdb/query/query.go:184-225 | succeeds exactly when both queries succeed, and yields the upstream dependencies followed by the downstream ones |
| Query.UnconvertibleRowDropsAlone | federator/influxdb/query/query.go:109-124 | a row whose numbers do not convert drops out alone |
| Prometheus.GetLabelValue | prometheus/prometheus.go:91-97 | succeeds exactly when the label is present, with its value; otherwise "" and an error |
| Prometheus.GetIPAddressFromLabelValue | prometheus/prometheus.go:99-109 | succeeds exactly when the label is present, with the value's prefix before the first ":"; otherwise "" and the lookup's error |
| Prometheus.IPAddressOfHostPort | prometheus/prometheus.go:104-108 | "address:port" and a bare address both give back the address |
| Prometheus.TrafficOf | prometheus/planetexporter.go:58-78 | a series yields a record exactly when it has local_hostgroup; the record carries the labels and the peak of the samples |
| Prometheus.UpstreamOf | prometheus/planetexporter.go:117-136 | a series yields an upstream exactly when it has local_hostgroup; the port is the upstream port, and the protocol is left empty |
| Prometheus.DownstreamOf | prometheus/planetexporter.go:175-194 | a series yields a downstream exactly when it has local_hostgroup; the port is the local port, and the protocol is left empty |
| Prometheus.QueryPlanetExporterTrafficBandwidth | prometheus/planetexporter.go:42-82 | a query error is returned as is; otherwise every record comes from a series of the answer, and there are no more records than series |
| Prometheus.QueryPlanetExporterUpstreamServices | prometheus/planetexporter.go:96-140 | a query error is returned as is; otherwise every upstream comes from a series of the answer and has an empty protocol |
| Prometheus.QueryPlanetExporterDownstreamServices | prometheus/planetexporter.go:154-198 | a query error is returned as is; otherwise every downstream comes from a series of the answer and has an empty protocol |
| Prometheus.UnlabelledSeriesSkipped | prometheus/planetexporter.go:59-63 | a series without local_hostgroup drops out of all three queries alone |
| Prometheus.LabelledSeriesKeptInOrder | prometheus/planetexporter.go:116-139 | when every series has local_hostgroup, there is one upstream and one downstream dependency per series, in order |
| Prometheus.LabelledTrafficKeptInOrder | prometheus/planetexporter.go:42-82 | when every series has local_hostgroup, there is one traffic record per series, in order, each the reading of its series |
| Prometheus.DependencyLabelsRoundTrip | prometheus/planetexporter.go:123-136 | the labels of a dependency metric read back as the dependency, with its protocol dropped |
| Federator.NormalizeDirection | federator/bigquery/bigquery.go:122-134 | "ingress" and "egress" are kept, and anything else becomes "unknown" |
| FederatorInfluxDB.TrafficPoint | federator/influxdb/influxdb.go:101-125 | the point is written to the measurement of the normalised direction, with the bandwidth as its one field |
| FederatorInfluxDB.UpstreamPoint | federator/influxdb/influxdb.go:128-142 | the point is written to "upstream", with a dependency count of 1 |
| FederatorInfluxDB.DownstreamPointAsWritten | federator/influxdb/influxdb.go:145-159 | as written, the downstream point goes to "upstream" and has no downstream_* tags |
| FederatorInfluxDB.DownstreamPoint | federator/influxdb/query/query.go:204-213 | the downstream point the reader expects goes to "downstream" and has no upstream_* tags |
| FederatorInfluxDB.TrafficPointRoundTrip | federator/influxdb/query/query.go:70-135 | a traffic point, read by the traffic query, gives its normalised direction and its hosts, all four tags being grouped keys |
| FederatorInfluxDB.UpstreamPointRoundTrip | federator/influxdb/query/query.go:186-262 | an upstream point, read by the upstream query, gives the upstream dependency with an empty local address, because that query does not group by `address`, and no local port |
| FederatorInfluxDB.DownstreamPointRoundTrip | federator/influxdb/query/query.go:203-262 | a downstream point as the reader expects it, read by the downstream query, gives the downstream dependency with an empty local address and no upstream port |
| FederatorInfluxDB.DependencyLocalAddressLost | federator/influxdb/query/query.go:186-258 | as written, a stored upstream dependency with local address "10.0.0.1" reads back with "" |
| FederatorInfluxDB.DependencyPointsRoundTripIntended | federator/influxdb/query/query.go:186-262 | with `address` among the grouped keys, both dependency points read back as their full records |
| FederatorInfluxDB.DownstreamPointAsWrittenReadsAsUpstream | federator/influxdb/influxdb.go:79-80 | as written, a downstream dependency reads back as an upstream one |
| FederatorInfluxDB.AddTrafficBandwidthData | federator/influxdb/influxdb.go:101-112 | never fails; the point goes to the normalised direction and keeps the remote domain |
| FederatorInfluxDB.AddUpstreamService | federator/influxdb/influxdb.go:128-142 | never fails; the point reads back as an upstream dependency |
| FederatorInfluxDB.AddDownstreamService | federator/influxdb/influxdb.go:145-159 | never fails; the point is written, as the file does, to the upstream measurement, so the reader sees an upstream dependency whose remote hostgroup and address are the downstream ones |
| FederatorBigQuery.TrafficRowAsWritten | federator/bigquery/bigquery.go:136-146 | as written, neither address column is valid |
| FederatorBigQuery.UpstreamRowAsWritten | federator/bigquery/bigquery.go:250-285 | as written, no nullable column is valid, and a named process puts the local address into the process-name column |
| FederatorBigQuery.DownstreamRowAsWritten | federator/bigquery/bigquery.go:303-338 | as written, no nullable column is valid, and a named process puts the local address into the process-name column |
| FederatorBigQuery.TrafficRowOf | federator/bigquery/bigquery.go:136-146 | the corrected traffic row has canonical nullable columns and the normalised direction |
| FederatorBigQuery.UpstreamRow | federator/bigquery/bigquery.go:226-285 | the corrected upstream row has a NULL local port; every other nullable column is canonical and valid exactly when its field is non-empty |
| FederatorBigQuery.DownstreamRow | federator/bigquery/bigquery.go:226-338 | the corrected downstream row has a NULL remote port; every other nullable column is canonical and valid exactly when its field is non-empty |
| FederatorBigQuery.RowsRoundTrip | federator/bigquery/bigquery.go:226-247 | the corrected rows read back as their records, and a nullable column is valid exactly when its value is non-empty |
| FederatorBigQuery.TrafficRowAsWrittenLosesAddresses | federator/bigquery/bigquery.go:141-143 | as written, both addresses of a traffic row read back as "" |
| FederatorBigQuery.UpstreamRowAsWrittenLosesColumns | federator/bigquery/bigquery.go:251-266 | as written, an upstream row's process name, addresses and port read back as "", and the process-name column holds the address |
| FederatorBigQuery.DownstreamRowAsWrittenLosesColumns | federator/bigquery/bigquery.go:304-319 | as written, a downstream row's process name, addresses and port read back as "", and the process-name column holds the address |
| FederatorBigQuery.InsertFailure | federator/bigquery/bigquery.go:289-296 | a multi-error with rows reports its first row; any other error is returned as is |
| FederatorBigQuery.Insert | federator/bigquery/bigquery.go:287-299 | the row is put, and an error is returned exactly when `Put` fails |
| FederatorBigQuery.AddTrafficBandwidthData | federator/bigquery/bigquery.go:122-160 | the row is built as the file builds it: the direction normalised, the date, both addresses stored unflagged so they read back empty; the call fails exactly when `Put` fails, with the formatted `Put` error |
| FederatorBigQuery.AddUpstreamService | federator/bigquery/bigquery.go:250-300 | the row is built as the file builds it: an "upstream" row with a NULL local port, a named process stored as the unflagged local address, and only the hostgroups and protocol reading back; the call fails exactly when `Put` fails |
| FederatorBigQuery.AddDownstreamService | federator/bigquery/bigquery.go:303-353 | the row is built as the file builds it: a "downstream" row with a NULL remote port, a named process stored as the unflagged local address, and only the hostgroups and protocol reading back; the call fails exactly when `Put` fails |
| NullStrings.ToNullString | cmd/planet-federator-influxdb-to-bq/internal/internal.go:163-167 | the column is valid exactly for a non-empty string, and then holds it; otherwise it is NULL |
| NullStrings.NullStringRoundTrip | cmd/planet-federator-influxdb-to-bq/internal/internal.go:163-172 | a string survives the column, and a canonical column survives the string |
| BigQueryInsert.Chunks | cmd/planet-federator-influxdb-to-bq/internal/bigquery.go:131-146 | the chunks concatenate to the input, none is empty or larger than the size, and all but the last are full |
| BigQueryInsert.ChunkTableData | cmd/planet-federator-influxdb-to-bq/internal/bigquery.go:131-146 | the chunking loop computes the chunks |
| BigQueryInsert.Report | cmd/planet-federator-influxdb-to-bq/internal/bigquery.go:157-165 | a multi-error with rows reports its first row, one without rows is returned as is, and any other error is wrapped |
| BigQueryInsert.Insert | cmd/planet-federator-influxdb-to-bq/internal/bigquery.go:149-171 | the chunks are put in order until one fails; the insert fails exactly when some chunk fails, with the report of the first failure |
| BigQueryJobs.TrafficRow | cmd/planet-federator-influxdb-to-bq/internal/internal.go:163-183 | the traffic row carries the job date and canonical nullable columns |
| BigQueryJobs.DependencyRow | cmd/planet-federator-influxdb-to-bq/internal/internal.go:210-254 | the dependency row carries the job date and canonical nullable columns |
| BigQueryJobs.RowsRoundTrip | cmd/planet-federator-influxdb-to-bq/internal/internal.go:161-254 | both kinds of row read back as the record they came from |
| BigQueryJobs.TrafficBandwidthJob | cmd/planet-federator-influxdb-to-bq/internal/internal.go:149-192 | one row per queried record, each reading back as it; a failed query inserts nothing |
| BigQueryJobs.DependencyDataJob | cmd/planet-federator-influxdb-to-bq/internal/internal.go:196-263 | one row per queried dependency, each reading back as it; a failed query inserts nothing |

## Left out

- I/O is not modelled and appears as parameters: HTTP requests, Prometheus and darkstat scrapes,
  the gopsutil socket enumeration, InfluxDB and BigQuery clients, and the UDP dial in
  `network.DefaultLocalAddr`.
- The standard library's parsers are parameters, not models: `net.ParseIP`, `net.ParseCIDR` and
  `strconv.ParseFloat`. The decoding machinery of `encoding/json` is replaced by decode outcomes
  per line or per array. Only IPv4 networks are modelled.
- Concurrency is not modelled: mutexes, `sync.Once` and the singletons. The task state is a value
  that each collection round returns.
- socketstat.go:122 writes the loopback entry into the inventory's shared map. The model applies
  it to a local copy, so the shared map is not modified.
- Floating point is not modelled. Bandwidth is a type parameter, and the peak of a series
  (`getMaxValueFromSamplePairs`, prometheus.go:111-118) is a function parameter.
- Time is not modelled: clocks, time stamps, `civil.DateTime` (an opaque date parameter), the
  cron scheduler and context time-outs.
- The command-line programs, configuration, the HTTP server, and the collectors that turn the
  published records into Prometheus gauges are not part of this model. Neither is the federator
  service that forwards each record to every backend and calls `Flush`.
- PromQL text and its regular-expression filters are not modelled. The readers receive the
  series that a query returns.
- FederatorBigQuery.AddTrafficBandwidthData, FederatorBigQuery.AddUpstreamService,
  FederatorBigQuery.AddDownstreamService: these insert the rows as bigquery.go builds them, so
  they do not promise that a row reads back as its record. `RowsRoundTrip` proves that promise
  for the corrected builders (see Findings).
- FederatorInfluxDB.AddDownstreamService: it writes the point as influxdb.go builds it, so it does
  not promise that the point reads back as a downstream dependency. `DownstreamPointRoundTrip`
  proves that for the corrected point, except for the local address (see Findings).
- FederatorInfluxDB.UpstreamPointRoundTrip, FederatorInfluxDB.DownstreamPointRoundTrip: the
  dependency queries do not group by `address`, so these do not promise that the local address
  reads back. `DependencyPointsRoundTripIntended` proves the full round trip with that key added
  (see Findings).
- Darkstat.Collect, Tcptop.Collect: the `m.(prom2json.Metric)` assertion (darkstat.go:129,
  tcptop.go:188) panics when a scraped family holds summaries or histograms. A sample here is
  always a plain metric, so that panic is not modelled.
- Query.TrafficOfRow: a row is modelled with its four columns. The source panics on a row that
  has fewer of them, and that panic is not modelled.
- Query.QueryFederatorTraffic, Darkstat.Collect, Tcptop.Collect: the texts of errors that
  wrap a lower-level error are not modelled; only which error is returned.
- The file that implements the inventory's CIDR-aware `GetHost` and `parseInventory` is not part of
  this model. `InventoryLookup` models the behaviour that inventory_test.go pins down.
- The source files come from more than one revision. socketstat.go calls `network.ServerConnections`,
  which network.go does not define. The socketstat model takes the servers (port, address,
  process name) and peers as given.
- InventoryHosts.ParseHosts: the ndjson stream is a finite sequence of per-object decode outcomes,
  each consuming its object. A syntax error is not modelled: after one, `decoder.More()` can keep
  reporting more input while `Decode` returns its saved error without consuming any, so the loop
  at host.go:50-56 may never terminate. The model always terminates.
- SocketStat.Get, InventoryCollect.Get: plain accessors of the published state, with no
  contract of their own. `InventoryCollect.GetReturnsLastPublished` states what `Get` returns.
- SocketStat.AdmitKeepsFirstOccurrences, Collections.IndexLastExtend and the other small
  helper lemmas are proof steps and have no row.

## Findings

| source | as written | input that shows it | evidently intended | confidence | as-written member | corrected member |
|---|---|---|---|---|---|---|
| federator/bigquery/bigquery.go:141-143 | the two nullable address columns are built as `NullString{StringVal: ...}` without setting `Valid`, so BigQuery stores NULL | `TrafficBandwidth("web", "10.0.0.1", "db", "db.service.consul", bw, "ingress")`: both addresses read back as "" | a non-empty address is stored as a valid column, as the command's internal.go:163-172 does | high, not executed | FederatorBigQuery.TrafficRowAsWrittenLosesAddresses | FederatorBigQuery.RowsRoundTrip |
| federator/bigquery/bigquery.go:251-266, 304-319 | no nullable dependency column sets `Valid`, so the process name, address and port columns are all NULL | `UpstreamService("web", "10.0.0.1", "nginx", "5432", "db", "10.0.0.2", "tcp")` reads back as `UpstreamService("web", "", "", "", "db", "", "tcp")` | each non-empty value is stored as a valid column | high, not executed | FederatorBigQuery.UpstreamRowAsWrittenLosesColumns | FederatorBigQuery.RowsRoundTrip |
| federator/bigquery/bigquery.go:252-254, 305-307 | the process-name column is given `LocalAddress` instead of `LocalProcessName` | the upstream above: the process-name column holds "10.0.0.1" instead of "nginx" | the process-name column holds the process name | high, not executed | FederatorBigQuery.UpstreamRowAsWrittenLosesColumns | FederatorBigQuery.UpstreamRow |
| federator/influxdb/influxdb.go:79-80, 146 | downstream points are written to the "upstream" measurement, and the downstream tag keys are "upstream_service" and "upstream_address" | any `DownstreamService`: query.go:243-251 reads it back with direction "upstream", and the downstream hostgroup appears as the upstream hostgroup | downstream points go to "downstream" with downstream_service and downstream_address tags, which is what query.go:204-213 and 243-251 read | high, not executed | FederatorInfluxDB.DownstreamPointAsWrittenReadsAsUpstream | FederatorInfluxDB.DownstreamPointRoundTrip |
| federator/influxdb/query/query.go:195, 212, 258 | the reader copies the `address` tag, but neither dependency query groups by it, so the series carry no such tag | `UpstreamService("web", "10.0.0.1", "nginx", "5432", "db", "10.0.0.2", "tcp")` reads back with local address "" | both queries group by `address` as well, as the traffic query at query.go:77 does | high, not executed | FederatorInfluxDB.DependencyLocalAddressLost | FederatorInfluxDB.DependencyPointsRoundTripIntended |
