/** cmd/planet-federator-influxdb-to-bq/internal/internal.go: the two scheduled jobs that read the
    federator's data back from InfluxDB and store it as BigQuery table rows, with the row types of
    the same command's bigquery.go. The job start time is a parameter `date` of an opaque type;
    the query result and the inserter are parameters. */
module BigQueryJobs {
  import opened Wrappers
  import opened NullStrings
  import Query
  import BigQueryInsert

  datatype TrafficTableData<D> = TrafficTableData(
    inventoryDate: D, trafficDirection: string, localHostgroup: string,
    localHostgroupAddress: NullString, remoteHostgroup: string, remoteHostgroupAddress: NullString,
    bitsMin1h: int, bitsMax1h: int, bitsAvg1h: int)

  datatype DependencyData<D> = DependencyData(
    inventoryDate: D, dependencyDirection: string, protocol: string,
    localHostgroupProcessName: NullString, localHostgroup: string, localHostgroupAddress: NullString,
    localHostgroupAddressPort: NullString, remoteHostgroup: string, remoteHostgroupAddress: NullString,
    remoteHostgroupAddressPort: NullString)

  /** The row of one traffic record. */
  function TrafficRow<D>(date: D, t: Query.TrafficBandwidth): (row: TrafficTableData<D>)
    ensures row.inventoryDate == date
    ensures Canonical(row.localHostgroupAddress) && Canonical(row.remoteHostgroupAddress)
  {
    TrafficTableData(date, t.trafficDirection, t.localHostgroup, ToNullString(t.localHostgroupAddress),
                     t.remoteHostgroup, ToNullString(t.remoteHostgroupAddress), t.bitsMin1h, t.bitsMax1h, t.bitsAvg1h)
  }

  /** Reading a traffic row back as a record. */
  function TrafficOfRow<D>(row: TrafficTableData<D>): Query.TrafficBandwidth {
    Query.TrafficBandwidth(row.trafficDirection, row.localHostgroup, FromNullString(row.localHostgroupAddress),
                           row.remoteHostgroup, FromNullString(row.remoteHostgroupAddress),
                           row.bitsMin1h, row.bitsMax1h, row.bitsAvg1h)
  }

  /** The row of one dependency record. */
  function DependencyRow<D>(date: D, d: Query.Dependency): (row: DependencyData<D>)
    ensures row.inventoryDate == date
    ensures Canonical(row.localHostgroupProcessName) && Canonical(row.localHostgroupAddress)
    ensures Canonical(row.localHostgroupAddressPort) && Canonical(row.remoteHostgroupAddress)
    ensures Canonical(row.remoteHostgroupAddressPort)
  {
    DependencyData(date, d.direction, d.protocol, ToNullString(d.localHostgroupProcessName), d.localHostgroup,
                   ToNullString(d.localHostgroupAddress), ToNullString(d.localHostgroupAddressPort),
                   d.remoteHostgroup, ToNullString(d.remoteHostgroupAddress), ToNullString(d.remoteHostgroupAddressPort))
  }

  /** Reading a dependency row back as a record. */
  function DependencyOfRow<D>(row: DependencyData<D>): Query.Dependency {
    Query.Dependency(row.dependencyDirection, row.protocol, FromNullString(row.localHostgroupProcessName),
                     row.localHostgroup, FromNullString(row.localHostgroupAddress),
                     FromNullString(row.localHostgroupAddressPort), row.remoteHostgroup,
                     FromNullString(row.remoteHostgroupAddress), FromNullString(row.remoteHostgroupAddressPort))
  }

  /** Storing and reading back loses nothing: every field of a record survives its row. */
  lemma RowsRoundTrip<D>(date: D, t: Query.TrafficBandwidth, d: Query.Dependency)
    ensures TrafficOfRow(TrafficRow(date, t)) == t
    ensures DependencyOfRow(DependencyRow(date, d)) == d
  {
    NullStringRoundTrip(t.localHostgroupAddress, Null);
    NullStringRoundTrip(t.remoteHostgroupAddress, Null);
    NullStringRoundTrip(d.localHostgroupProcessName, Null);
    NullStringRoundTrip(d.localHostgroupAddress, Null);
    NullStringRoundTrip(d.localHostgroupAddressPort, Null);
    NullStringRoundTrip(d.remoteHostgroupAddress, Null);
    NullStringRoundTrip(d.remoteHostgroupAddressPort, Null);
  }

  /** What the query handed over: its records, or none when it failed (the error is only logged). */
  function Received<R>(queried: Result<seq<R>, string>): seq<R> {
    if queried.Success? then queried.value else []
  }

  /** `TrafficBandwidthJobFunc`: one row per record in order, all stamped with the job start, then
      the insert; returns the rows, the number of `Put` calls and the insert error. */
  method TrafficBandwidthJob<D>(date: D, queried: Result<seq<Query.TrafficBandwidth>, string>,
                                put: (nat, seq<TrafficTableData<D>>) -> Option<BigQueryInsert.PutError>)
    returns (rows: seq<TrafficTableData<D>>, calls: nat, err: Option<BigQueryInsert.InsertError>)
    ensures |rows| == |Received(queried)|
    ensures forall i :: 0 <= i < |rows| ==> rows[i] == TrafficRow(date, Received(queried)[i])
    ensures forall i :: 0 <= i < |rows| ==> TrafficOfRow(rows[i]) == Received(queried)[i]
    ensures queried.Failure? ==> rows == [] && calls == 0 && err.None?
  {
    var peers := Received(queried);
    rows := [];
    for i := 0 to |peers|
      invariant |rows| == i
      invariant forall k :: 0 <= k < i ==> rows[k] == TrafficRow(date, peers[k])
      invariant forall k :: 0 <= k < i ==> TrafficOfRow(rows[k]) == peers[k]
    {
      var p := peers[i];
      var localAddress := Null;
      if p.localHostgroupAddress != "" {
        localAddress := NullString(p.localHostgroupAddress, true);
      }
      var remoteAddress := Null;
      if p.remoteHostgroupAddress != "" {
        remoteAddress := NullString(p.remoteHostgroupAddress, true);
      }
      RowsRoundTrip(date, p, Query.Dependency("", "", "", "", "", "", "", "", ""));
      rows := rows + [TrafficTableData(date, p.trafficDirection, p.localHostgroup, localAddress,
                                       p.remoteHostgroup, remoteAddress, p.bitsMin1h, p.bitsMax1h, p.bitsAvg1h)];
    }
    calls, err := BigQueryInsert.Insert(rows, put);
  }

  /** `DependencyDataJobFunc`: one row per record in order, all stamped with the job start, then
      the insert. */
  method DependencyDataJob<D>(date: D, queried: Result<seq<Query.Dependency>, string>,
                              put: (nat, seq<DependencyData<D>>) -> Option<BigQueryInsert.PutError>)
    returns (rows: seq<DependencyData<D>>, calls: nat, err: Option<BigQueryInsert.InsertError>)
    ensures |rows| == |Received(queried)|
    ensures forall i :: 0 <= i < |rows| ==> rows[i] == DependencyRow(date, Received(queried)[i])
    ensures forall i :: 0 <= i < |rows| ==> DependencyOfRow(rows[i]) == Received(queried)[i]
    ensures queried.Failure? ==> rows == [] && calls == 0 && err.None?
  {
    var deps := Received(queried);
    rows := [];
    for i := 0 to |deps|
      invariant |rows| == i
      invariant forall k :: 0 <= k < i ==> rows[k] == DependencyRow(date, deps[k])
      invariant forall k :: 0 <= k < i ==> DependencyOfRow(rows[k]) == deps[k]
    {
      var d := deps[i];
      RowsRoundTrip(date, Query.TrafficBandwidth("", "", "", "", "", 0, 0, 0), d);
      rows := rows + [DependencyRow(date, d)];
    }
    calls, err := BigQueryInsert.Insert(rows, put);
  }
}
