/** federator/bigquery/bigquery.go: the BigQuery backend of the planet-federator, which turns
    traffic and dependency records into rows of the traffic and dependency tables. The row
    builders are modelled twice: as the file writes them, where no nullable column is ever marked
    valid and the process-name column is filled from the local address, and as the table schema
    describes them. The backend operations insert the rows as written; the second form, with its
    round trip, is what the schema intends. The inserter is a parameter: the outcome of its `Put`. */
module FederatorBigQuery {
  import opened Wrappers
  import opened NullStrings
  import opened Federator
  import BigQueryInsert

  const UpstreamDirection := "upstream"
  const DownstreamDirection := "downstream"

  datatype TrafficRow<D, B> = TrafficRow(
    inventoryDate: D, trafficDirection: string, localHostgroup: string, localHostgroupAddress: NullString,
    remoteHostgroup: string, remoteHostgroupAddress: NullString, trafficBandwidthBits: B)

  datatype DependencyRow<D> = DependencyRow(
    inventoryDate: D, dependencyDirection: string, protocol: string, localHostgroupProcessName: NullString,
    localHostgroup: string, localHostgroupAddress: NullString, localHostgroupAddressPort: NullString,
    remoteHostgroup: string, remoteHostgroupAddress: NullString, remoteHostgroupAddressPort: NullString)

  /** `bigquery.NullString{StringVal: s}`: the string is stored but `Valid` keeps its zero value. */
  function Unflagged(s: string): NullString {
    NullString(s, false)
  }

  /** A column as the file fills it in the dependency rows: left at the zero value for the empty
      string, otherwise given `s` as its string without being marked valid. */
  function UnflaggedUnlessEmpty(test: string, s: string): NullString {
    if test != "" then Unflagged(s) else Null
  }

  // The rows as written.

  /** The traffic row as `insertTraffic` builds it: both address columns are unflagged. */
  function TrafficRowAsWritten<D, B>(date: D, t: TrafficBandwidth<B>): (row: TrafficRow<D, B>)
    ensures !row.localHostgroupAddress.valid && !row.remoteHostgroupAddress.valid
    ensures row.trafficDirection == NormalizeDirection(t.direction)
  {
    TrafficRow(date, NormalizeDirection(t.direction), t.localHostgroup, Unflagged(t.localAddress),
               t.remoteHostgroup, Unflagged(t.remoteDomain), t.bitsPerSecond)
  }

  /** The upstream row as `AddUpstreamService` builds it: no column is valid, and a non-empty
      process name puts the local address into the process-name column. */
  function UpstreamRowAsWritten<D>(date: D, u: UpstreamService): (row: DependencyRow<D>)
    ensures !row.localHostgroupProcessName.valid && !row.localHostgroupAddress.valid
    ensures !row.remoteHostgroupAddress.valid && !row.remoteHostgroupAddressPort.valid
    ensures row.localHostgroupAddressPort == Null
    ensures u.localProcessName != "" ==> row.localHostgroupProcessName.stringVal == u.localAddress
    ensures row.dependencyDirection == UpstreamDirection
  {
    DependencyRow(date, UpstreamDirection, u.protocol, UnflaggedUnlessEmpty(u.localProcessName, u.localAddress),
                  u.localHostgroup, UnflaggedUnlessEmpty(u.localAddress, u.localAddress), Null,
                  u.upstreamHostgroup, UnflaggedUnlessEmpty(u.upstreamAddress, u.upstreamAddress),
                  UnflaggedUnlessEmpty(u.upstreamPort, u.upstreamPort))
  }

  /** The downstream row as `AddDownstreamService` builds it, with the same two defects. */
  function DownstreamRowAsWritten<D>(date: D, d: DownstreamService): (row: DependencyRow<D>)
    ensures !row.localHostgroupProcessName.valid && !row.localHostgroupAddress.valid
    ensures !row.remoteHostgroupAddress.valid && !row.localHostgroupAddressPort.valid
    ensures row.remoteHostgroupAddressPort == Null
    ensures d.localProcessName != "" ==> row.localHostgroupProcessName.stringVal == d.localAddress
    ensures row.dependencyDirection == DownstreamDirection
  {
    DependencyRow(date, DownstreamDirection, d.protocol, UnflaggedUnlessEmpty(d.localProcessName, d.localAddress),
                  d.localHostgroup, UnflaggedUnlessEmpty(d.localAddress, d.localAddress),
                  UnflaggedUnlessEmpty(d.localPort, d.localPort), d.downstreamHostgroup,
                  UnflaggedUnlessEmpty(d.downstreamAddress, d.downstreamAddress), Null)
  }

  // The rows as the table schema describes them.

  function TrafficRowOf<D, B>(date: D, t: TrafficBandwidth<B>): (row: TrafficRow<D, B>)
    ensures Canonical(row.localHostgroupAddress) && Canonical(row.remoteHostgroupAddress)
    ensures row.trafficDirection == NormalizeDirection(t.direction)
  {
    NullStringRoundTrip(t.localAddress, Null);
    NullStringRoundTrip(t.remoteDomain, Null);
    TrafficRow(date, NormalizeDirection(t.direction), t.localHostgroup, ToNullString(t.localAddress),
               t.remoteHostgroup, ToNullString(t.remoteDomain), t.bitsPerSecond)
  }

  /** An upstream dependency has no local port: that column is always NULL. Every other
      nullable column is canonical, and valid exactly when its field is non-empty. */
  function UpstreamRow<D>(date: D, u: UpstreamService): (row: DependencyRow<D>)
    ensures row.dependencyDirection == UpstreamDirection
    ensures row.localHostgroupAddressPort == Null
    ensures && Canonical(row.localHostgroupProcessName) && Canonical(row.localHostgroupAddress)
            && Canonical(row.remoteHostgroupAddress) && Canonical(row.remoteHostgroupAddressPort)
    ensures && (row.localHostgroupProcessName.valid <==> u.localProcessName != "")
            && (row.localHostgroupAddress.valid <==> u.localAddress != "")
            && (row.remoteHostgroupAddress.valid <==> u.upstreamAddress != "")
            && (row.remoteHostgroupAddressPort.valid <==> u.upstreamPort != "")
  {
    DependencyRow(date, UpstreamDirection, u.protocol, ToNullString(u.localProcessName),
                  u.localHostgroup, ToNullString(u.localAddress), Null,
                  u.upstreamHostgroup, ToNullString(u.upstreamAddress), ToNullString(u.upstreamPort))
  }

  /** A downstream dependency has no remote port: that column is always NULL. Every other
      nullable column is canonical, and valid exactly when its field is non-empty. */
  function DownstreamRow<D>(date: D, d: DownstreamService): (row: DependencyRow<D>)
    ensures row.dependencyDirection == DownstreamDirection
    ensures row.remoteHostgroupAddressPort == Null
    ensures && Canonical(row.localHostgroupProcessName) && Canonical(row.localHostgroupAddress)
            && Canonical(row.localHostgroupAddressPort) && Canonical(row.remoteHostgroupAddress)
    ensures && (row.localHostgroupProcessName.valid <==> d.localProcessName != "")
            && (row.localHostgroupAddress.valid <==> d.localAddress != "")
            && (row.localHostgroupAddressPort.valid <==> d.localPort != "")
            && (row.remoteHostgroupAddress.valid <==> d.downstreamAddress != "")
  {
    DependencyRow(date, DownstreamDirection, d.protocol, ToNullString(d.localProcessName),
                  d.localHostgroup, ToNullString(d.localAddress), ToNullString(d.localPort),
                  d.downstreamHostgroup, ToNullString(d.downstreamAddress), Null)
  }

  // Reading rows back, NULL as the empty string.

  function TrafficOfRow<D, B>(row: TrafficRow<D, B>): TrafficBandwidth<B> {
    TrafficBandwidth(row.localHostgroup, FromNullString(row.localHostgroupAddress), row.remoteHostgroup,
                     FromNullString(row.remoteHostgroupAddress), row.trafficBandwidthBits, row.trafficDirection)
  }

  function UpstreamOfRow<D>(row: DependencyRow<D>): UpstreamService {
    UpstreamService(row.localHostgroup, FromNullString(row.localHostgroupAddress),
                    FromNullString(row.localHostgroupProcessName), FromNullString(row.remoteHostgroupAddressPort),
                    row.remoteHostgroup, FromNullString(row.remoteHostgroupAddress), row.protocol)
  }

  function DownstreamOfRow<D>(row: DependencyRow<D>): DownstreamService {
    DownstreamService(row.localHostgroup, FromNullString(row.localHostgroupAddress),
                      FromNullString(row.localHostgroupProcessName), FromNullString(row.localHostgroupAddressPort),
                      row.remoteHostgroup, FromNullString(row.remoteHostgroupAddress), row.protocol)
  }

  /** Rows as the schema describes them give back the record they came from, the traffic
      direction normalised, and every nullable column is NULL exactly for the empty string. */
  lemma RowsRoundTrip<D, B>(date: D, t: TrafficBandwidth<B>, u: UpstreamService, d: DownstreamService)
    ensures TrafficOfRow(TrafficRowOf(date, t)) == t.(direction := NormalizeDirection(t.direction))
    ensures UpstreamOfRow(UpstreamRow(date, u)) == u
    ensures DownstreamOfRow(DownstreamRow(date, d)) == d
    ensures UpstreamRow(date, u).localHostgroupProcessName.valid <==> u.localProcessName != ""
    ensures DownstreamRow(date, d).localHostgroupAddressPort.valid <==> d.localPort != ""
  {
    NullStringRoundTrip(t.localAddress, Null);
    NullStringRoundTrip(t.remoteDomain, Null);
    NullStringRoundTrip(u.localProcessName, Null);
    NullStringRoundTrip(u.localAddress, Null);
    NullStringRoundTrip(u.upstreamAddress, Null);
    NullStringRoundTrip(u.upstreamPort, Null);
    NullStringRoundTrip(d.localProcessName, Null);
    NullStringRoundTrip(d.localAddress, Null);
    NullStringRoundTrip(d.localPort, Null);
    NullStringRoundTrip(d.downstreamAddress, Null);
  }

  /** As written, every address written is read back as the empty string. */
  lemma TrafficRowAsWrittenLosesAddresses<D, B>(date: D, bits: B)
    ensures var t := TrafficBandwidth("web", "10.0.0.1", "db", "db.service.consul", bits, Ingress);
            TrafficOfRow(TrafficRowAsWritten(date, t)) == t.(localAddress := "", remoteDomain := "")
  {
  }

  /** As written, a named upstream process is stored as the local address, unflagged, so the
      process name, the addresses and the port are all lost. */
  lemma UpstreamRowAsWrittenLosesColumns<D>(date: D)
    ensures var u := UpstreamService("web", "10.0.0.1", "nginx", "5432", "db", "10.0.0.2", "tcp");
            && UpstreamRowAsWritten(date, u).localHostgroupProcessName.stringVal == "10.0.0.1"
            && UpstreamOfRow(UpstreamRowAsWritten(date, u))
               == UpstreamService("web", "", "", "", "db", "", "tcp")
  {
  }

  /** The same for a downstream row. */
  lemma DownstreamRowAsWrittenLosesColumns<D>(date: D)
    ensures var d := DownstreamService("db", "10.0.0.2", "postgres", "5432", "web", "10.0.0.1", "tcp");
            && DownstreamRowAsWritten(date, d).localHostgroupProcessName.stringVal == "10.0.0.2"
            && DownstreamOfRow(DownstreamRowAsWritten(date, d))
               == DownstreamService("db", "", "", "", "web", "", "tcp")
  {
  }

  /** The error an insert returns: the first row of a multi-error, formatted; otherwise the
      `Put` error itself, a multi-error without rows included. */
  function InsertFailure(e: BigQueryInsert.PutError): (r: BigQueryInsert.InsertError)
    ensures r.SampleRow? <==> e.PutMultiError? && |e.rows| > 0
    ensures r.SampleRow? ==> r.rowIndex == e.rows[0].rowIndex && r.message == e.rows[0].message
    ensures !r.SampleRow? ==> r == BigQueryInsert.Unwrapped(e)
  {
    if e.PutMultiError? && |e.rows| > 0 then BigQueryInsert.SampleRow(e.rows[0].rowIndex, e.rows[0].message)
    else BigQueryInsert.Unwrapped(e)
  }

  /** One insert: the row put and the error returned for the outcome of its `Put`. */
  datatype Inserted<R> = Inserted(row: R, err: Option<BigQueryInsert.InsertError>)

  function Insert<R>(row: R, put: Option<BigQueryInsert.PutError>): (r: Inserted<R>)
    ensures r.row == row
    ensures r.err.None? <==> put.None?
    ensures put.Some? ==> r.err == Some(InsertFailure(put.value))
  {
    match put
    case None => Inserted(row, None)
    case Some(e) => Inserted(row, Some(InsertFailure(e)))
  }

  /** `AddTrafficBandwidthData`: one row as written, with the direction normalised; both
      address columns are stored unflagged, so they read back empty. */
  function AddTrafficBandwidthData<D, B>(date: D, t: TrafficBandwidth<B>, put: Option<BigQueryInsert.PutError>)
    : (r: Inserted<TrafficRow<D, B>>)
    ensures TrafficOfRow(r.row) == t.(direction := NormalizeDirection(t.direction), localAddress := "", remoteDomain := "")
    ensures !r.row.localHostgroupAddress.valid && !r.row.remoteHostgroupAddress.valid
    ensures r.row.localHostgroupAddress.stringVal == t.localAddress
    ensures r.row.remoteHostgroupAddress.stringVal == t.remoteDomain
    ensures r.row.inventoryDate == date
    ensures r.err.None? <==> put.None?
    ensures put.Some? ==> r.err == Some(InsertFailure(put.value))
  {
    Insert(TrafficRowAsWritten(date, t), put)
  }

  /** `AddUpstreamService`: one "upstream" row as written. No nullable column is valid, so only
      the hostgroups and the protocol read back; a named process is stored as the local address. */
  function AddUpstreamService<D>(date: D, u: UpstreamService, put: Option<BigQueryInsert.PutError>)
    : (r: Inserted<DependencyRow<D>>)
    ensures UpstreamOfRow(r.row) == UpstreamService(u.localHostgroup, "", "", "", u.upstreamHostgroup, "", u.protocol)
    ensures u.localProcessName != "" ==> r.row.localHostgroupProcessName == NullString(u.localAddress, false)
    ensures u.localProcessName == "" ==> r.row.localHostgroupProcessName == Null
    ensures r.row.dependencyDirection == UpstreamDirection && r.row.localHostgroupAddressPort == Null
    ensures r.row.inventoryDate == date
    ensures r.err.None? <==> put.None?
    ensures put.Some? ==> r.err == Some(InsertFailure(put.value))
  {
    Insert(UpstreamRowAsWritten(date, u), put)
  }

  /** `AddDownstreamService`: one "downstream" row as written, with the same losses. */
  function AddDownstreamService<D>(date: D, d: DownstreamService, put: Option<BigQueryInsert.PutError>)
    : (r: Inserted<DependencyRow<D>>)
    ensures DownstreamOfRow(r.row) == DownstreamService(d.localHostgroup, "", "", "", d.downstreamHostgroup, "", d.protocol)
    ensures d.localProcessName != "" ==> r.row.localHostgroupProcessName == NullString(d.localAddress, false)
    ensures d.localProcessName == "" ==> r.row.localHostgroupProcessName == Null
    ensures r.row.dependencyDirection == DownstreamDirection && r.row.remoteHostgroupAddressPort == Null
    ensures r.row.inventoryDate == date
    ensures r.err.None? <==> put.None?
    ensures put.Some? ==> r.err == Some(InsertFailure(put.value))
  {
    Insert(DownstreamRowAsWritten(date, d), put)
  }
}
