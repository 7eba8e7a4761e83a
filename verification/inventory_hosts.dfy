/** collector/task/inventory/host.go: the inventory entry type and `parseHosts`, which turns an
    inventory response into hosts according to the configured format. The JSON decoder itself is
    not modelled: each decoded object is given as the set of members it assigned. */
module InventoryHosts {
  import opened Wrappers
  import Collections

  /** One inventory entry (declared identically in inventory.go and host.go). */
  datatype Host = Host(domain: string, hostgroup: string, ipAddress: string)

  const ZeroHost := Host("", "", "")

  /** The key both inventory maps use. */
  function AddressOf(h: Host): string {
    h.ipAddress
  }

  const FmtNDJSON := "ndjson"
  const FmtArrayJSON := "arrayjson"

  /** The members `domain`, `hostgroup`, `ip_address` one JSON object assigned, each present or absent. */
  datatype Fields = Fields(domain: Option<string>, hostgroup: Option<string>, ipAddress: Option<string>)

  /** Decoding into an existing struct: present members overwrite, absent members keep the old value. */
  function Assign(h: Host, f: Fields): Host {
    Host(
      if f.domain.Some? then f.domain.value else h.domain,
      if f.hostgroup.Some? then f.hostgroup.value else h.hostgroup,
      if f.ipAddress.Some? then f.ipAddress.value else h.ipAddress)
  }

  /** `h` carries every member `f` assigned. */
  predicate Agrees(h: Host, f: Fields) {
    && (f.domain.Some? ==> h.domain == f.domain.value)
    && (f.hostgroup.Some? ==> h.hostgroup == f.hostgroup.value)
    && (f.ipAddress.Some? ==> h.ipAddress == f.ipAddress.value)
  }

  predicate Complete(f: Fields) {
    f.domain.Some? && f.hostgroup.Some? && f.ipAddress.Some?
  }

  /** One `decoder.Decode(&entry)` of the ndjson stream. A failed decode (an unknown member under
      `DisallowUnknownFields`, a type mismatch) may already have assigned some members. */
  datatype EntryDecode = Decoded(fields: Fields) | DecodeFailed(partial: Fields, reason: string)

  /** The single `decoder.Decode(&result)` of the arrayjson format; `trailingData` is
      `decoder.More()` after the array. */
  datatype ArrayDecode = ArrayDecoded(elements: seq<Fields>, trailingData: bool) | ArrayFailed(reason: string)

  /** One response body, as the ndjson reading and as the arrayjson reading see it. */
  datatype Payload = Payload(asStream: seq<EntryDecode>, asArray: ArrayDecode)

  datatype ParseError = InvalidInventoryFormat | ArrayDecodeError(reason: string)

  function AssignedBy(e: EntryDecode): Fields {
    match e
    case Decoded(f) => f
    case DecodeFailed(f, _) => f
  }

  /** The members of the successfully decoded objects, in stream order. */
  function Successes(stream: seq<EntryDecode>): seq<Fields> {
    Collections.FilterMap(stream, (e: EntryDecode) => if e.Decoded? then Some(e.fields) else None)
  }

  /** The ndjson loop: a single `entry` variable is decoded into again and again; a failed decode
      is skipped, a successful one appends the variable's current value. */
  function DecodeStream(stream: seq<EntryDecode>, entry: Host): (hosts: seq<Host>)
    ensures |hosts| == |Successes(stream)|
    ensures forall k :: 0 <= k < |hosts| ==> Agrees(hosts[k], Successes(stream)[k])
    decreases |stream|
  {
    if |stream| == 0 then []
    else
      var next := Assign(entry, AssignedBy(stream[0]));
      var rest := DecodeStream(stream[1..], next);
      if stream[0].Decoded? then [next] + rest else rest
  }

  /** `parseHosts(format, data)`. */
  function ParseHosts(format: string, payload: Payload): (r: Result<seq<Host>, ParseError>)
    ensures format != FmtNDJSON && format != FmtArrayJSON ==> r == Failure(InvalidInventoryFormat)
    ensures format == FmtNDJSON ==> r.Success? && |r.value| == |Successes(payload.asStream)|
    ensures format == FmtNDJSON ==> r == Success(DecodeStream(payload.asStream, ZeroHost))
    ensures format == FmtArrayJSON ==> (r.Failure? <==> payload.asArray.ArrayFailed?)
    ensures format == FmtArrayJSON && r.Failure? ==> r.error.ArrayDecodeError?
    ensures format == FmtArrayJSON && r.Success? ==>
      && |r.value| == |payload.asArray.elements|
      && forall i :: 0 <= i < |r.value| ==> r.value[i] == Assign(ZeroHost, payload.asArray.elements[i])
  {
    if format == FmtNDJSON then
      Success(DecodeStream(payload.asStream, ZeroHost))
    else if format == FmtArrayJSON then
      match payload.asArray
      case ArrayFailed(reason) => Failure(ArrayDecodeError(reason))
      case ArrayDecoded(elements, _) =>
        Success(seq(|elements|, i requires 0 <= i < |elements| => Assign(ZeroHost, elements[i])))
    else
      Failure(InvalidInventoryFormat)
  }

  function FromComplete(f: Fields): Host
    requires Complete(f)
  {
    Host(f.domain.value, f.hostgroup.value, f.ipAddress.value)
  }

  /** When every decoded object carries all three members the shared variable leaves no trace:
      the hosts are exactly the decoded objects, in stream order, with failed ones dropped. */
  lemma {:induction false} DecodeStreamOfCompleteEntries(stream: seq<EntryDecode>, entry: Host)
    requires forall i :: 0 <= i < |stream| && stream[i].Decoded? ==> Complete(stream[i].fields)
    ensures DecodeStream(stream, entry) ==
      Collections.FilterMap(stream, (e: EntryDecode) => if e.Decoded? && Complete(e.fields) then Some(FromComplete(e.fields)) else None)
    decreases |stream|
  {
    if |stream| > 0 {
      var next := Assign(entry, AssignedBy(stream[0]));
      DecodeStreamOfCompleteEntries(stream[1..], next);
    }
  }

  /** A decoded object that omits a member inherits it from the previous entry:
      `{"ip_address":"10.0.1.3"}` after a full entry keeps that entry's domain and hostgroup. */
  lemma NDJSONCarriesOmittedMembers()
    ensures ParseHosts(FmtNDJSON, Payload([
      Decoded(Fields(Some("xyz.service.consul"), Some("xyz"), Some("10.0.1.2"))),
      Decoded(Fields(None, None, Some("10.0.1.3")))], ArrayFailed("unused")))
      == Success([Host("xyz.service.consul", "xyz", "10.0.1.2"), Host("xyz.service.consul", "xyz", "10.0.1.3")])
  {
    var first := Decoded(Fields(Some("xyz.service.consul"), Some("xyz"), Some("10.0.1.2")));
    var second := Decoded(Fields(None, None, Some("10.0.1.3")));
    var stream := [first, second];
    var h1 := Host("xyz.service.consul", "xyz", "10.0.1.2");
    var h2 := Host("xyz.service.consul", "xyz", "10.0.1.3");
    assert stream[1..] == [second] && [second][1..] == [];
    assert DecodeStream([second], h1) == [h2];
    assert DecodeStream(stream, ZeroHost) == [h1, h2];
  }

  /** Extra data after the array only produces a warning: the result does not depend on it. */
  lemma ArrayTrailingDataIgnored(elements: seq<Fields>, stream: seq<EntryDecode>)
    ensures ParseHosts(FmtArrayJSON, Payload(stream, ArrayDecoded(elements, true)))
         == ParseHosts(FmtArrayJSON, Payload(stream, ArrayDecoded(elements, false)))
  {
  }
}
