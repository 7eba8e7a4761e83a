/** cmd/planet-federator-influxdb-to-bq/internal/bigquery.go: splitting table rows into chunks and
    inserting them chunk by chunk. `chunkTrafficTableData` and `chunkDependencyTableData` are the
    same loop over different row types, modelled once for any row type `T`; so are the two insert
    methods. The BigQuery inserter is a parameter. */
module BigQueryInsert {
  import opened Wrappers
  import Collections

  /** The chunk size both inserts use, against the request payload limit. */
  const InsertChunkSize: nat := 2000

  /** Reference chunking: consecutive pieces of `size` rows, the last one possibly shorter. */
  function Chunks<T>(s: seq<T>, size: nat): (cs: seq<seq<T>>)
    requires size > 0
    ensures Collections.Flatten(cs) == s
    ensures forall i :: 0 <= i < |cs| ==> 0 < |cs[i]| <= size
    ensures forall i :: 0 <= i < |cs| - 1 ==> |cs[i]| == size
    ensures |cs| == 0 <==> |s| == 0
    decreases |s|
  {
    if |s| == 0 then []
    else if |s| <= size then
      assert [s][1..] == [];
      [s]
    else
      var rest := Chunks(s[size..], size);
      assert ([s[..size]] + rest)[1..] == rest;
      assert s[..size] + s[size..] == s;
      [s[..size]] + rest
  }

  /** The chunking loop as written: when fewer rows than the chunk size remain, the chunk size
      itself shrinks to what remains. With a chunk size of 0 the loop would never end. */
  method ChunkTableData<T>(slice: seq<T>, chunkSize: nat) returns (chunks: seq<seq<T>>)
    requires chunkSize > 0
    ensures chunks == Chunks(slice, chunkSize)
  {
    var rest := slice;
    var size := chunkSize;
    chunks := [];
    while |rest| > 0
      invariant 0 < size <= chunkSize
      invariant size < chunkSize ==> |rest| == 0
      invariant chunks + Chunks(rest, chunkSize) == Chunks(slice, chunkSize)
      decreases |rest|
    {
      if |rest| < size {
        size := |rest|;
      }
      var next := Chunks(rest, chunkSize);
      if |rest| <= chunkSize {
        assert next == [rest] && rest[..size] == rest;
      } else {
        assert size == chunkSize && next == [rest[..size]] + Chunks(rest[size..], chunkSize);
      }
      chunks := chunks + [rest[..size]];
      rest := rest[size..];
    }
  }

  datatype RowError = RowError(rowIndex: int, message: string)

  /** What `inserter.Put` can fail with: a per-row multi-error or any other error. */
  datatype PutError = PutMultiError(rows: seq<RowError>) | OtherPutError(message: string)

  /** The error an insert returns: the first row of a multi-error, a wrapped other error, or, for a
      multi-error without rows, the error itself. */
  datatype InsertError = SampleRow(rowIndex: int, message: string) | Wrapped(message: string) | Unwrapped(e: PutError)

  function Report(e: PutError): (r: InsertError)
    ensures e.PutMultiError? && |e.rows| > 0 ==> r == SampleRow(e.rows[0].rowIndex, e.rows[0].message)
    ensures e.PutMultiError? && |e.rows| == 0 ==> r == Unwrapped(e)
    ensures e.OtherPutError? ==> r == Wrapped(e.message)
  {
    match e
    case PutMultiError(rows) => if |rows| > 0 then SampleRow(rows[0].rowIndex, rows[0].message) else Unwrapped(e)
    case OtherPutError(message) => Wrapped(message)
  }

  /** The insert loop. `put(i, chunk)` is the outcome of the `i`-th `Put` call. The result is the
      number of `Put` calls made and the error returned. */
  method Insert<T>(data: seq<T>, put: (nat, seq<T>) -> Option<PutError>) returns (calls: nat, err: Option<InsertError>)
    ensures var cs := Chunks(data, InsertChunkSize);
      && calls <= |cs|
      && (forall i :: 0 <= i < calls - 1 ==> put(i, cs[i]).None?)
      && (err.None? <==> forall i :: 0 <= i < |cs| ==> put(i, cs[i]).None?)
      && (err.None? ==> calls == |cs|)
      && (err.Some? ==> 0 < calls && put(calls - 1, cs[calls - 1]).Some? &&
                        err == Some(Report(put(calls - 1, cs[calls - 1]).value)))
  {
    var dataChunks := ChunkTableData(data, InsertChunkSize);
    calls := 0;
    for i := 0 to |dataChunks|
      invariant calls == i
      invariant forall j :: 0 <= j < i ==> put(j, dataChunks[j]).None?
    {
      var result := put(i, dataChunks[i]);
      calls := calls + 1;
      if result.Some? {
        return calls, Some(Report(result.value));
      }
    }
    return calls, None;
  }
}
