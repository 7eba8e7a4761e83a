/** `bigquery.NullString`, the nullable STRING column value of the BigQuery client, and the
    empty-string-means-NULL convention the federator jobs use to fill it. */
module NullStrings {
  datatype NullString = NullString(stringVal: string, valid: bool)

  /** The zero value `bigquery.NullString{}`: NULL. */
  const Null := NullString("", false)

  /** A non-empty string becomes a valid column holding it; the empty string becomes NULL. */
  function ToNullString(s: string): (n: NullString)
    ensures n.valid <==> s != ""
    ensures n.valid ==> n.stringVal == s
    ensures !n.valid ==> n == Null
  {
    if s != "" then NullString(s, true) else Null
  }

  /** Reading a column back: NULL reads as the empty string. */
  function FromNullString(n: NullString): string {
    if n.valid then n.stringVal else ""
  }

  /** A column as `ToNullString` produces it: valid exactly with a non-empty string, NULL with the
      empty string. */
  predicate Canonical(n: NullString) {
    (n.valid && n.stringVal != "") || n == Null
  }

  /** The conversion loses nothing, and every canonical column is the conversion of its reading. */
  lemma NullStringRoundTrip(s: string, n: NullString)
    ensures FromNullString(ToNullString(s)) == s
    ensures Canonical(ToNullString(s))
    ensures Canonical(n) ==> ToNullString(FromNullString(n)) == n
  {
  }
}
