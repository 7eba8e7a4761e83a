/** The string conversions the source takes from Go's standard library:
    `fmt.Sprint` of an unsigned integer, `strconv.ParseInt(s, 10, 64)` and
    `strings.Split` with a one-character separator. */
module Text {
  import opened Wrappers
  import opened Ints

  predicate IsDigit(c: char) {
    '0' <= c <= '9'
  }

  predicate AllDigits(s: string) {
    forall i :: 0 <= i < |s| ==> IsDigit(s[i])
  }

  function DigitChar(d: nat): (c: char)
    requires d < 10
    ensures IsDigit(c)
  {
    (('0' as int) + d) as char
  }

  function DigitValue(c: char): (d: nat)
    requires IsDigit(c)
    ensures d < 10
  {
    (c as int) - ('0' as int)
  }

  /** Decimal rendering of a natural number, as Go's `fmt.Sprint` and `%v` print an unsigned integer. */
  function NatToString(n: nat): (s: string)
    ensures |s| >= 1 && AllDigits(s)
    ensures n > 0 ==> s[0] != '0'
    decreases n
  {
    if n < 10 then [DigitChar(n)] else NatToString(n / 10) + [DigitChar(n % 10)]
  }

  /** The base-10 value of a digit string; leading zeros are allowed. */
  function DigitsValue(s: string): nat
    requires AllDigits(s)
    decreases |s|
  {
    if |s| == 0 then 0 else DigitsValue(s[..|s| - 1]) * 10 + DigitValue(s[|s| - 1])
  }

  /** Reading back a printed natural number gives the number. */
  lemma {:induction false} NatToStringRoundTrip(n: nat)
    ensures DigitsValue(NatToString(n)) == n
    decreases n
  {
    if n >= 10 {
      var s := NatToString(n);
      assert s[..|s| - 1] == NatToString(n / 10);
      NatToStringRoundTrip(n / 10);
    }
  }

  /** Printing is injective: distinct numbers print differently. */
  lemma NatToStringInjective(a: nat, b: nat)
    requires NatToString(a) == NatToString(b)
    ensures a == b
  {
    NatToStringRoundTrip(a);
    NatToStringRoundTrip(b);
  }

  /** A non-empty run of decimal digits, read as a natural number. */
  function ParseUnsigned(s: string): (r: Option<nat>)
    ensures r.Some? <==> |s| > 0 && AllDigits(s)
  {
    if |s| > 0 && AllDigits(s) then Some(DigitsValue(s)) else None
  }

  /** Go's `strconv.ParseInt(s, 10, 64)`: an optional `+` or `-`, at least one decimal digit and
      nothing else, within the signed 64-bit range; every other text is an error (None). */
  function ParseInt64(s: string): (r: Option<int>)
    ensures r.Some? ==> IsInt64(r.value)
    ensures r.Some? ==> |s| > 0 && AllDigits(if s[0] == '+' || s[0] == '-' then s[1..] else s)
  {
    if |s| == 0 then None
    else
      var body := if s[0] == '+' || s[0] == '-' then s[1..] else s;
      match ParseUnsigned(body)
      case None => None
      case Some(v) =>
        if s[0] == '-' then
          (if v <= -MinInt64 then Some(-(v as int)) else None)
        else
          (if v <= MaxInt64 then Some(v) else None)
  }

  /** Decimal rendering of a signed integer, with a leading `-` for negative values. */
  function FormatInt(n: int): string {
    if n < 0 then "-" + NatToString(-n) else NatToString(n)
  }

  /** Every 64-bit integer survives printing and parsing. */
  lemma FormatParseRoundTrip(n: int)
    requires IsInt64(n)
    ensures ParseInt64(FormatInt(n)) == Some(n)
  {
    var s := FormatInt(n);
    if n < 0 {
      var digits := NatToString(-n);
      assert s == "-" + digits && s[0] == '-' && s[1..] == digits;
      NatToStringRoundTrip(-n);
      assert ParseUnsigned(s[1..]) == Some(-n);
    } else {
      assert s[0] != '+' && s[0] != '-';
      NatToStringRoundTrip(n);
      assert ParseUnsigned(s) == Some(n);
    }
  }

  /** Position of the first occurrence of `c` in `s`. */
  function IndexOf(s: string, c: char): (i: nat)
    requires c in s
    ensures i < |s| && s[i] == c && c !in s[..i]
  {
    if s[0] == c then 0 else 1 + IndexOf(s[1..], c)
  }

  /** Go's `strings.Join(parts, string(sep))`. */
  function Join(parts: seq<string>, sep: char): string
    decreases |parts|
  {
    if |parts| == 0 then ""
    else if |parts| == 1 then parts[0]
    else parts[0] + [sep] + Join(parts[1..], sep)
  }

  /** Go's `strings.Split(s, string(sep))`: never empty, no part contains the
      separator, and joining the parts gives back `s`. */
  function Split(s: string, sep: char): (parts: seq<string>)
    ensures |parts| >= 1
    ensures forall i :: 0 <= i < |parts| ==> sep !in parts[i]
    ensures Join(parts, sep) == s
    decreases |s|
  {
    if sep !in s then [s]
    else
      var i := IndexOf(s, sep);
      var rest := Split(s[i + 1..], sep);
      assert s == s[..i] + [sep] + s[i + 1..];
      [s[..i]] + rest
  }

  /** `strings.Split(s, sep)[0]`: the longest prefix of `s` without the separator. */
  function BeforeFirst(s: string, sep: char): (r: string)
    ensures r <= s
    ensures sep !in r
    ensures r == s || s[|r|] == sep
  {
    Split(s, sep)[0]
  }

  /** The text before the first separator, when a known separator-free prefix precedes it. */
  lemma BeforeFirstOfPrefix(a: string, b: string, sep: char)
    requires sep !in a
    ensures BeforeFirst(a + [sep] + b, sep) == a
  {
    var s := a + [sep] + b;
    assert s[|a|] == sep;
  }

  /** Printed integers contain only digits after an optional leading minus sign. */
  lemma FormatIntHasNo(n: int, c: char)
    requires c != '-' && !IsDigit(c)
    ensures c !in FormatInt(n)
  {
  }
}
