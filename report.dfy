/** The one-line summaries that the `logger` helper of index.js:10 prints. */
module Report {

  predicate IsDigit(c: char)
  {
    '0' <= c <= '9'
  }

  predicate AllDigits(s: string)
  {
    forall i :: 0 <= i < |s| ==> IsDigit(s[i])
  }

  /** The decimal numeral of `n`, as JavaScript writes a list length. */
  function Decimal(n: nat): (s: string)
    ensures |s| >= 1 && AllDigits(s)
    ensures |s| > 1 ==> s[0] != '0'
  {
    var last := (('0' as int) + n % 10) as char;
    if n < 10 then [last] else Decimal(n / 10) + [last]
  }

  /** The number a string of decimal digits denotes. */
  function ParseDecimal(s: string): nat
    requires AllDigits(s)
  {
    if s == [] then 0
    else 10 * ParseDecimal(s[..|s| - 1]) + (s[|s| - 1] as int - '0' as int)
  }

  /** Reading the numeral back gives the number. */
  lemma {:induction false} DecimalRoundTrip(n: nat)
    ensures ParseDecimal(Decimal(n)) == n
  {
    var s := Decimal(n);
    if n >= 10 {
      DecimalRoundTrip(n / 10);
      assert s[..|s| - 1] == Decimal(n / 10);
    }
  }

  /** `logger(prefix, list)`: "<prefix> <count> file[s]<. or :>". */
  function Logger<T>(prefix: string, list: seq<T>): (line: string)
    ensures |line| >= |prefix| + 8
    ensures line[..|prefix| + 1] == prefix + " "
    ensures line[|line| - 1] == (if |list| == 0 then '.' else ':')
    ensures line[|line| - 2] == 's' <==> (|list| == 0 || |list| > 1)
  {
    var n := |list|;
    prefix + " " + Decimal(n) + " file" + (if n == 0 || n > 1 then "s" else "")
      + (if n == 0 then "." else ":")
  }

  /**
    The field between the prefix and " file" is the decimal numeral of the
    list length.
  */
  lemma LoggerCount<T>(prefix: string, list: seq<T>)
    ensures var line := Logger(prefix, list);
      var end := |line| - (if |list| == 1 then 6 else 7);
      && |prefix| + 1 < end
      && line[end..end + 5] == " file"
      && AllDigits(line[|prefix| + 1..end])
      && ParseDecimal(line[|prefix| + 1..end]) == |list|
  {
    var line := Logger(prefix, list);
    var end := |line| - (if |list| == 1 then 6 else 7);
    assert line[|prefix| + 1..end] == Decimal(|list|);
    DecimalRoundTrip(|list|);
  }
}
