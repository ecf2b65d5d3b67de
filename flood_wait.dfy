/**
 * The denial signal `FloodWait` and its record form `to_dict`, including the
 * decimal rendering `str(int)` used for the `"rate"` field and a parser that
 * recovers every field from the record.
 */
module Errors {
  import opened Wrappers

  /** A rate-limit denial: a message, the configured rate and period, and the seconds to wait. */
  datatype FloodWait = FloodWait(message: string, rate: int, period: int, retryAfter: int)

  /** A value of the record that `to_dict` returns: a string or an integer. */
  datatype Field = Text(text: string) | Number(number: int)

  const MESSAGE_FIELD: string := "message"
  const RATE_FIELD: string := "rate"
  const RETRY_AFTER_FIELD: string := "retry_after"

  predicate IsDigit(c: char) { '0' <= c <= '9' }

  predicate AllDigits(s: string) { forall i :: 0 <= i < |s| ==> IsDigit(s[i]) }

  function DigitChar(d: nat): (c: char)
    requires d < 10
    ensures IsDigit(c) && c as int - '0' as int == d
  {
    ('0' as int + d) as char
  }

  function DigitValue(c: char): nat
    requires IsDigit(c)
  {
    c as int - '0' as int
  }

  /** Python's `str(n)` for a non-negative integer: digits, most significant first, no leading zero. */
  function NatToDecimal(n: nat): (s: string)
    ensures |s| > 0 && AllDigits(s)
    ensures s[0] == '0' ==> n == 0 && s == "0"
    decreases n
  {
    if n < 10 then [DigitChar(n)] else NatToDecimal(n / 10) + [DigitChar(n % 10)]
  }

  /** Python's `str(i)` for any integer: a leading `-` for negatives. */
  function IntToDecimal(i: int): (s: string)
    ensures |s| > 0 && '/' !in s
  {
    if i < 0 then "-" + NatToDecimal(-i) else NatToDecimal(i)
  }

  /** The value of a string of decimal digits. */
  function DecimalToNat(s: string): nat
    requires AllDigits(s)
  {
    if s == [] then 0 else DecimalToNat(s[..|s| - 1]) * 10 + DigitValue(s[|s| - 1])
  }

  /** Python's `int(s)` restricted to the strings `str` produces: an optional `-` and digits. */
  function ParseInt(s: string): Option<int>
  {
    if |s| > 1 && s[0] == '-' && AllDigits(s[1..]) then Some(-(DecimalToNat(s[1..]) as int))
    else if |s| > 0 && AllDigits(s) then Some(DecimalToNat(s))
    else None
  }

  lemma {:induction false} NatDecimalRoundTrip(n: nat)
    ensures DecimalToNat(NatToDecimal(n)) == n
  {
    if n >= 10 {
      var s := NatToDecimal(n);
      assert s[..|s| - 1] == NatToDecimal(n / 10);
      NatDecimalRoundTrip(n / 10);
    }
  }

  lemma IntDecimalRoundTrip(i: int)
    ensures ParseInt(IntToDecimal(i)) == Some(i)
  {
    if i < 0 {
      var s := IntToDecimal(i);
      assert s[1..] == NatToDecimal(-i);
      NatDecimalRoundTrip(-i);
    } else {
      NatDecimalRoundTrip(i);
    }
  }

  /** The `"rate"` field: `"{rate}/{period}"`. */
  function RateText(rate: int, period: int): string
  {
    IntToDecimal(rate) + "/" + IntToDecimal(period)
  }

  /** Splits `s` at its first `/`. */
  function SplitAtSlash(s: string): Option<(string, string)>
  {
    if s == [] then None
    else if s[0] == '/' then Some(([], s[1..]))
    else match SplitAtSlash(s[1..])
      case None => None
      case Some((a, b)) => Some(([s[0]] + a, b))
  }

  lemma {:induction false} SplitAtSlashFirst(a: string, b: string)
    requires '/' !in a
    ensures SplitAtSlash(a + "/" + b) == Some((a, b))
  {
    if a == [] {
      assert a + "/" + b == "/" + b;
    } else {
      assert (a + "/" + b)[1..] == a[1..] + "/" + b;
      SplitAtSlashFirst(a[1..], b);
      assert [a[0]] + a[1..] == a;
    }
  }

  /** Reads a `"rate"` field back into its rate and period. */
  function ParseRate(s: string): Option<(int, int)>
  {
    match SplitAtSlash(s)
    case None => None
    case Some((a, b)) =>
      match (ParseInt(a), ParseInt(b))
      case (Some(rate), Some(period)) => Some((rate, period))
      case _ => None
  }

  lemma RateTextRoundTrip(rate: int, period: int)
    ensures ParseRate(RateText(rate, period)) == Some((rate, period))
  {
    SplitAtSlashFirst(IntToDecimal(rate), IntToDecimal(period));
    IntDecimalRoundTrip(rate);
    IntDecimalRoundTrip(period);
  }

  /** `FloodWait.to_dict`: the message, `"{rate}/{period}"` and the seconds to wait. */
  function ToDict(fw: FloodWait): (d: map<string, Field>)
    ensures d.Keys == {MESSAGE_FIELD, RATE_FIELD, RETRY_AFTER_FIELD}
  {
    map[MESSAGE_FIELD := Text(fw.message),
        RATE_FIELD := Text(RateText(fw.rate, fw.period)),
        RETRY_AFTER_FIELD := Number(fw.retryAfter)]
  }

  /** Rebuilds a denial from its record, if the record has the shape `ToDict` gives. */
  function FromDict(d: map<string, Field>): Option<FloodWait>
  {
    if MESSAGE_FIELD in d && RATE_FIELD in d && RETRY_AFTER_FIELD in d
       && d[MESSAGE_FIELD].Text? && d[RATE_FIELD].Text? && d[RETRY_AFTER_FIELD].Number?
    then
      match ParseRate(d[RATE_FIELD].text)
      case None => None
      case Some((rate, period)) =>
        Some(FloodWait(d[MESSAGE_FIELD].text, rate, period, d[RETRY_AFTER_FIELD].number))
    else None
  }

  /** The record loses nothing: message, rate, period and retry delay are all recoverable. */
  lemma ToDictRoundTrip(fw: FloodWait)
    ensures FromDict(ToDict(fw)) == Some(fw)
  {
    RateTextRoundTrip(fw.rate, fw.period);
  }
}
