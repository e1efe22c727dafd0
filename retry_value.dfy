/**
  `parse_retry_value`: the two forms a `Retry-After` value may take
  (section 10.2.3 of RFC 9110), tried in order. Delay-seconds first, through
  `u64::from_str`, giving the observation time plus that many seconds; then a
  date, through the `time` crate's RFC 2822 parser, which is not part of this
  model and is passed in as `parseDate`. Times are integers counting
  nanoseconds since the Unix epoch (`SystemTime`'s resolution on Unix).
*/
module RetryValue {
  import opened Wrappers
  import opened DecimalU64

  /** An absolute point in time, in nanoseconds since the Unix epoch. */
  type Time = int

  /** `Duration::from_secs` scaled to the unit of `Time`. */
  const NanosPerSecond: nat := 1_000_000_000

  /** The deadline a `Retry-After` value asks for, observed at `now`. */
  function ParseRetryValue(val: string, now: Time, parseDate: string -> Option<Time>): (r: Option<Time>)
    ensures IsU64Literal(val) ==> r == Some(now + Value(DigitsOf(val)) * NanosPerSecond)
    ensures !IsU64Literal(val) ==> r == parseDate(val)
  {
    ParseU64Correct(val);
    match ParseU64(val)
    case Some(secs) => Some(now + secs * NanosPerSecond)
    case None => parseDate(val)
  }

  /** When the value is a delay in seconds, the date parser is never consulted. */
  lemma DelaySecondsTakesPrecedence(val: string, now: Time, p: string -> Option<Time>, q: string -> Option<Time>)
    requires ParseU64(val).Some?
    ensures ParseRetryValue(val, now, p) == ParseRetryValue(val, now, q) == Some(now + ParseU64(val).value * NanosPerSecond)
  {
  }

  /** The parser reports no deadline exactly when neither form parses. */
  lemma NoDeadlineIff(val: string, now: Time, parseDate: string -> Option<Time>)
    ensures ParseRetryValue(val, now, parseDate).None? <==> !IsU64Literal(val) && parseDate(val).None?
  {
  }

  /** `Retry-After: n`, printed as Rust prints it, sets a deadline exactly n seconds after `now`. */
  lemma DelaySecondsDeadline(n: nat, now: Time, parseDate: string -> Option<Time>)
    requires n <= U64Max
    ensures ParseRetryValue(DecimalString(n), now, parseDate) == Some(now + n * NanosPerSecond)
  {
    DecimalStringRoundTrip(n);
    ParseU64Correct(DecimalString(n));
  }
}
