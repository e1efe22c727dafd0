/**
  The two request sequences of the repository's tests, replayed against the
  class: what a caller can conclude from the contracts of `Handle` alone.
  `next` is played by the outcomes passed in; the clock by the time arguments.
*/
module Scenarios {
  import opened Wrappers
  import opened DecimalU64
  import opened RetryValue
  import opened Middleware

  /**
    A fresh middleware; a response for `root` with `Retry-After: 2`; a request
    to `normal`, which is not delayed; a second request to `root`, which does
    not proceed before two seconds after the first response was read; both
    later responses lack the header, so `/normal` never gets an entry and the
    cache ends up empty.
  */
  method DelaySecondsScenario<Url(==), Payload, Error>(
    root: Url, normal: Url, payload: Payload,
    t0: Time, read0: Time, t1: Time, read1: Time, t2: Time, read2: Time,
    parseDate: string -> Option<Time>)
    returns (firstWait: nat, afterFirst: map<Url, Time>, normalWait: nat, afterNormal: map<Url, Time>,
             rootWait: nat, remaining: map<Url, Time>)
    requires root != normal
    ensures firstWait == 0 && afterFirst == map[root := read0 + 2 * NanosPerSecond]
    ensures normalWait == 0 && normal !in afterNormal && afterNormal == afterFirst
    ensures t2 + rootWait >= read0 + 2 * NanosPerSecond
    ensures remaining == map[]
  {
    var m := new RetryAfterMiddleware<Url>();
    var first: Outcome<Payload, Error> := Ok(Response(Text("2"), payload));
    var plain: Outcome<Payload, Error> := Ok(Response(Absent, payload));
    assert DecimalString(2) == "2";
    DelaySecondsDeadline(2, read0, parseDate);
    var out;
    firstWait, out := m.Handle(root, t0, first, read0, parseDate);
    afterFirst := m.retryAfter;
    normalWait, out := m.Handle(normal, t1, plain, read1, parseDate);
    afterNormal := m.retryAfter;
    rootWait, out := m.Handle(root, t2, plain, read2, parseDate);
    remaining := m.retryAfter;
  }

  /**
    The same with a date: a response for `url` whose value is not a number but
    which the date parser reads as `date`; the next request does not proceed
    before `date`, and its header-less response empties the cache.
  */
  method DateScenario<Url(==), Payload, Error>(
    url: Url, val: string, payload: Payload,
    t0: Time, read0: Time, t1: Time, read1: Time,
    parseDate: string -> Option<Time>)
    returns (firstWait: nat, secondWait: nat, remaining: map<Url, Time>)
    requires !IsU64Literal(val) && parseDate(val).Some?
    ensures firstWait == 0
    ensures t1 + secondWait >= parseDate(val).value
    ensures remaining == map[]
  {
    var m := new RetryAfterMiddleware<Url>();
    var first: Outcome<Payload, Error> := Ok(Response(Text(val), payload));
    var plain: Outcome<Payload, Error> := Ok(Response(Absent, payload));
    var out;
    firstWait, out := m.Handle(url, t0, first, read0, parseDate);
    secondWait, out := m.Handle(url, t1, plain, read1, parseDate);
    remaining := m.retryAfter;
  }
}
