/**
  `RetryAfterMiddleware`: a cache from request URL to the deadline the last
  response for that URL announced, consulted before each request and updated
  after each response. The lock and the sleep are not part of this model: the
  pre-request step returns how long it would sleep, and the outcome of the
  rest of the middleware chain (`next.run`) is an input.
*/
module Middleware {
  import opened Wrappers
  import opened RetryValue

  /** What `headers().get(RETRY_AFTER)` and then `to_str()` give for a response. */
  datatype HeaderField =
    | Absent            // no `Retry-After` header
    | NonAscii          // present, but `to_str` refuses it (not visible ASCII)
    | Text(value: string)

  /** A response as far as the middleware sees it; the rest is carried untouched. */
  datatype Response<Payload> = Response(retryAfter: HeaderField, payload: Payload)

  /** The outcome of `next.run`: a response, or a transport error. */
  datatype Outcome<Payload, Error> = Ok(response: Response<Payload>) | Err(error: Error)

  /** The deadline a response announces, if its `Retry-After` value parses. */
  function Deadline<Payload>(resp: Response<Payload>, now: Time, parseDate: string -> Option<Time>): (r: Option<Time>)
    ensures r.Some? ==> resp.retryAfter.Text? && r == ParseRetryValue(resp.retryAfter.value, now, parseDate)
    ensures resp.retryAfter.Text? && ParseRetryValue(resp.retryAfter.value, now, parseDate).Some? ==> r.Some?
  {
    match resp.retryAfter
    case Text(val) => ParseRetryValue(val, now, parseDate)
    case _ => None
  }

  /** `lookup`: the stored deadline for `url`, if any. */
  function Lookup<Url>(cache: map<Url, Time>, url: Url): (r: Option<Time>)
    ensures r.Some? <==> url in cache
    ensures r.Some? ==> r.value == cache[url]
  {
    if url in cache then Some(cache[url]) else None
  }

  /**
    How long the pre-request step sleeps: until the stored deadline when it
    lies ahead, not at all when there is none or it has passed.
  */
  function WaitFor<Url>(cache: map<Url, Time>, url: Url, now: Time): (w: nat)
    ensures url !in cache ==> w == 0
    ensures url in cache ==> now + w >= cache[url]
    ensures w > 0 ==> url in cache && now + w == cache[url]
  {
    match Lookup(cache, url)
    case Some(t) => if t >= now then t - now else 0
    case None => 0
  }

  /**
    The cache after the post-response step. A transport error, a header that
    is not ASCII and a value that does not parse leave the cache as it was; a
    parsed deadline is stored for `url`; a missing header removes `url`.
  */
  function CacheAfter<Url, Payload, Error>(
    cache: map<Url, Time>, url: Url, res: Outcome<Payload, Error>, now: Time, parseDate: string -> Option<Time>
  ): (c: map<Url, Time>)
    ensures c - {url} == cache - {url}
    ensures res.Err? ==> c == cache
    ensures res.Ok? && res.response.retryAfter.Absent? ==> url !in c
    ensures res.Ok? && Deadline(res.response, now, parseDate).Some? ==>
      Lookup(c, url) == Deadline(res.response, now, parseDate)
    ensures res.Ok? && !res.response.retryAfter.Absent? && Deadline(res.response, now, parseDate).None? ==>
      c == cache
  {
    match res
    case Err(_) => cache
    case Ok(resp) =>
      match resp.retryAfter
      case Absent => cache - {url}
      case NonAscii => cache
      case Text(val) =>
        match ParseRetryValue(val, now, parseDate)
        case Some(t) => cache[url := t]
        case None => cache
  }

  /** Two identical responses in a row leave the cache as one of them does. */
  lemma CacheAfterIdempotent<Url, Payload, Error>(
    cache: map<Url, Time>, url: Url, res: Outcome<Payload, Error>, now: Time, parseDate: string -> Option<Time>)
    ensures CacheAfter(CacheAfter(cache, url, res, now, parseDate), url, res, now, parseDate)
         == CacheAfter(cache, url, res, now, parseDate)
  {
  }

  /**
    Last write wins: a response whose value parses replaces whatever an
    earlier response for the same URL, at any time, left behind.
  */
  lemma LastDeadlineWins<Url, Payload, Error>(
    cache: map<Url, Time>, url: Url, first: Outcome<Payload, Error>, second: Outcome<Payload, Error>,
    t1: Time, t2: Time, parseDate: string -> Option<Time>)
    requires second.Ok? && Deadline(second.response, t2, parseDate).Some?
    ensures CacheAfter(CacheAfter(cache, url, first, t1, parseDate), url, second, t2, parseDate)
         == CacheAfter(cache, url, second, t2, parseDate)
  {
  }

  /** A response for one URL never changes how long a request to another URL waits. */
  lemma OtherUrlsNotDelayed<Url, Payload, Error>(
    cache: map<Url, Time>, url: Url, other: Url, res: Outcome<Payload, Error>,
    now: Time, later: Time, parseDate: string -> Option<Time>)
    requires other != url
    ensures WaitFor(CacheAfter(cache, url, res, now, parseDate), other, later) == WaitFor(cache, other, later)
  {
  }

  /**
    After a response carrying `Retry-After: n` observed at `now`, the next
    request to the same URL does not proceed before `now` plus n seconds,
    whenever it is issued and whatever the date parser does.
  */
  lemma DelaySecondsHonoured<Url, Payload, Error>(
    cache: map<Url, Time>, url: Url, n: nat, payload: Payload,
    now: Time, later: Time, parseDate: string -> Option<Time>)
    requires n <= DecimalU64.U64Max
    ensures var c := CacheAfter(cache, url, Outcome<Payload, Error>.Ok(Response(Text(DecimalU64.DecimalString(n)), payload)), now, parseDate);
      Lookup(c, url) == Some(now + n * NanosPerSecond) &&
      later + WaitFor(c, url, later) >= now + n * NanosPerSecond
  {
    DelaySecondsDeadline(n, now, parseDate);
  }

  /**
    A date deadline that has already passed when the next request is issued
    costs no wait. The stale entry stays until a response for the URL without
    the header removes it, or one with a parseable value replaces it.
  */
  lemma PastDateNoWait<Url, Payload, Error>(
    cache: map<Url, Time>, url: Url, val: string, payload: Payload,
    now: Time, later: Time, parseDate: string -> Option<Time>)
    requires !DecimalU64.IsU64Literal(val) && parseDate(val).Some? && parseDate(val).value <= later
    ensures var c := CacheAfter(cache, url, Outcome<Payload, Error>.Ok(Response(Text(val), payload)), now, parseDate);
      url in c && WaitFor(c, url, later) == 0
  {
  }

  /** A response without the header lifts any restriction on its URL. */
  lemma AbsentHeaderLiftsRestriction<Url, Payload, Error>(
    cache: map<Url, Time>, url: Url, payload: Payload, now: Time, later: Time, parseDate: string -> Option<Time>)
    ensures var c := CacheAfter(cache, url, Outcome<Payload, Error>.Ok(Response(Absent, payload)), now, parseDate);
      Lookup(c, url) == None && WaitFor(c, url, later) == 0
  {
  }

  /** Removing an entry that is not there changes nothing. */
  lemma AbsentHeaderOnUnknownUrl<Url, Payload, Error>(
    cache: map<Url, Time>, url: Url, payload: Payload, now: Time, parseDate: string -> Option<Time>)
    requires url !in cache
    ensures CacheAfter(cache, url, Outcome<Payload, Error>.Ok(Response(Absent, payload)), now, parseDate) == cache
  {
  }

  /** The interceptor: one deadline cache per instance, `retry_after` in the source. */
  class RetryAfterMiddleware<Url(==)> {
    var retryAfter: map<Url, Time>

    /** `new` (and `default`, which calls it): an empty cache. */
    constructor ()
      ensures retryAfter == map[]
    {
      retryAfter := map[];
    }

    /**
      The pre-request step: look the URL up and compute the sleep. It has no
      `modifies` clause, so it cannot change the cache.
    */
    method BeforeRequest(url: Url, now: Time) returns (wait: nat)
      ensures wait == WaitFor(retryAfter, url, now)
      ensures url !in retryAfter ==> wait == 0
      ensures url in retryAfter && retryAfter[url] >= now ==> wait == retryAfter[url] - now
      ensures url in retryAfter && retryAfter[url] < now ==> wait == 0
    {
      wait := 0;
      if url in retryAfter {
        var timestamp := retryAfter[url];
        if timestamp >= now {
          wait := timestamp - now;
        }
      }
    }

    /**
      The post-response step: update the entry for `url` from the outcome of
      `next` and hand that outcome back unchanged.
    */
    method AfterResponse<Payload, Error>(url: Url, res: Outcome<Payload, Error>, now: Time, parseDate: string -> Option<Time>)
      returns (out: Outcome<Payload, Error>)
      modifies this
      ensures out == res
      ensures retryAfter == CacheAfter(old(retryAfter), url, res, now, parseDate)
      ensures retryAfter - {url} == old(retryAfter) - {url}
    {
      if res.Ok? {
        match res.response.retryAfter {
          case Text(val) =>
            var timestamp := ParseRetryValue(val, now, parseDate);
            if timestamp.Some? {
              retryAfter := retryAfter[url := timestamp.value];
            }
          case NonAscii =>
          case Absent =>
            retryAfter := retryAfter - {url};
        }
      }
      out := res;
    }

    /**
      `handle`: the pre-request step at time `before`, then the single call
      of `next` (whose outcome is `res`), then the post-response step with the
      value parsed at time `after`.
    */
    method Handle<Payload, Error>(
      url: Url, before: Time, res: Outcome<Payload, Error>, after: Time, parseDate: string -> Option<Time>)
      returns (wait: nat, out: Outcome<Payload, Error>)
      modifies this
      ensures wait == WaitFor(old(retryAfter), url, before)
      ensures out == res
      ensures retryAfter == CacheAfter(old(retryAfter), url, res, after, parseDate)
    {
      wait := BeforeRequest(url, before);
      out := AfterResponse(url, res, after, parseDate);
    }
  }
}
