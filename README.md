# reqwest-retry-after, modelled in Dafny

`RetryAfterMiddleware` is a `reqwest_middleware` interceptor that honours
the `Retry-After` response header (section 10.2.3 of RFC 9110). It keeps a
cache in one map, from request URL to an absolute deadline. Before a request
it looks its URL up and sleeps until the stored deadline if that deadline is
still ahead. After the response it stores the deadline the response
announces, or removes the entry when the response has no `Retry-After`
header. A header value is either a number of seconds, read with Rust's
`u64::from_str` and added to the current time, or a date, read with the
`time` crate's RFC 2822 parser.

The model has five modules:

- `Wrappers`: the `Option` type.
- `DecimalU64`: `u64::from_str`,
  as the standard library's checked digit loop (`ParseU64`, `Accumulate`).
  It is proved equal to an independent description of the accepted strings
  (`IsU64Literal`, `Value`), and proved inverse to `to_string` (`DecimalString`).
- `RetryValue`: `parse_retry_value` (`ParseRetryValue`).
- `Middleware`: the response outcome as the middleware sees it. Specification
  functions for the lookup (`Lookup`), the pre-request wait (`WaitFor`) and
  the post-response cache (`CacheAfter`), with lemmas relating them. The
  class `RetryAfterMiddleware` holds the `retryAfter` map field; its methods
  are `BeforeRequest`, `AfterResponse` and `Handle`.
- `Scenarios`: the two request sequences of `src/test.rs`, replayed as client
  code against the class.

Modelling choices:

- Time is an integer count of nanoseconds since the Unix epoch
  (`SystemTime`'s resolution on Unix). A delay of `n` seconds adds `n * 10^9`.
- The current time is a parameter. `BeforeRequest` and `ParseRetryValue`
  each take their own `now`, because the source reads the clock at two
  separate points (`src/lib.rs:60` and `src/lib.rs:79`).
- The URL is a type parameter that only needs equality. No URL normalisation
  is modelled.
- The RFC 2822 date parser is a parameter `parseDate: string -> Option<Time>`.
  Every result holds for every such parser.
- The `Retry-After` header of a response is one of three cases: `Absent`,
  `NonAscii` (`to_str` fails) or `Text(s)`.
- The sleep is the `wait` that `BeforeRequest` returns. `BeforeRequest` has
  no `modifies` clause, so it cannot change the cache.
- A `Retry-After` header that is not ASCII, or whose value does not parse,
  leaves the map unchanged, including any stale entry for the URL
  (`src/lib.rs:89-99`). Only a response with no `Retry-After` header removes
  the entry (`src/lib.rs:100-102`). The model follows this (`CacheAfter`,
  `AfterResponse`).
- Stored deadlines that have already passed are not evicted. They cost no
  wait (`PastDateNoWait`). They remain until a response for that URL without
  the header removes them, or one with a parseable value replaces them
  (`LastDeadlineWins`).
- Delay-seconds in RFC 9110 is digits only. `u64::from_str` also accepts one
  leading `+`, so the source does too (`PlusSignIgnored`).

## Model

| member | source | states |
|---|---|---|
| `DecimalU64.Accumulate` | src/lib.rs:59 | the digit loop of `u64::from_str` (checked multiply, then checked add, left to right) never yields a value above 2^64-1 |
| `DecimalU64.ParseU64` | src/lib.rs:59 | `val.parse::<u64>()`: empty input and a lone sign are refused, one leading `+` is skipped; any value it yields fits in `u64` |
| `DecimalU64.DecimalString` | src/test.rs:32 | `to_string` of an unsigned integer is a non-empty string of decimal digits |
| `DecimalU64.AccumulateSnoc` | src/lib.rs:59 | the digit loop over `ds + [c]` is the loop over `ds`, then one more step on `c`, and stops early if that loop fails |
| `DecimalU64.AccumulateCorrect` | src/lib.rs:59 | the digit loop from zero succeeds exactly on all-digit strings whose decimal value is at most 2^64-1, and returns that value |
| `DecimalU64.ParseU64Correct` | src/lib.rs:59 | `ParseU64(s)` is `Some(v)` exactly when `s` is an optional `+` followed by one or more digits denoting `v <= 2^64-1`, and `None` otherwise (both directions) |
| `DecimalU64.ValueOfDecimalString` | src/test.rs:32 | the digits printed by `to_string` denote the number printed |
| `DecimalU64.DecimalStringRoundTrip` | src/lib.rs:59 | parsing the decimal printing of any `n <= 2^64-1` gives back `n` |
| `DecimalU64.PlusSignIgnored` | src/lib.rs:59 | `+` followed by the printing of `n` parses to `n` |
| `DecimalU64.OverflowRejected` | src/lib.rs:59 | the printing of any `n > 2^64-1` is refused |
| `RetryValue.ParseRetryValue` | src/lib.rs:58-66 | a `u64` literal gives `now` plus that many seconds; any other value gives exactly what the date parser gives |
| `RetryValue.DelaySecondsTakesPrecedence` | src/lib.rs:59-61 | when the integer parse succeeds, any two date parsers give the same result, `now + secs` seconds |
| `RetryValue.NoDeadlineIff` | src/lib.rs:58-66 | there is no deadline exactly when the value is not a `u64` literal and the date parser fails too |
| `RetryValue.DelaySecondsDeadline` | src/lib.rs:59-60 | `Retry-After: n`, printed as Rust prints `n`, yields the deadline `now + n` seconds |
| `Middleware.Deadline` | src/lib.rs:89-92 | a response announces a deadline only through a `Retry-After` header that is ASCII text and parses, and always does when it parses |
| `Middleware.Lookup` | src/lib.rs:78 | `get(&url)` is `Some(t)` exactly when the URL is cached, with `t` its stored deadline |
| `Middleware.WaitFor` | src/lib.rs:78-84 | no entry means no wait; with an entry, waiting `w` reaches the deadline, and a positive `w` ends exactly at the deadline, so a past deadline costs nothing |
| `Middleware.CacheAfter` | src/lib.rs:86-104 | every other URL keeps its entry; a transport error, a non-ASCII header and an unparseable value leave the cache unchanged; a parsed deadline becomes the URL's entry; a missing header removes the URL |
| `Middleware.CacheAfterIdempotent` | src/lib.rs:89-97 | two identical responses in a row (same time, same header) leave the cache as one does |
| `Middleware.LastDeadlineWins` | src/lib.rs:93-96 | a response whose value parses leaves the same cache whatever an earlier response for that URL, at any time, did before it |
| `Middleware.OtherUrlsNotDelayed` | src/lib.rs:76-106 | a response for one URL never changes the wait of a request to any other URL |
| `Middleware.DelaySecondsHonoured` | src/lib.rs:78-97 | after `Retry-After: n` read at `now`, the URL's entry is `now + n` seconds and a later request to it, issued at any time, does not proceed before then |
| `Middleware.PastDateNoWait` | src/lib.rs:62-63 | a date deadline already passed when the next request is issued costs no wait, and the entry stays in the cache |
| `Middleware.AbsentHeaderLiftsRestriction` | src/lib.rs:100-102 | after a response without the header, the URL has no entry and its next request does not wait, whatever was stored before |
| `Middleware.AbsentHeaderOnUnknownUrl` | src/lib.rs:101 | removing an entry that is not there leaves the cache unchanged |
| `Middleware.RetryAfterMiddleware.constructor` | src/lib.rs:45-55 | `new` (and `default`, which calls it) starts with an empty cache |
| `Middleware.RetryAfterMiddleware.BeforeRequest` | src/lib.rs:78-84 | the sleep is `WaitFor` of the cache: zero without an entry, `t - now` for an entry `t >= now`, zero for a past `t`; the cache is not modified |
| `Middleware.RetryAfterMiddleware.AfterResponse` | src/lib.rs:86-105 | returns the outcome of `next` unchanged; the new cache is `CacheAfter` of the old one, and every other URL's entry is unchanged |
| `Middleware.RetryAfterMiddleware.Handle` | src/lib.rs:70-106 | the wait is computed from the cache before the call of `next`, the outcome of `next` is returned as is, and the cache after is `CacheAfter` of the cache before |
| `Scenarios.DelaySecondsScenario` | src/test.rs:14-79 | fresh middleware, `Retry-After: 2` on `/`, then `/normal` and `/` again: the first and `/normal` requests do not wait, the entry after the first response is exactly two seconds after it was read, `/normal` gets no entry and `/`'s entry is untouched by it, the second `/` request does not proceed before two seconds after the first response, and the cache ends empty |
| `Scenarios.DateScenario` | src/test.rs:81-128 | with a date the parser reads as `d`, the next request to the URL does not proceed before `d`, and its header-less response empties the cache |

## Left out

- The `tokio::sync::RwLock` around the map and the async structure (`src/lib.rs:35`, `src/lib.rs:78`, `src/lib.rs:93-95`, `src/lib.rs:101`) are left out. This is concurrency. The model runs one `handle` at a time. So it does not capture that the read guard taken at `src/lib.rs:78` stays held during the sleep.
- `tokio::time::sleep` (`src/lib.rs:82`) is left out. It is timing; the model returns the wait amount instead.
- `SystemTime::now()` (`src/lib.rs:60`, `src/lib.rs:79`) is left out. It is a clock; the time is a parameter.
- `next.run` (`src/lib.rs:86`) is left out. It is the network and the rest of the middleware chain; its outcome is an input.
- The RFC 2822 parser of the `time` crate (`src/lib.rs:62`) and the conversion of its date into `SystemTime` are left out. They are a foreign library, so the parser is a function parameter.
- `HeaderValue::to_str` and `headers().get` (`src/lib.rs:89-91`) are left out. They belong to the `http` crate; the header is one of `Absent`, `NonAscii` and `Text`.
- `ParseRetryValue`: does not model the panic of `SystemTime + Duration` when the sum leaves `SystemTime`'s range, because time is an unbounded integer here.
- `ParseU64`: models the checked digit loop only, not the standard library's unchecked fast path for inputs of at most 16 digits. The two give the same results, and the model does not tell errors apart (empty, invalid digit, overflow), because the source only asks whether parsing succeeded.
- URL parsing and normalisation are left out; a URL is an opaque key compared by equality.
- The mock HTTP server and the wall-clock measurements of `src/test.rs` are left out. They are I/O; `Scenarios` restates what the test asserts.
