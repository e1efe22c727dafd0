/**
  The delay-seconds form of `Retry-After` is read with Rust's `u64::from_str`:
  one optional leading `+`, then one or more ASCII digits whose value must fit
  in 64 unsigned bits; anything else is an error. `ParseU64` follows the
  standard library's algorithm (checked multiply-then-add, left to right);
  `IsU64Literal`/`Value` are an independent description of the same language,
  and `DecimalString` (Rust's `to_string`) is its inverse.
*/
module DecimalU64 {
  import opened Wrappers

  /** Largest value of Rust's `u64`, 2^64 - 1. */
  const U64Max: nat := 0xFFFF_FFFF_FFFF_FFFF

  predicate IsDigit(c: char) {
    '0' <= c <= '9'
  }

  function DigitValue(c: char): (d: nat)
    requires IsDigit(c)
    ensures d < 10
  {
    (c as int) - ('0' as int)
  }

  function DigitChar(d: nat): (c: char)
    requires d < 10
    ensures IsDigit(c) && DigitValue(c) == d
  {
    (('0' as int) + d) as char
  }

  predicate AllDigits(ds: string) {
    forall i :: 0 <= i < |ds| ==> IsDigit(ds[i])
  }

  /** The number a string of digits denotes, read most significant digit first. */
  function Value(ds: string): nat
    requires AllDigits(ds)
  {
    if |ds| == 0 then 0 else Value(ds[..|ds| - 1]) * 10 + DigitValue(ds[|ds| - 1])
  }

  /** The digit part of a literal: the input with one leading `+` dropped. */
  function DigitsOf(s: string): string {
    if |s| > 0 && s[0] == '+' then s[1..] else s
  }

  /** The strings `u64::from_str` accepts: the reference language. */
  predicate IsU64Literal(s: string) {
    var ds := DigitsOf(s);
    |ds| > 0 && AllDigits(ds) && Value(ds) <= U64Max
  }

  /**
    The standard library's digit loop: each character must be a digit, and
    `acc * 10` and then `+ digit` must each stay within `u64`
    (`checked_mul`, `checked_add`); the first failure ends the parse.
  */
  function Accumulate(acc: nat, ds: string): (r: Option<nat>)
    requires acc <= U64Max
    ensures r.Some? ==> r.value <= U64Max
    decreases |ds|
  {
    if |ds| == 0 then Some(acc)
    else if !IsDigit(ds[0]) then None
    else if acc * 10 > U64Max then None
    else if acc * 10 + DigitValue(ds[0]) > U64Max then None
    else Accumulate(acc * 10 + DigitValue(ds[0]), ds[1..])
  }

  /**
    `u64::from_str`: the empty string is refused, so is a lone sign
    character; one leading `+` is skipped; the rest goes through the digit loop.
  */
  function ParseU64(s: string): (r: Option<nat>)
    ensures r.Some? ==> r.value <= U64Max
  {
    if |s| == 0 then None
    else if |s| == 1 && (s[0] == '+' || s[0] == '-') then None
    else Accumulate(0, if s[0] == '+' then s[1..] else s)
  }

  /** Rust's `to_string` on an unsigned integer: its decimal digits, no sign, no leading zeros. */
  function DecimalString(n: nat): (s: string)
    ensures |s| > 0 && AllDigits(s)
    decreases n
  {
    (if n < 10 then "" else DecimalString(n / 10)) + [DigitChar(n % 10)]
  }

  /** One more step of the digit loop is one more call at the end of the input. */
  lemma {:induction false} AccumulateSnoc(acc: nat, ds: string, c: char)
    requires acc <= U64Max
    ensures Accumulate(acc, ds + [c]) ==
      match Accumulate(acc, ds)
      case None => None
      case Some(v) => Accumulate(v, [c])
    decreases |ds|
  {
    if |ds| == 0 {
      assert ds + [c] == [c];
    } else {
      assert (ds + [c])[0] == ds[0];
      assert (ds + [c])[1..] == ds[1..] + [c];
      if IsDigit(ds[0]) && acc * 10 + DigitValue(ds[0]) <= U64Max {
        AccumulateSnoc(acc * 10 + DigitValue(ds[0]), ds[1..], c);
      }
    }
  }

  /** The digit loop started at zero accepts exactly the digit strings whose value fits. */
  lemma {:induction false} AccumulateCorrect(ds: string)
    ensures Accumulate(0, ds) ==
      if AllDigits(ds) && Value(ds) <= U64Max then Some(Value(ds)) else None
    decreases |ds|
  {
    if |ds| > 0 {
      var init, c := ds[..|ds| - 1], ds[|ds| - 1];
      assert ds == init + [c];
      AccumulateSnoc(0, init, c);
      AccumulateCorrect(init);
      assert AllDigits(ds) ==> AllDigits(init);
      assert AllDigits(init) && IsDigit(c) ==> AllDigits(ds) by {
        forall i | 0 <= i < |ds| && AllDigits(init) && IsDigit(c) ensures IsDigit(ds[i]) {
          if i < |init| { assert ds[i] == init[i]; }
        }
      }
    }
  }

  /** `ParseU64` accepts exactly the `u64` literals, and returns the value they denote. */
  lemma ParseU64Correct(s: string)
    ensures ParseU64(s) == if IsU64Literal(s) then Some(Value(DigitsOf(s))) else None
  {
    if |s| > 0 && !(|s| == 1 && (s[0] == '+' || s[0] == '-')) {
      AccumulateCorrect(DigitsOf(s));
      if s[0] == '-' {
        assert !IsDigit(DigitsOf(s)[0]);
      }
    }
  }

  /** The digits `to_string` prints denote the number printed. */
  lemma {:induction false} ValueOfDecimalString(n: nat)
    ensures Value(DecimalString(n)) == n
    decreases n
  {
    var s := DecimalString(n);
    var init := if n < 10 then "" else DecimalString(n / 10);
    var last := DigitChar(n % 10);
    assert s == init + [last];
    assert s[..|s| - 1] == init && s[|s| - 1] == last;
    assert Value(s) == Value(init) * 10 + n % 10;
    if n >= 10 {
      ValueOfDecimalString(n / 10);
      assert Value(init) == n / 10;
    }
  }

  /** Round trip: parsing what `to_string` prints gives back every `u64`. */
  lemma DecimalStringRoundTrip(n: nat)
    requires n <= U64Max
    ensures ParseU64(DecimalString(n)) == Some(n)
  {
    var s := DecimalString(n);
    assert s[0] != '+' by { assert IsDigit(s[0]); }
    ValueOfDecimalString(n);
    ParseU64Correct(s);
  }

  /** A single leading `+` is accepted and changes nothing. */
  lemma PlusSignIgnored(n: nat)
    requires n <= U64Max
    ensures ParseU64("+" + DecimalString(n)) == Some(n)
  {
    var s := DecimalString(n);
    assert ("+" + s)[1..] == s;
    assert s[0] != '+' by { assert IsDigit(s[0]); }
    ValueOfDecimalString(n);
    ParseU64Correct("+" + s);
  }

  /** Every value above `u64::MAX` is refused, however it is written. */
  lemma OverflowRejected(n: nat)
    requires n > U64Max
    ensures ParseU64(DecimalString(n)) == None
  {
    var s := DecimalString(n);
    assert s[0] != '+' by { assert IsDigit(s[0]); }
    ValueOfDecimalString(n);
    ParseU64Correct(s);
  }
}
