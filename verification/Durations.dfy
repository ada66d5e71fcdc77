/** The duration printers of src/command.rs, and readers for what they print. */
module Durations {
  import opened Decimal
  import opened Texts
  import opened Wrappers

  const U64_MAX: nat := 0xffff_ffff_ffff_ffff
  const NANOS: nat := 1_000_000_000

  datatype RawDuration = Duration(seconds: nat, nanos: nat) {
    predicate Valid() {
      seconds <= U64_MAX && nanos < NANOS
    }

    function Total(): nat {
      seconds * NANOS + nanos
    }
  }

  /** `std::time::Duration`: whole seconds in a `u64` and fewer than 10^9 nanoseconds. */
  type Duration = d: RawDuration | d.Valid() witness RawDuration.Duration(0, 0)

  // ---- Reading decimal seconds ----

  /** The nanoseconds a plain decimal number of seconds denotes, with at most nine decimals. */
  function ReadSeconds(s: string): Option<nat> {
    var dot := IndexOf(s, '.');
    var whole := s[..dot];
    if whole == "" || !AllDigits(whole) then None
    else if dot == |s| then Some(Value(whole) * NANOS)
    else ReadFraction(Value(whole), s[dot + 1..])
  }

  function ReadFraction(whole: nat, fraction: string): Option<nat> {
    if AllDigits(fraction) && 0 < |fraction| <= 9
    then Some(whole * NANOS + Nanoseconds(fraction))
    else None
  }

  function Nanoseconds(fraction: string): nat
    requires AllDigits(fraction) && |fraction| <= 9
  {
    Value(fraction) * Pow10(9 - |fraction|)
  }

  /** No sign of redundancy: no leading zero, no trailing zero after a point, no trailing point. */
  predicate Shortest(s: string) {
    && s != "" && (|s| > 1 && s[0] == '0' ==> s[1] == '.')
    && ('.' in s ==> s[|s| - 1] != '0' && s[|s| - 1] != '.')
  }

  /** `{nanos:09}` with its trailing zeros popped one at a time, as the loop does. */
  method DecimalSecondsArg(duration: Duration) returns (text: string)
    ensures ReadSeconds(text) == Some(duration.Total())
    ensures Shortest(text)
  {
    hide Nanoseconds;
    var seconds, nanos := duration.seconds, duration.nanos;
    if nanos == 0 {
      ValueOfText(seconds);
      NoPointInDigits(Text(seconds));
      return Text(seconds);
    }
    ghost var whole, digits := Text(seconds), Padded(nanos, 9);
    var value := Text(seconds) + "." + Padded(nanos, 9);
    ghost var kept := 9;
    NanosDigits(nanos);
    assert digits[..9] == digits;
    while value[|value| - 1] == '0'
      invariant 0 < kept <= |digits| == 9
      invariant value == whole + "." + digits[..kept]
      invariant Nanoseconds(digits[..kept]) == nanos
      decreases |value|
    {
      PopZero(digits[..kept]);
      assert digits[..kept][..kept - 1] == digits[..kept - 1];
      kept := kept - 1;
      value := value[..|value| - 1];
    }
    text := value;
    ValueOfText(seconds);
    PointIsFound(whole, digits[..kept]);
  }

  lemma NanosDigits(nanos: nat)
    requires nanos < NANOS
    ensures |Padded(nanos, 9)| == 9 && Nanoseconds(Padded(nanos, 9)) == nanos
  {
    assert Pow10(3) == 1000 by { assert Pow10(1) == 10; assert Pow10(2) == 100; }
    assert Pow10(9) == NANOS by { assert Pow10(5) == 100_000; assert Pow10(7) == 10_000_000; }
    PaddedLength(nanos, 9);
    ValueOfPadded(nanos, 9);
    assert Pow10(0) == 1;
  }

  /** Popping one zero keeps the fraction, so a fraction that is not zero keeps a digit. */
  lemma PopZero(digits: string)
    requires AllDigits(digits) && 0 < |digits| <= 9 && digits[|digits| - 1] == '0'
    ensures Nanoseconds(digits) == Nanoseconds(digits[..|digits| - 1])
    ensures |digits| == 1 ==> Nanoseconds(digits) == 0
  {
    MulTen(Value(digits[..|digits| - 1]), Pow10(9 - |digits|));
    assert |digits| == 1 ==> digits[..0] == "";
  }

  lemma NoPointInDigits(whole: string)
    requires AllDigits(whole)
    ensures '.' !in whole && IndexOf(whole, '.') == |whole| && whole[..|whole|] == whole
  {
  }

  lemma PointIsFound(whole: string, fraction: string)
    requires AllDigits(whole) && whole != ""
    ensures ReadSeconds(whole + "." + fraction) == ReadFraction(Value(whole), fraction)
  {
    hide Value, ReadFraction;
    var s := whole + "." + fraction;
    assert s[|whole|] == '.';
    forall k | 0 <= k < |whole| ensures s[k] != '.' {
      assert IsDigit(whole[k]);
    }
    assert IndexOf(s, '.') == |whole|;
    assert s[..|whole|] == whole && s[|whole| + 1..] == fraction;
  }

  // ---- Whole units, rounded up ----

  /** `n` is the least number of units of `size` nanoseconds that covers `total`. */
  predicate Ceiling(n: nat, size: nat, total: nat) {
    n * size >= total && (n > 0 ==> (n - 1) * size < total)
  }

  function WholeSeconds(duration: Duration): nat {
    if duration.nanos == 0 then duration.seconds
    else if duration.seconds == U64_MAX then U64_MAX else duration.seconds + 1
  }

  function WholeSecondsArg(duration: Duration): string {
    Text(WholeSeconds(duration))
  }

  function MillisecondsArg(duration: Duration): string {
    var millis := duration.seconds * 1_000 + duration.nanos / 1_000_000;
    if duration.nanos % 1_000_000 != 0 then Text(millis + 1) else Text(millis)
  }

  /** The whole-second text is the exact ceiling unless, and only unless, that would not fit a `u64`. */
  lemma WholeSecondsIsCeiling(duration: Duration)
    ensures var n := Value(WholeSecondsArg(duration));
            && n <= U64_MAX
            && (Ceiling(n, NANOS, duration.Total()) <==> duration.Total() <= U64_MAX * NANOS)
            && (duration.Total() > U64_MAX * NANOS ==> n == U64_MAX)
  {
    ValueOfText(WholeSeconds(duration));
  }

  /** The millisecond text is always the exact ceiling. */
  lemma MillisecondsIsCeiling(duration: Duration)
    ensures Ceiling(Value(MillisecondsArg(duration)), 1_000_000, duration.Total())
  {
    var millis := duration.seconds * 1_000 + duration.nanos / 1_000_000;
    ValueOfText(millis);
    ValueOfText(millis + 1);
  }
}
