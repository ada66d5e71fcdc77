/**
 The build date of build.rs: closed-form civil-calendar arithmetic over days since 1970-01-01,
 and the ISO 8601 text made from it.
 */
module Calendar {
  import opened Decimal
  import opened Wrappers

  datatype Date = Date(year: int, month: int, day: int)

  // ---- The proleptic Gregorian calendar, one day at a time ----

  predicate IsLeap(year: int) {
    year % 4 == 0 && (year % 100 != 0 || year % 400 == 0)
  }

  function DaysInMonth(year: int, month: int): (n: int)
    ensures 28 <= n <= 31
  {
    if month == 2 then (if IsLeap(year) then 29 else 28)
    else if month == 4 || month == 6 || month == 9 || month == 11 then 30
    else 31
  }

  predicate ValidDate(d: Date) {
    1 <= d.month <= 12 && 1 <= d.day <= DaysInMonth(d.year, d.month)
  }

  function NextDay(d: Date): Date {
    if d.day < DaysInMonth(d.year, d.month) then d.(day := d.day + 1)
    else if d.month < 12 then Date(d.year, d.month + 1, 1)
    else Date(d.year + 1, 1, 1)
  }

  function PreviousDay(d: Date): Date {
    if d.day > 1 then d.(day := d.day - 1)
    else if d.month > 1 then Date(d.year, d.month - 1, DaysInMonth(d.year, d.month - 1))
    else Date(d.year - 1, 12, 31)
  }

  /** The calendar walked `n` days forward (or `-n` days back) from 1970-01-01. */
  function Walk(n: int): Date
    decreases if n < 0 then -n else n
  {
    if n == 0 then Date(1970, 1, 1)
    else if n > 0 then NextDay(Walk(n - 1))
    else PreviousDay(Walk(n + 1))
  }

  // ---- The closed form of build.rs ----

  /** Rust's integer division, which truncates toward zero. */
  function TruncDiv(a: int, b: int): int
    requires b > 0
  {
    if a >= 0 then a / b else -((-a) / b)
  }

  function CivilFromDays(daysSinceUnixEpoch: int): Date {
    var days := daysSinceUnixEpoch + 719_468;
    var era := TruncDiv(if days >= 0 then days else days - 146_096, 146_097);
    CivilInEra(era, days - era * 146_097)
  }

  /** The part of the closed form after the era is split off. */
  function CivilInEra(era: int, dayOfEra: int): Date {
    var yearOfEra := TruncDiv(
                       dayOfEra - TruncDiv(dayOfEra, 1_460) + TruncDiv(dayOfEra, 36_524) - TruncDiv(dayOfEra, 146_096),
                       365);
    var dayOfYear := dayOfEra - (365 * yearOfEra + TruncDiv(yearOfEra, 4) - TruncDiv(yearOfEra, 100));
    var monthParameter := TruncDiv(5 * dayOfYear + 2, 153);
    var day := dayOfYear - TruncDiv(153 * monthParameter + 2, 5) + 1;
    var month := monthParameter + if monthParameter < 10 then 3 else -9;
    var year := yearOfEra + era * 400;
    Date(if month <= 2 then year + 1 else year, month, day)
  }

  // ---- A day number for every date ----

  /** The day number of a date, counting years from 1 March: leap days then fall at year ends. */
  function DayNumber(d: Date): int {
    var y := if d.month <= 2 then d.year - 1 else d.year;
    var m := if d.month <= 2 then d.month + 9 else d.month - 3;
    365 * y + y / 4 - y / 100 + y / 400 + (153 * m + 2) / 5 + d.day - 1 - 719_468
  }

  /** Stepping a dividend by one steps the quotient exactly at the multiples. */
  lemma QuotientStep(y: int, k: int)
    requires k > 0
    ensures y / k == (y - 1) / k + if y % k == 0 then 1 else 0
  {
    var q, r := (y - 1) / k, (y - 1) % k;
    assert y == k * q + (r + 1);
    if r + 1 == k {
      assert y == k * (q + 1);
      QuotientIs(y, k, q + 1, 0);
    } else {
      QuotientIs(y, k, q, r + 1);
    }
  }

  lemma QuotientIs(y: int, k: int, q: int, r: int)
    requires k > 0 && 0 <= r < k && y == k * q + r
    ensures y / k == q && y % k == r
  {
    var d := y / k - q;
    assert k * d == r - y % k;
    assert d >= 1 ==> k * d >= k;
    assert d <= -1 ==> k * d <= -k;
  }

  /** Leap days are counted where the naive calendar has them. */
  lemma LeapDayStep(y: int)
    ensures y / 4 - y / 100 + y / 400 == (y - 1) / 4 - (y - 1) / 100 + (y - 1) / 400 + if IsLeap(y) then 1 else 0
  {
    QuotientStep(y, 4);
    QuotientStep(y, 100);
    QuotientStep(y, 400);
    assert y % 400 == 0 ==> y % 100 == 0;
    assert y % 100 == 0 ==> y % 4 == 0;
  }

  lemma NextDayIsOneLater(d: Date)
    requires ValidDate(d)
    ensures ValidDate(NextDay(d)) && DayNumber(NextDay(d)) == DayNumber(d) + 1
  {
    if d.month == 2 && d.day == DaysInMonth(d.year, 2) {
      LeapDayStep(d.year);
    }
  }

  lemma PreviousDayIsOneEarlier(d: Date)
    requires ValidDate(d)
    ensures ValidDate(PreviousDay(d)) && DayNumber(PreviousDay(d)) == DayNumber(d) - 1
  {
    assert NextDay(PreviousDay(d)) == d;
    NextDayIsOneLater(PreviousDay(d));
  }

  lemma {:induction false} WalkCountsDays(n: int)
    ensures ValidDate(Walk(n)) && DayNumber(Walk(n)) == n
    decreases if n < 0 then -n else n
  {
    if n > 0 {
      WalkCountsDays(n - 1);
      NextDayIsOneLater(Walk(n - 1));
    } else if n < 0 {
      WalkCountsDays(n + 1);
      PreviousDayIsOneEarlier(Walk(n + 1));
    }
  }

  // ---- The closed form inverts the day number ----

  /** Within an era, century `c`, four-year cycle `q` and year `r` are recovered from the day. */
  lemma YearOfEraIsRecovered(c: int, q: int, r: int, dayOfYear: int)
    requires 0 <= c <= 3 && 0 <= q <= 24 && 0 <= r <= 3 && 0 <= dayOfYear <= 365
    requires dayOfYear == 365 ==> r == 3 && (q != 24 || c == 3)
    ensures var doe := 36_524 * c + 1_461 * q + 365 * r + dayOfYear;
            0 <= doe < 146_097
            && (doe - doe / 1_460 + doe / 36_524 - doe / 146_096) / 365 == 100 * c + 4 * q + r
  {
    var doe := 36_524 * c + 1_461 * q + 365 * r + dayOfYear;
    var e1 := if 24 * c + q + 365 * r + dayOfYear >= 1_460 then 1 else 0;
    assert doe / 1_460 == 25 * c + q + e1;
    var e2 := if doe >= 36_524 * (c + 1) then 1 else 0;
    assert doe / 36_524 == c + e2;
  }

  lemma MonthIsRecovered(m: int, day: int)
    requires 0 <= m <= 11 && 1 <= day <= 31
    requires day == 31 ==> m != 1 && m != 3 && m != 6 && m != 8
    requires m == 11 ==> day <= 29
    ensures var dayOfYear := (153 * m + 2) / 5 + day - 1;
            0 <= dayOfYear <= 365 && (5 * dayOfYear + 2) / 153 == m
            && (dayOfYear == 365 <==> m == 11 && day == 29)
  {
  }

  /** The closed form, step by step, once its two divisions are known to recover year and month. */
  lemma CivilInEraSteps(era: int, doe: int, yoe: int, doy: int, m: int, day: int)
    requires 0 <= doe < 146_097 && 0 <= yoe < 400 && 0 <= doy <= 365 && 0 <= m <= 11
    requires (doe - doe / 1_460 + doe / 36_524 - doe / 146_096) / 365 == yoe
    requires doe == 365 * yoe + yoe / 4 - yoe / 100 + doy
    requires (5 * doy + 2) / 153 == m && day == doy - (153 * m + 2) / 5 + 1
    ensures CivilInEra(era, doe)
            == if m < 10 then Date(yoe + era * 400, m + 3, day) else Date(yoe + era * 400 + 1, m - 9, day)
  {
    var numerator := doe - doe / 1_460 + doe / 36_524 - doe / 146_096;
    assert numerator >= 0;
    assert TruncDiv(numerator, 365) == yoe;
  }

  /** The era split off by the truncating division is the floor, for negative days as well. */
  lemma EraIsFloor(era: int, doe: int)
    requires 0 <= doe < 146_097
    ensures CivilFromDays(146_097 * era + doe - 719_468) == CivilInEra(era, doe)
  {
    hide CivilInEra;
    var days := 146_097 * era + doe;
    assert TruncDiv(if days >= 0 then days else days - 146_096, 146_097) == era;
  }

  lemma LeapDaysInEra(c: int, q: int, r: int)
    requires 0 <= c <= 3 && 0 <= q <= 24 && 0 <= r <= 3
    ensures var yoe := 100 * c + 4 * q + r;
            yoe / 4 == 25 * c + q && yoe / 100 == c
  {
  }

  /** The closed form on a March-based year split into era, century, cycle and year. */
  lemma CivilOfParts(era: int, c: int, q: int, r: int, doy: int, m: int, day: int)
    requires 0 <= c <= 3 && 0 <= q <= 24 && 0 <= r <= 3
    requires 0 <= doy <= 365 && 0 <= m <= 11
    requires (5 * doy + 2) / 153 == m && day == doy - (153 * m + 2) / 5 + 1
    requires doy == 365 ==> r == 3 && (q != 24 || c == 3)
    ensures var year := 100 * c + 4 * q + r + era * 400;
            CivilFromDays(146_097 * era + 36_524 * c + 1_461 * q + 365 * r + doy - 719_468)
            == if m < 10 then Date(year, m + 3, day) else Date(year + 1, m - 9, day)
  {
    hide CivilFromDays, CivilInEra;
    var doe := 36_524 * c + 1_461 * q + 365 * r + doy;
    YearOfEraIsRecovered(c, q, r, doy);
    LeapDaysInEra(c, q, r);
    CivilInEraSteps(era, doe, 100 * c + 4 * q + r, doy, m, day);
    EraIsFloor(era, doe);
  }

  /** Splitting a March-based year count into 400-, 100- and 4-year parts. */
  lemma YearParts(y: int) returns (era: int, c: int, q: int, r: int)
    ensures 0 <= c <= 3 && 0 <= q <= 24 && 0 <= r <= 3
    ensures y == 400 * era + 100 * c + 4 * q + r
    ensures y / 4 == 100 * era + 25 * c + q && y / 100 == 4 * era + c && y / 400 == era
    ensures IsLeap(y + 1) <==> r == 3 && (q != 24 || c == 3)
  {
    era := y / 400;
    c := y % 400 / 100;
    q := y % 400 % 100 / 4;
    r := y % 400 % 100 % 4;
    QuotientIs(y, 4, 100 * era + 25 * c + q, r);
    QuotientIs(y, 100, 4 * era + c, 4 * q + r);
    LeapByParts(y, era, c, q, r);
  }

  lemma LeapByParts(y: int, era: int, c: int, q: int, r: int)
    requires 0 <= c <= 3 && 0 <= q <= 24 && 0 <= r <= 3
    requires y == 400 * era + 100 * c + 4 * q + r
    ensures IsLeap(y + 1) <==> r == 3 && (q != 24 || c == 3)
  {
    if r == 3 {
      QuotientIs(y + 1, 4, 100 * era + 25 * c + q + 1, 0);
    } else {
      QuotientIs(y + 1, 4, 100 * era + 25 * c + q, r + 1);
    }
    if r == 3 && q == 24 {
      QuotientIs(y + 1, 100, 4 * era + c + 1, 0);
    } else {
      QuotientIs(y + 1, 100, 4 * era + c, 4 * q + r + 1);
    }
    if r == 3 && q == 24 && c == 3 {
      QuotientIs(y + 1, 400, era + 1, 0);
    } else {
      QuotientIs(y + 1, 400, era, 100 * c + 4 * q + r + 1);
    }
  }

  lemma ClosedFormInvertsDayNumber(d: Date)
    requires ValidDate(d)
    ensures CivilFromDays(DayNumber(d)) == d
  {
    hide CivilFromDays, IsLeap;
    var y := if d.month <= 2 then d.year - 1 else d.year;
    var m := if d.month <= 2 then d.month + 9 else d.month - 3;
    var era, c, q, r := YearParts(y);
    MonthIsRecovered(m, d.day);
    CivilOfParts(era, c, q, r, (153 * m + 2) / 5 + d.day - 1, m, d.day);
    assert DayNumber(d) == 146_097 * era + 36_524 * c + 1_461 * q + 365 * r + (153 * m + 2) / 5 + d.day - 1 - 719_468;
  }

  /** Main result: the closed form is the calendar walked day by day, for every integer day count. */
  lemma CivilIsWalk(n: int)
    ensures CivilFromDays(n) == Walk(n)
    ensures ValidDate(CivilFromDays(n))
    ensures DayNumber(CivilFromDays(n)) == n
  {
    WalkCountsDays(n);
    ClosedFormInvertsDayNumber(Walk(n));
  }

  /** Main result: every valid date comes from exactly one day count. */
  lemma CivilIsBijection(d: Date, n: int)
    requires ValidDate(d)
    ensures CivilFromDays(n) == d <==> n == DayNumber(d)
  {
    CivilIsWalk(n);
    ClosedFormInvertsDayNumber(d);
  }

  // ---- Where 64-bit arithmetic suffices ----

  const I64_MAX: int := 0x7fff_ffff_ffff_ffff
  const I64_MIN: int := -0x8000_0000_0000_0000
  const U64_MAX: int := 0xffff_ffff_ffff_ffff

  predicate InI64(x: int) {
    I64_MIN <= x <= I64_MAX
  }

  /** Every value the closed form computes on the way fits an `i64`. */
  predicate ComputesInI64(daysSinceUnixEpoch: int) {
    var days := daysSinceUnixEpoch + 719_468;
    var shifted := if days >= 0 then days else days - 146_096;
    var era := TruncDiv(shifted, 146_097);
    var doe := days - era * 146_097;
    var yoe := TruncDiv(doe - TruncDiv(doe, 1_460) + TruncDiv(doe, 36_524) - TruncDiv(doe, 146_096), 365);
    var doy := doe - (365 * yoe + TruncDiv(yoe, 4) - TruncDiv(yoe, 100));
    && InI64(days) && InI64(shifted) && InI64(era * 146_097) && InI64(doe)
    && InI64(365 * yoe) && InI64(era * 400) && InI64(yoe + era * 400 + 1) && InI64(5 * doy + 2)
  }

  /** On `i64` input the code overflows exactly when adding the epoch shift does. */
  lemma OverflowsExactlyNearTheTop(n: int)
    requires InI64(n)
    ensures ComputesInI64(n) <==> n <= I64_MAX - 719_468
  {
    var days := n + 719_468;
    var era, doe := days / 146_097, days % 146_097;
    EraIsFloor(era, doe);
    assert TruncDiv(if days >= 0 then days else days - 146_096, 146_097) == era;
    YearOfEraStaysSmall(doe);
  }

  lemma YearOfEraStaysSmall(doe: int)
    requires 0 <= doe < 146_097
    ensures var yoe := TruncDiv(doe - TruncDiv(doe, 1_460) + TruncDiv(doe, 36_524) - TruncDiv(doe, 146_096), 365);
            0 <= yoe <= 400
  {
  }

  // ---- The ISO 8601 build date ----

  function Iso8601(seconds: nat): string {
    StampOfDay(seconds / 86_400, seconds % 86_400)
  }

  function StampOfDay(days: nat, secondsOfDay: nat): string {
    var date := CivilFromDays(days);
    DateFromEpochOnIsPositive(days);
    Stamp(date, secondsOfDay / 3_600, secondsOfDay % 3_600 / 60, secondsOfDay % 60)
  }

  function Stamp(date: Date, hour: nat, minute: nat, second: nat): string
    requires date.year >= 0 && date.month >= 0 && date.day >= 0
  {
    Padded(date.year, 4)
    + DayText(Padded(date.month, 2), Padded(date.day, 2))
    + ClockText(Padded(hour, 2), Padded(minute, 2), Padded(second, 2))
  }

  function DayText(month: string, day: string): string {
    "-" + month + "-" + day
  }

  function ClockText(hour: string, minute: string, second: string): string {
    "T" + hour + ":" + minute + ":" + second + "Z"
  }

  lemma DateFromEpochOnIsPositive(n: nat)
    ensures var d := CivilFromDays(n); d.year >= 1970 && 1 <= d.month <= 12 && 1 <= d.day <= 31
  {
    CivilIsWalk(n);
    var d := CivilFromDays(n);
    if d.year < 1970 {
      DaysBefore1970AreNegative(d);
      assert false;
    }
  }

  lemma DaysBefore1970AreNegative(d: Date)
    requires ValidDate(d) && d.year < 1970
    ensures DayNumber(d) < 0
  {
    var y := if d.month <= 2 then d.year - 1 else d.year;
    var m := if d.month <= 2 then d.month + 9 else d.month - 3;
    var era, c, q, r := YearParts(y);
    MonthIsRecovered(m, d.day);
    assert DayNumber(d) == 146_097 * era + 36_524 * c + 1_461 * q + 365 * r + (153 * m + 2) / 5 + d.day - 1 - 719_468;
  }

  /** Reads a timestamp of the form `Y...Y-MM-DDThh:mm:ssZ` back as seconds since the epoch. */
  function ReadIso8601(s: string): Option<int> {
    if |s| < 20 then None
    else ReadParts(s[..|s| - 16], s[|s| - 16..|s| - 10], s[|s| - 10..])
  }

  function ReadParts(year: string, days: string, clock: string): Option<int>
    requires |days| == 6 && |clock| == 10
  {
    if days[0] != '-' || days[3] != '-' || clock[0] != 'T' || clock[3] != ':' || clock[6] != ':' || clock[9] != 'Z'
    then None
    else if !(AllDigits(year) && AllDigits(days[1..3]) && AllDigits(days[4..])) then None
    else if !(AllDigits(clock[1..3]) && AllDigits(clock[4..6]) && AllDigits(clock[7..9])) then None
    else
      var day := DayNumber(Date(Value(year), Value(days[1..3]), Value(days[4..])));
      Some(86_400 * day + 3_600 * Value(clock[1..3]) + 60 * Value(clock[4..6]) + Value(clock[7..9]))
  }

  /** Main result: the build date determines the second it was made from. */
  lemma Iso8601RoundTrip(seconds: nat)
    ensures ReadIso8601(Iso8601(seconds)) == Some(seconds)
  {
    hide StampOfDay, ReadIso8601;
    StampOfDayIsRead(seconds / 86_400, seconds % 86_400);
  }

  lemma StampOfDayIsRead(days: nat, secondsOfDay: nat)
    requires secondsOfDay < 86_400
    ensures ReadIso8601(StampOfDay(days, secondsOfDay)) == Some(86_400 * days + secondsOfDay)
  {
    hide CivilFromDays, DayNumber, ReadIso8601;
    var date := CivilFromDays(days);
    DateFromEpochOnIsPositive(days);
    CivilIsWalk(days);
    var hour, minute, second := secondsOfDay / 3_600, secondsOfDay % 3_600 / 60, secondsOfDay % 60;
    assert 3_600 * hour + 60 * minute + second == secondsOfDay;
    StampIsRead(date, hour, minute, second);
  }

  lemma StampIsRead(date: Date, hour: nat, minute: nat, second: nat)
    requires date.year >= 0 && 0 <= date.month < 100 && 0 <= date.day < 100
    requires hour < 100 && minute < 100 && second < 100
    ensures ReadIso8601(Stamp(date, hour, minute, second))
            == Some(86_400 * DayNumber(date) + 3_600 * hour + 60 * minute + second)
  {
    hide DayNumber, Value, Padded, DayText, ClockText, ReadParts;
    var y := Padded(date.year, 4);
    var days := DayFields(date.month, date.day);
    var clock := ClockFields(hour, minute, second);
    ValueOfPadded(date.year, 4);
    var text := Stamp(date, hour, minute, second);
    ThreeParts(y, days, clock);
    PartsAreRead(date, hour, minute, second, y, days, clock);
  }

  lemma ThreeParts(a: string, b: string, c: string)
    ensures var s := a + b + c;
            s[..|a|] == a && s[|a|..|a| + |b|] == b && s[|a| + |b|..] == c
  {
  }

  lemma PartsAreRead(date: Date, hour: nat, minute: nat, second: nat, y: string, days: string, clock: string)
    requires date.year >= 0 && date.month >= 0 && date.day >= 0
    requires AllDigits(y) && Value(y) == date.year
    requires |days| == 6 && days[0] == '-' && days[3] == '-'
    requires AllDigits(days[1..3]) && Value(days[1..3]) == date.month
    requires AllDigits(days[4..]) && Value(days[4..]) == date.day
    requires |clock| == 10 && clock[0] == 'T' && clock[3] == ':' && clock[6] == ':' && clock[9] == 'Z'
    requires AllDigits(clock[1..3]) && Value(clock[1..3]) == hour
    requires AllDigits(clock[4..6]) && Value(clock[4..6]) == minute
    requires AllDigits(clock[7..9]) && Value(clock[7..9]) == second
    ensures ReadParts(y, days, clock) == Some(86_400 * DayNumber(date) + 3_600 * hour + 60 * minute + second)
  {
    hide DayNumber, Value;
    assert Date(Value(y), Value(days[1..3]), Value(days[4..])) == date;
  }

  lemma TwoDigits(n: nat)
    requires n < 100
    ensures |Padded(n, 2)| == 2 && Value(Padded(n, 2)) == n
  {
    assert Pow10(2) == 100 by { assert Pow10(1) == 10; }
    PaddedLength(n, 2);
    ValueOfPadded(n, 2);
  }

  lemma DayFields(month: nat, day: nat) returns (s: string)
    requires month < 100 && day < 100
    ensures s == DayText(Padded(month, 2), Padded(day, 2)) && |s| == 6 && s[0] == '-' && s[3] == '-'
    ensures AllDigits(s[1..3]) && Value(s[1..3]) == month && AllDigits(s[4..]) && Value(s[4..]) == day
  {
    TwoDigits(month);
    TwoDigits(day);
    s := DayText(Padded(month, 2), Padded(day, 2));
    assert s[1..3] == Padded(month, 2) && s[4..] == Padded(day, 2);
  }

  lemma ClockFields(hour: nat, minute: nat, second: nat) returns (s: string)
    requires hour < 100 && minute < 100 && second < 100
    ensures s == ClockText(Padded(hour, 2), Padded(minute, 2), Padded(second, 2)) && |s| == 10
    ensures s[0] == 'T' && s[3] == ':' && s[6] == ':' && s[9] == 'Z'
    ensures AllDigits(s[1..3]) && Value(s[1..3]) == hour
    ensures AllDigits(s[4..6]) && Value(s[4..6]) == minute
    ensures AllDigits(s[7..9]) && Value(s[7..9]) == second
  {
    TwoDigits(hour);
    TwoDigits(minute);
    TwoDigits(second);
    s := ClockText(Padded(hour, 2), Padded(minute, 2), Padded(second, 2));
    assert s[1..3] == Padded(hour, 2) && s[4..6] == Padded(minute, 2) && s[7..9] == Padded(second, 2);
  }

  /** For every second a `u64` holds, the build date is computed without overflow and without collision. */
  lemma BuildDateOnU64(a: nat, b: nat)
    requires a <= U64_MAX && b <= U64_MAX
    ensures ComputesInI64(a / 86_400)
    ensures Iso8601(a) == Iso8601(b) <==> a == b
  {
    OverflowsExactlyNearTheTop(a / 86_400);
    Iso8601RoundTrip(a);
    Iso8601RoundTrip(b);
  }
}
