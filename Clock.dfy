/** The wall clock, as `datetime.datetime.now()` reads it: a naive local
    date and time, kept here at whole-second resolution and counted in
    seconds from 1970-01-01 00:00:00. */
module Clock {

  import opened Wrappers

  const SecondsPerDay: int := 86400

  /** 9999-12-31 23:59:59, the last second `datetime` can represent. */
  const MaxInstant: int := 253402300799

  type Instant = t: int | 0 <= t <= MaxInstant

  /** `now + timedelta(days=days)`, or None where Python raises
      OverflowError because the date would pass the year 9999. */
  function AddDays(now: Instant, days: nat): (r: Option<Instant>)
    ensures r.Some? <==> now + days * SecondsPerDay <= MaxInstant
    ensures r.Some? ==> r.value == now + days * SecondsPerDay
    ensures r.Some? && days > 0 ==> r.value > now
  {
    if now + days * SecondsPerDay <= MaxInstant then Some(now + days * SecondsPerDay) else None
  }

  /** Proleptic Gregorian (year, month, day) of the day `z` days after
      1970-01-01 (the days-to-civil conversion on 400-year eras). */
  function CivilFromDays(z: int): (r: (int, int, int))
    ensures 1 <= r.1 <= 12 && 1 <= r.2 <= 31
  {
    var z' := z + 719468;
    var era := z' / 146097;
    var doe := z' - era * 146097;
    var yoe := (doe - doe / 1460 + doe / 36524 - doe / 146096) / 365;
    var doy := doe - (365 * yoe + yoe / 4 - yoe / 100);
    var mp := (5 * doy + 2) / 153;
    var d := doy - (153 * mp + 2) / 5 + 1;
    var m := if mp < 10 then mp + 3 else mp - 9;
    var y := yoe + era * 400;
    (if m <= 2 then y + 1 else y, m, d)
  }

  function Digit(n: int): char
    requires 0 <= n < 10
  {
    (n + '0' as int) as char
  }

  /** The last `width` decimal digits of `n`, zero-padded, as strftime's
      `%Y` (width 4) and `%m %d %H %M %S` (width 2) print them. */
  function Pad(n: int, width: nat): (r: string)
    ensures |r| == width
    ensures forall k | 0 <= k < |r| :: '0' <= r[k] <= '9'
    decreases width
  {
    if width == 0 then [] else Pad(n / 10, width - 1) + [Digit(n % 10)]
  }

  /** The `%Y%m%d_%H%M%S` text of a date and a time of day. */
  function Printed(y: int, m: int, d: int, h: int, mi: int, sec: int): (r: string)
    ensures |r| == 15 && r[8] == '_'
    ensures forall k | 0 <= k < 15 && k != 8 :: '0' <= r[k] <= '9'
  {
    Pad(y, 4) + Pad(m, 2) + Pad(d, 2) + "_" + Pad(h, 2) + Pad(mi, 2) + Pad(sec, 2)
  }

  /** `now.strftime('%Y%m%d_%H%M%S')` */
  function Stamp(now: Instant): (r: string)
    ensures |r| == 15 && r[8] == '_'
    ensures forall k | 0 <= k < 15 && k != 8 :: '0' <= r[k] <= '9'
  {
    var (y, m, d) := CivilFromDays(now / SecondsPerDay);
    var s := now % SecondsPerDay;
    Printed(y, m, d, s / 3600, s % 3600 / 60, s % 60)
  }

  /** The inverse conversion: the day number, counted from 1970-01-01, of
      the proleptic Gregorian date (y, m, d). */
  function DaysFromCivil(y: int, m: int, d: int): int {
    var y' := if m <= 2 then y - 1 else y;
    var era := y' / 400;
    var yoe := y' - era * 400;
    var mp := if m > 2 then m - 3 else m + 9;
    var doy := (153 * mp + 2) / 5 + d - 1;
    var doe := yoe * 365 + yoe / 4 - yoe / 100 + doy;
    era * 146097 + doe - 719468
  }

  /** Within a 400-year era counted from March 1, the year of the era
      (0..399) computed from the day of the era leaves a day of the year in
      0..365. The proof splits the era into centuries of 36524 days and
      four-year cycles of 1461 days. */
  lemma YearOfEra(doe: int)
    requires 0 <= doe < 146097
    ensures var yoe := (doe - doe / 1460 + doe / 36524 - doe / 146096) / 365;
            0 <= yoe < 400 && 0 <= doe - (365 * yoe + yoe / 4 - yoe / 100) <= 365
  {
    if doe == 146096 {
      assert (doe - doe / 1460 + doe / 36524 - doe / 146096) / 365 == 399;
    } else {
      var b := doe / 36524;
      var k := (doe - 36524 * b) / 1461;
      var j := doe - 36524 * b - 1461 * k;
      assert 0 <= b <= 3 && 0 <= k <= 24 && 0 <= j <= 1460;
      var e := (24 * b + k + j) / 1460;
      assert doe / 1460 == 25 * b + k + e;
      assert doe / 146096 == 0;
      var t := (j - e) / 365;
      assert 0 <= t <= 3;
      var yoe := (doe - doe / 1460 + doe / 36524 - doe / 146096) / 365;
      assert yoe == 100 * b + 4 * k + t;
      assert yoe / 4 == 25 * b + k;
      assert yoe / 100 == b;
    }
  }

  /** The Gregorian leap-year rule: every fourth year, except the
      centuries not divisible by 400. */
  predicate IsLeapYear(y: int) {
    y % 4 == 0 && (y % 100 != 0 || y % 400 == 0)
  }

  /** The number of days of month `m` of year `y`. */
  function DaysInMonth(y: int, m: int): (r: int)
    ensures 28 <= r <= 31
    ensures r == 29 <==> m == 2 && IsLeapYear(y)
  {
    if m == 2 then (if IsLeapYear(y) then 29 else 28)
    else if m == 4 || m == 6 || m == 9 || m == 11 then 30
    else 31
  }

  /** Only a year of the era that ends in a leap February has a 366th day
      (day of the year 365, counted from March 1). */
  lemma LeapDayOfEra(doe: int)
    requires 0 <= doe < 146097
    ensures var yoe := (doe - doe / 1460 + doe / 36524 - doe / 146096) / 365;
            var doy := doe - (365 * yoe + yoe / 4 - yoe / 100);
            doy == 365 ==> (yoe + 1) % 4 == 0 && ((yoe + 1) % 100 != 0 || yoe == 399)
  {
    if doe != 146096 {
      var b := doe / 36524;
      var k := (doe - 36524 * b) / 1461;
      var j := doe - 36524 * b - 1461 * k;
      assert 0 <= b <= 3 && 0 <= k <= 24 && 0 <= j <= 1460;
      assert k == 24 ==> j <= 1459;
      var e := (24 * b + k + j) / 1460;
      assert doe / 1460 == 25 * b + k + e;
      assert doe / 146096 == 0;
      var t := (j - e) / 365;
      var yoe := (doe - doe / 1460 + doe / 36524 - doe / 146096) / 365;
      assert yoe == 100 * b + 4 * k + t;
      assert yoe / 4 == 25 * b + k;
      assert yoe / 100 == b;
      var doy := doe - (365 * yoe + yoe / 4 - yoe / 100);
      assert doy == j - 365 * t;
      if doy == 365 {
        assert t == 3 && k < 24;
        assert yoe + 1 == 100 * b + 4 * (k + 1);
      }
    }
  }

  /** Shifting a year by whole eras of 400 years keeps its remainders by
      4, 100 and 400. */
  lemma EraShiftMod4(a: int, era: int)
    ensures (a + 400 * era) % 4 == a % 4
  {
    assert a + 400 * era == 4 * (a / 4 + 100 * era) + a % 4;
  }

  lemma EraShiftMod100(a: int, era: int)
    ensures (a + 400 * era) % 100 == a % 100
  {
    assert a + 400 * era == 100 * (a / 100 + 4 * era) + a % 100;
  }

  lemma EraShiftMod400(a: int, era: int)
    ensures (a + 400 * era) % 400 == a % 400
  {
    assert a + 400 * era == 400 * (a / 400 + era) + a % 400;
  }

  /** A year keeps its leap status 400 years on. */
  lemma LeapYearEras(a: int, era: int)
    ensures IsLeapYear(a + 400 * era) == IsLeapYear(a)
  {
    EraShiftMod4(a, era);
    EraShiftMod100(a, era);
    EraShiftMod400(a, era);
  }

  /** Days of the year counted from March 1 fall within their month; only
      a leap year reaches a 366th day, February 29. */
  lemma DayOfYearInMonth(doy: int, y: int)
    requires 0 <= doy <= 365
    requires doy == 365 ==> IsLeapYear(y)
    ensures var mp := (5 * doy + 2) / 153;
            doy - (153 * mp + 2) / 5 + 1 <= DaysInMonth(y, if mp < 10 then mp + 3 else mp - 9)
  {
    var mp := (5 * doy + 2) / 153;
    assert 0 <= mp <= 11;
    if mp == 11 {
      assert doy - (153 * mp + 2) / 5 + 1 == doy - 336;
    }
  }

  /** The date of every day is a real calendar date: its day never passes
      the length of its month. */
  lemma CivilDayInMonth(z: int)
    ensures var (y, m, d) := CivilFromDays(z); d <= DaysInMonth(y, m)
  {
    var z' := z + 719468;
    var era := z' / 146097;
    var doe := z' - era * 146097;
    YearOfEra(doe);
    LeapDayOfEra(doe);
    var yoe := (doe - doe / 1460 + doe / 36524 - doe / 146096) / 365;
    var doy := doe - (365 * yoe + yoe / 4 - yoe / 100);
    var y := CivilFromDays(z).0;
    if doy == 365 {
      assert y == (yoe + 1) + 400 * era;
      LeapYearEras(yoe + 1, era);
    }
    DayOfYearInMonth(doy, y);
  }

  /** Converting a day number to its date and back gives the day number. */
  lemma CivilRoundTrip(z: int)
    ensures var (y, m, d) := CivilFromDays(z); DaysFromCivil(y, m, d) == z
  {
    var z' := z + 719468;
    var era := z' / 146097;
    var doe := z' - era * 146097;
    YearOfEra(doe);
    var yoe := (doe - doe / 1460 + doe / 36524 - doe / 146096) / 365;
    var doy := doe - (365 * yoe + yoe / 4 - yoe / 100);
    var mp := (5 * doy + 2) / 153;
    assert 0 <= mp <= 11;
    var (y, m, d) := CivilFromDays(z);
    assert m == (if mp < 10 then mp + 3 else mp - 9);
    assert d == doy - (153 * mp + 2) / 5 + 1;
    var y' := if m <= 2 then y - 1 else y;
    assert y' == yoe + era * 400;
    assert y' / 400 == era;
  }

  /** The day of the era of 1970-01-01 or later falls in the era's year
      369 in January or February (the era's years start on March 1), or in
      a later year. */
  lemma EraFrom1970(doe: int)
    requires 135080 <= doe < 146097
    ensures var yoe := (doe - doe / 1460 + doe / 36524 - doe / 146096) / 365;
            var doy := doe - (365 * yoe + yoe / 4 - yoe / 100);
            yoe > 369 || (yoe == 369 && (5 * doy + 2) / 153 >= 10)
  {
    YearOfEra(doe);
  }

  /** The day of the era of 9999-12-31 or earlier falls in a year before
      the era's year 399, or in that year before January. */
  lemma EraTo9999(doe: int)
    requires 0 <= doe <= 146036
    ensures var yoe := (doe - doe / 1460 + doe / 36524 - doe / 146096) / 365;
            var doy := doe - (365 * yoe + yoe / 4 - yoe / 100);
            yoe < 399 || (yoe == 399 && (5 * doy + 2) / 153 <= 9)
  {
    YearOfEra(doe);
  }

  /** The days of the clock's range, 1970-01-01 to 9999-12-31, have the
      years 1970..9999. */
  lemma CivilYearBounds(z: int)
    requires 0 <= z <= MaxInstant / SecondsPerDay
    ensures 1970 <= CivilFromDays(z).0 <= 9999
  {
    var z' := z + 719468;
    var era := z' / 146097;
    assert 4 <= era <= 24;
    var doe := z' - era * 146097;
    YearOfEra(doe);
    if era == 4 {
      EraFrom1970(doe);
    }
    if era == 24 {
      EraTo9999(doe);
    }
  }

  /** A number below 100 is printed as its tens digit and its units digit. */
  lemma PadTwoDigits(n: int)
    requires 0 <= n < 100
    ensures Pad(n, 2) == [Digit(n / 10), Digit(n % 10)]
  {
    var t := n / 10;
    assert 0 <= t < 10 && t % 10 == t && t / 10 == 0;
    assert Pad(t, 1) == [Digit(t)];
    assert Pad(n, 2) == Pad(t, 1) + [Digit(n % 10)];
  }

  /** A number below 10000 is printed as its thousands, hundreds, tens and
      units digits. */
  lemma PadFourDigits(n: int)
    requires 0 <= n < 10000
    ensures Pad(n, 4) == [Digit(n / 1000), Digit(n / 100 % 10), Digit(n / 10 % 10), Digit(n % 10)]
  {
    assert n / 10 / 10 == n / 100 && n / 100 / 10 == n / 1000;
    PadTwoDigits(n / 100);
    assert Pad(n / 10, 3) == Pad(n / 100, 2) + [Digit(n / 10 % 10)];
  }

  /** The printed text of a date of years below 10000 and a time of day
      is the digits of its fields, in order. */
  lemma PrintedDigits(y: int, m: int, d: int, h: int, mi: int, sec: int)
    requires 0 <= y < 10000 && 0 <= m < 100 && 0 <= d < 100
    requires 0 <= h < 100 && 0 <= mi < 100 && 0 <= sec < 100
    ensures Printed(y, m, d, h, mi, sec) ==
              [Digit(y / 1000), Digit(y / 100 % 10), Digit(y / 10 % 10), Digit(y % 10),
               Digit(m / 10), Digit(m % 10), Digit(d / 10), Digit(d % 10), '_',
               Digit(h / 10), Digit(h % 10), Digit(mi / 10), Digit(mi % 10),
               Digit(sec / 10), Digit(sec % 10)]
  {
    PadFourDigits(y);
    PadTwoDigits(m);
    PadTwoDigits(d);
    PadTwoDigits(h);
    PadTwoDigits(mi);
    PadTwoDigits(sec);
  }

  /** The stamp spells out `now`: its digits are those of a calendar date
      of 1970..9999 and a time of day, and that date and time of day are
      `now` itself. */
  lemma StampSpellsNow(now: Instant)
    ensures var (y, m, d) := CivilFromDays(now / SecondsPerDay);
            var s := now % SecondsPerDay;
            var h, mi, sec := s / 3600, s % 3600 / 60, s % 60;
            && 1970 <= y <= 9999 && 1 <= m <= 12 && 1 <= d <= DaysInMonth(y, m)
            && 0 <= h < 24 && 0 <= mi < 60 && 0 <= sec < 60
            && DaysFromCivil(y, m, d) * SecondsPerDay + 3600 * h + 60 * mi + sec == now
            && Stamp(now) == [Digit(y / 1000), Digit(y / 100 % 10), Digit(y / 10 % 10), Digit(y % 10),
                              Digit(m / 10), Digit(m % 10), Digit(d / 10), Digit(d % 10), '_',
                              Digit(h / 10), Digit(h % 10), Digit(mi / 10), Digit(mi % 10),
                              Digit(sec / 10), Digit(sec % 10)]
  {
    var z, s := now / SecondsPerDay, now % SecondsPerDay;
    var (y, m, d) := CivilFromDays(z);
    CivilYearBounds(z);
    CivilRoundTrip(z);
    CivilDayInMonth(z);
    TimeOfDay(s);
    PrintedDigits(y, m, d, s / 3600, s % 3600 / 60, s % 60);
    assert now == z * SecondsPerDay + s;
  }

  /** Equal padded numbers agree in their last digit and in the rest. */
  lemma {:induction false} PadStep(a: int, b: int, width: nat)
    requires width > 0 && Pad(a, width) == Pad(b, width)
    ensures a % 10 == b % 10 && Pad(a / 10, width - 1) == Pad(b / 10, width - 1)
  {
    var pa, pb := Pad(a, width), Pad(b, width);
    assert pa[..width - 1] == Pad(a / 10, width - 1) && pb[..width - 1] == Pad(b / 10, width - 1);
    assert pa[width - 1] == Digit(a % 10) && pb[width - 1] == Digit(b % 10);
    assert Digit(a % 10) as int == a % 10 + '0' as int;
    assert Digit(b % 10) as int == b % 10 + '0' as int;
  }

  /** Two-digit fields print distinct numbers below 100 differently. */
  lemma Pad2Injective(a: int, b: int)
    requires 0 <= a < 100 && 0 <= b < 100
    requires Pad(a, 2) == Pad(b, 2)
    ensures a == b
  {
    PadStep(a, b, 2);
    PadStep(a / 10, b / 10, 1);
  }

  /** Four decimal digits fix a number of 1600..10000: two such numbers
      differ by less than 10000. */
  lemma FourDigits(a: int, b: int)
    requires 1600 <= a <= 10000 && 1600 <= b <= 10000
    requires a % 10 == b % 10 && a / 10 % 10 == b / 10 % 10
    requires a / 10 / 10 % 10 == b / 10 / 10 % 10 && a / 10 / 10 / 10 % 10 == b / 10 / 10 / 10 % 10
    ensures a == b
  {
    var a1, b1 := a / 10, b / 10;
    var a2, b2 := a1 / 10, b1 / 10;
    var a3, b3 := a2 / 10, b2 / 10;
    assert a == 10 * a1 + a % 10 && b == 10 * b1 + b % 10;
    assert a1 == 10 * a2 + a1 % 10 && b1 == 10 * b2 + b1 % 10;
    assert a2 == 10 * a3 + a2 % 10 && b2 == 10 * b3 + b2 % 10;
    assert 1 <= a3 <= 10 && 1 <= b3 <= 10;
  }

  /** The four-digit year field prints distinct years of 1600..10000
      differently. */
  lemma Pad4Injective(a: int, b: int)
    requires 1600 <= a <= 10000 && 1600 <= b <= 10000
    requires Pad(a, 4) == Pad(b, 4)
    ensures a == b
  {
    PadStep(a, b, 4);
    PadStep(a / 10, b / 10, 3);
    PadStep(a / 10 / 10, b / 10 / 10, 2);
    PadStep(a / 10 / 10 / 10, b / 10 / 10 / 10, 1);
    FourDigits(a, b);
  }

  /** Equal texts of the stamp's layout have equal fields. */
  lemma FieldsEqual(p1: string, p2: string, p3: string, p4: string, p5: string, p6: string,
                    q1: string, q2: string, q3: string, q4: string, q5: string, q6: string)
    requires |p1| == |q1| == 4
    requires |p2| == |q2| == |p3| == |q3| == |p4| == |q4| == |p5| == |q5| == |p6| == |q6| == 2
    requires p1 + p2 + p3 + "_" + p4 + p5 + p6 == q1 + q2 + q3 + "_" + q4 + q5 + q6
    ensures p1 == q1 && p2 == q2 && p3 == q3 && p4 == q4 && p5 == q5 && p6 == q6
  {
    var p, q := p1 + p2 + p3 + "_" + p4 + p5 + p6, q1 + q2 + q3 + "_" + q4 + q5 + q6;
    assert p[0..4] == p1 && q[0..4] == q1;
    assert p[4..6] == p2 && q[4..6] == q2;
    assert p[6..8] == p3 && q[6..8] == q3;
    assert p[9..11] == p4 && q[9..11] == q4;
    assert p[11..13] == p5 && q[11..13] == q5;
    assert p[13..15] == p6 && q[13..15] == q6;
  }

  /** Equal printed texts come from equal dates and times of day. */
  lemma PrintedInjective(y: int, m: int, d: int, h: int, mi: int, sec: int,
                         y': int, m': int, d': int, h': int, mi': int, sec': int)
    requires 1600 <= y <= 10000 && 1600 <= y' <= 10000
    requires 0 <= m < 100 && 0 <= d < 100 && 0 <= h < 100 && 0 <= mi < 100 && 0 <= sec < 100
    requires 0 <= m' < 100 && 0 <= d' < 100 && 0 <= h' < 100 && 0 <= mi' < 100 && 0 <= sec' < 100
    ensures Printed(y, m, d, h, mi, sec) == Printed(y', m', d', h', mi', sec') ==>
              y == y' && m == m' && d == d' && h == h' && mi == mi' && sec == sec'
  {
    if Printed(y, m, d, h, mi, sec) == Printed(y', m', d', h', mi', sec') {
      FieldsEqual(Pad(y, 4), Pad(m, 2), Pad(d, 2), Pad(h, 2), Pad(mi, 2), Pad(sec, 2),
                  Pad(y', 4), Pad(m', 2), Pad(d', 2), Pad(h', 2), Pad(mi', 2), Pad(sec', 2));
      Pad4Injective(y, y');
      Pad2Injective(m, m');
      Pad2Injective(d, d');
      Pad2Injective(h, h');
      Pad2Injective(mi, mi');
      Pad2Injective(sec, sec');
    }
  }

  /** A second of the day is its hours, minutes and seconds. */
  lemma TimeOfDay(s: int)
    requires 0 <= s < SecondsPerDay
    ensures 0 <= s / 3600 < 24 && 0 <= s % 3600 / 60 < 60 && 0 <= s % 60 < 60
    ensures s == 3600 * (s / 3600) + 60 * (s % 3600 / 60) + s % 60
  {
  }

  /** Distinct days of the clock's range have distinct dates. */
  lemma DateInjective(za: int, zb: int)
    ensures CivilFromDays(za) == CivilFromDays(zb) <==> za == zb
  {
    CivilRoundTrip(za);
    CivilRoundTrip(zb);
  }

  /** Two instants have the same stamp exactly when they are the same
      second. */
  lemma StampInjective(a: Instant, b: Instant)
    ensures Stamp(a) == Stamp(b) <==> a == b
  {
    if Stamp(a) == Stamp(b) {
      var za, zb := a / SecondsPerDay, b / SecondsPerDay;
      var sa, sb := a % SecondsPerDay, b % SecondsPerDay;
      var ca, cb := CivilFromDays(za), CivilFromDays(zb);
      CivilYearBounds(za);
      CivilYearBounds(zb);
      TimeOfDay(sa);
      TimeOfDay(sb);
      PrintedInjective(ca.0, ca.1, ca.2, sa / 3600, sa % 3600 / 60, sa % 60,
                       cb.0, cb.1, cb.2, sb / 3600, sb % 3600 / 60, sb % 60);
      DateInjective(za, zb);
      assert a == SecondsPerDay * za + sa && b == SecondsPerDay * zb + sb;
    }
  }
}
