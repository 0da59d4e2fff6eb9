/**
  `Calendar`: the proleptic Gregorian calendar that `relativedelta(months=n)` works in.
  An instant is an integer count of microseconds since 1970-01-01T00:00 UTC; a month step
  moves the calendar date and clamps the day to the length of the target month, keeping the
  time of day.
*/
module Calendar {
  const MicrosPerDay: int := 86_400_000_000

  datatype Date = Date(year: int, month: int, day: int)

  predicate IsLeap(y: int) {
    y % 4 == 0 && (y % 100 != 0 || y % 400 == 0)
  }

  function DaysInMonth(y: int, m: int): (n: int)
    requires 1 <= m <= 12
    ensures 28 <= n <= 31
  {
    if m == 2 then (if IsLeap(y) then 29 else 28)
    else if m == 4 || m == 6 || m == 9 || m == 11 then 30
    else 31
  }

  predicate ValidDate(d: Date) {
    1 <= d.month <= 12 && 1 <= d.day <= DaysInMonth(d.year, d.month)
  }

  /** `date + relativedelta(months=n)`: the month moves by `n`, the day is clamped to that month. */
  function AddMonthsToDate(d: Date, n: int): (r: Date)
    requires ValidDate(d)
    ensures ValidDate(r)
    ensures r.year * 12 + (r.month - 1) == d.year * 12 + (d.month - 1) + n
    ensures r.day == if d.day <= DaysInMonth(r.year, r.month) then d.day else DaysInMonth(r.year, r.month)
  {
    var index := d.year * 12 + (d.month - 1) + n;
    var y := index / 12;
    var m := index % 12 + 1;
    var dim := DaysInMonth(y, m);
    Date(y, m, if d.day <= dim then d.day else dim)
  }

  /** Days from 1970-01-01 to a date (the "days from civil" algorithm). */
  function DaysFromCivil(d: Date): int {
    var y := if d.month <= 2 then d.year - 1 else d.year;
    var era := y / 400;
    var yoe := y - era * 400;
    var mp := if d.month > 2 then d.month - 3 else d.month + 9;
    var doy := (153 * mp + 2) / 5 + d.day - 1;
    var doe := yoe * 365 + yoe / 4 - yoe / 100 + doy;
    era * 146097 + doe - 719468
  }

  /** The date `z` days after 1970-01-01 (the "civil from days" algorithm). */
  function CivilFromDays(z: int): Date {
    var shifted := z + 719468;
    var era := shifted / 146097;
    DateInEra(era, shifted - era * 146097)
  }

  /** The date `doe` days after 1 March of the first year of 400-year era `era`. */
  function DateInEra(era: int, doe: int): Date {
    var yoe := (doe - doe / 1460 + doe / 36524 - doe / 146096) / 365;
    var doy := doe - (365 * yoe + yoe / 4 - yoe / 100);
    var mp := (5 * doy + 2) / 153;
    var d := doy - (153 * mp + 2) / 5 + 1;
    var m := if mp < 10 then mp + 3 else mp - 9;
    Date(if m <= 2 then yoe + era * 400 + 1 else yoe + era * 400, m, d)
  }

  /** `instant + relativedelta(days=n)`. */
  function AddDays(t: int, n: int): (r: int)
    ensures r - t == n * MicrosPerDay
  {
    t + n * MicrosPerDay
  }

  /** `instant + relativedelta(months=n)`: same time of day, calendar date moved by `n` months. */
  function AddMonths(t: int, n: int): (r: int)
    ensures r % MicrosPerDay == t % MicrosPerDay
  {
    var days := t / MicrosPerDay;
    var timeOfDay := t % MicrosPerDay;
    var date := CivilFromDays(days);
    CivilFromDaysValid(days);
    var k := DaysFromCivil(AddMonthsToDate(date, n));
    WholeDaysKeepTimeOfDay(k, t);
    k * MicrosPerDay + timeOfDay
  }

  /** A month step lands on the calendar date `n` months on, day clamped to the target month. */
  lemma AddMonthsMovesDate(t: int, n: int)
    ensures ValidDate(CivilFromDays(t / MicrosPerDay))
    ensures CivilFromDays(AddMonths(t, n) / MicrosPerDay) == AddMonthsToDate(CivilFromDays(t / MicrosPerDay), n)
  {
    var date := CivilFromDays(t / MicrosPerDay);
    CivilFromDaysValid(t / MicrosPerDay);
    var moved := AddMonthsToDate(date, n);
    var k := DaysFromCivil(moved);
    WholeDaysKeepTimeOfDay(k, t);
    assert AddMonths(t, n) / MicrosPerDay == k;
    CivilRoundTrip(moved);
  }

  /** Moving to day `k` keeps the time of day and lands on day `k`. */
  lemma WholeDaysKeepTimeOfDay(k: int, t: int)
    ensures (k * MicrosPerDay + t % MicrosPerDay) % MicrosPerDay == t % MicrosPerDay
    ensures (k * MicrosPerDay + t % MicrosPerDay) / MicrosPerDay == k
  {
    var x := t % MicrosPerDay;
    assert 0 <= x < MicrosPerDay;
    assert (k * MicrosPerDay + x) / MicrosPerDay == k;
  }

  /** A month step keeps the day of the month whenever the target month is long enough. */
  lemma AddMonthsKeepsDayWhenItFits(d: Date, n: int)
    requires ValidDate(d) && d.day <= 28
    ensures AddMonthsToDate(d, n).day == d.day
  {
  }

  /** Twelve months are one year: same month, same day except 29 February outside a leap year. */
  lemma TwelveMonthsIsOneYear(d: Date)
    requires ValidDate(d)
    ensures AddMonthsToDate(d, 12).year == d.year + 1 && AddMonthsToDate(d, 12).month == d.month
    ensures !(d.month == 2 && d.day == 29) ==> AddMonthsToDate(d, 12).day == d.day
  {
    var r := AddMonthsToDate(d, 12);
    assert r.year * 12 + (r.month - 1) == (d.year + 1) * 12 + (d.month - 1);
  }

  /** 31 January plus one month is the last day of February. */
  lemma EndOfMonthClamps(y: int)
    ensures AddMonthsToDate(Date(y, 1, 31), 1) == Date(y, 2, if IsLeap(y) then 29 else 28)
  {
    var r := AddMonthsToDate(Date(y, 1, 31), 1);
    assert r.year * 12 + (r.month - 1) == y * 12 + 1;
  }
  lemma DivBy(x: int, k: int, qt: int, rm: int)
    requires k == 4 || k == 100 || k == 400 || k == 365 || k == 1460 || k == 36524 || k == 146096 || k == 146097
    requires x == k * qt + rm && 0 <= rm < k
    ensures x / k == qt
  {
    if k == 4 { assert x == 4 * qt + rm; }
    else if k == 100 { assert x == 100 * qt + rm; }
    else if k == 400 { assert x == 400 * qt + rm; }
    else if k == 365 { assert x == 365 * qt + rm; }
    else if k == 1460 { assert x == 1460 * qt + rm; }
    else if k == 36524 { assert x == 36524 * qt + rm; }
    else if k == 146096 { assert x == 146096 * qt + rm; }
    else { assert x == 146097 * qt + rm; }
  }

  /** The leap-day counting of a day of era, for a year of era split as `100 * c + 4 * q + r`. */
  lemma YearOfEraFromParts(c: int, q: int, r: int, doy: int, doe: int)
    requires 0 <= c < 4 && 0 <= q < 25 && 0 <= r < 4 && 0 <= doy
    requires doy <= (if r == 3 && (q != 24 || c == 3) then 365 else 364)
    requires doe == 36524 * c + 1461 * q + 365 * r + doy
    ensures (doe - doe / 1460 + doe / 36524 - doe / 146096) / 365 == 100 * c + 4 * q + r
  {
    var w := 24 * c + q + 365 * r + doy;
    var big := if w >= 1460 then 1 else 0;
    assert doe == 1460 * (25 * c + q + big) + (w - 1460 * big);
    DivBy(doe, 1460, 25 * c + q + big, w - 1460 * big);
    var last := if doe == 146096 then 1 else 0;
    assert 0 <= doe - 36524 * (c + last) < 36524;
    DivBy(doe, 36524, c + last, doe - 36524 * (c + last));
    DivBy(doe, 146096, last, doe - 146096 * last);
    var x := doe - doe / 1460 + doe / 36524 - doe / 146096;
    assert x == 365 * (100 * c + 4 * q + r) + doy - big;
    DivBy(x, 365, 100 * c + 4 * q + r, doy - big);
  }

  lemma YoeRecovered(c: int, q: int, r: int, doy: int)
    requires 0 <= c < 4 && 0 <= q < 25 && 0 <= r < 4 && 0 <= doy
    requires doy <= (if r == 3 && (q != 24 || c == 3) then 365 else 364)
    ensures var yoe := 100 * c + 4 * q + r;
      var doe := 365 * yoe + yoe / 4 - yoe / 100 + doy;
      (doe - doe / 1460 + doe / 36524 - doe / 146096) / 365 == yoe
  {
    var yoe := 100 * c + 4 * q + r;
    DivBy(yoe, 4, 25 * c + q, r);
    DivBy(yoe, 100, c, 4 * q + r);
    YearOfEraFromParts(c, q, r, doy, 365 * yoe + yoe / 4 - yoe / 100 + doy);
  }

  /** The first day of March-based month `mp` (0 is March) counted from 1 March. */
  lemma MonthRecovered(mp: int, day: int, len: int)
    requires 0 <= mp <= 11 && 1 <= day <= len
    requires len == (if mp == 11 then 29 else if mp in {1, 3, 6, 8} then 30 else 31)
    ensures var doy := (153 * mp + 2) / 5 + day - 1;
      (5 * doy + 2) / 153 == mp
  {
  }

  /** The year holding the February of a March-based year is leap only in the fourth year of a four-year block (and not at a century, unless its fourth). */
  lemma LeapInEra(era: int, c: int, q: int, r: int)
    requires 0 <= c < 4 && 0 <= q < 25 && 0 <= r < 4
    ensures IsLeap(400 * era + 100 * c + 4 * q + r + 1) ==> r == 3 && (q != 24 || c == 3)
  {
    var y := 400 * era + 100 * c + 4 * q + r + 1;
    if r < 3 {
      DivBy(y, 4, 100 * era + 25 * c + q, r + 1);
      assert y % 4 == r + 1;
    } else if q == 24 && c < 3 {
      DivBy(y, 100, 4 * era + c + 1, 0);
      DivBy(y, 400, era, 100 * (c + 1));
      assert y % 100 == 0 && y % 400 == 100 * (c + 1);
    }
  }

  lemma EraSplit(z: int, era: int, doe: int)
    requires z + 719468 == era * 146097 + doe && 0 <= doe < 146097
    ensures CivilFromDays(z) == DateInEra(era, doe)
  {
    DivBy(z + 719468, 146097, era, doe);
  }

  /** `DateInEra` read off from the intermediate values of its computation. */
  lemma DateInEraSteps(era: int, doe: int, yoe: int, doy: int, mp: int, day: int)
    requires (doe - doe / 1460 + doe / 36524 - doe / 146096) / 365 == yoe
    requires doe - (365 * yoe + yoe / 4 - yoe / 100) == doy
    requires (5 * doy + 2) / 153 == mp && 0 <= mp <= 11
    requires doy - (153 * mp + 2) / 5 + 1 == day
    ensures DateInEra(era, doe) ==
      Date(if mp >= 10 then yoe + era * 400 + 1 else yoe + era * 400, if mp < 10 then mp + 3 else mp - 9, day)
  {
  }

  /** The day-of-era arithmetic of a date given by its year of era (split as `100 * c + 4 * q + r`), March-based month and day. */
  lemma InEraArithmetic(yoe: int, c: int, q: int, r: int, mp: int, day: int)
    requires 0 <= c < 4 && 0 <= q < 25 && 0 <= r < 4 && yoe == 100 * c + 4 * q + r && 0 <= mp <= 11
    requires 1 <= day <= (if mp == 11 then 29 else if mp in {1, 3, 6, 8} then 30 else 31)
    requires mp == 11 && day == 29 ==> r == 3 && (q != 24 || c == 3)
    ensures var doy := (153 * mp + 2) / 5 + day - 1;
      var doe := yoe * 365 + yoe / 4 - yoe / 100 + doy;
      && 0 <= doe < 146097
      && (doe - doe / 1460 + doe / 36524 - doe / 146096) / 365 == yoe
      && doe - (365 * yoe + yoe / 4 - yoe / 100) == doy
      && (5 * doy + 2) / 153 == mp
      && doy - (153 * mp + 2) / 5 + 1 == day
  {
    var doy := (153 * mp + 2) / 5 + day - 1;
    MonthRecovered(mp, day, if mp == 11 then 29 else if mp in {1, 3, 6, 8} then 30 else 31);
    assert 0 <= doy <= 365 && (doy == 365 ==> mp == 11 && day == 29);
    YoeRecovered(c, q, r, doy);
    DivBy(yoe, 4, 25 * c + q, r);
    DivBy(yoe, 100, c, 4 * q + r);
  }

  lemma CivilOfParts(z: int, era: int, yoe: int, c: int, q: int, r: int, mp: int, year: int, month: int, day: int)
    requires 0 <= c < 4 && 0 <= q < 25 && 0 <= r < 4 && yoe == 100 * c + 4 * q + r && 0 <= mp <= 11
    requires 1 <= day <= (if mp == 11 then 29 else if mp in {1, 3, 6, 8} then 30 else 31)
    requires mp == 11 && day == 29 ==> r == 3 && (q != 24 || c == 3)
    requires z == era * 146097 + (yoe * 365 + yoe / 4 - yoe / 100 + ((153 * mp + 2) / 5 + day - 1)) - 719468
    requires year == (if mp >= 10 then yoe + era * 400 + 1 else yoe + era * 400)
    requires month == (if mp < 10 then mp + 3 else mp - 9)
    ensures CivilFromDays(z) == Date(year, month, day)
  {
    InEraArithmetic(yoe, c, q, r, mp, day);
    var doy := (153 * mp + 2) / 5 + day - 1;
    var doe := yoe * 365 + yoe / 4 - yoe / 100 + doy;
    EraSplit(era * 146097 + doe - 719468, era, doe);
    DateInEraSteps(era, doe, yoe, doy, mp, day);
  }

  /** A year as its 400-year era and its year of era, the latter split into centuries, four-year blocks and years. */
  lemma SplitYear(y: int) returns (era: int, yoe: int, c: int, q: int, r: int)
    ensures era == y / 400 && yoe == y - era * 400
    ensures 0 <= c < 4 && 0 <= q < 25 && 0 <= r < 4 && yoe == 100 * c + 4 * q + r
  {
    era := y / 400;
    yoe := y - era * 400;
    c, q, r := yoe / 100, (yoe % 100) / 4, yoe % 4;
  }

  /** A valid date's day fits its month counted from March, and February 29 falls in a leap year of the era. */
  lemma ShiftedDayBound(d: Date, era: int, c: int, q: int, r: int)
    requires ValidDate(d) && 0 <= c < 4 && 0 <= q < 25 && 0 <= r < 4
    requires (if d.month <= 2 then d.year - 1 else d.year) == 400 * era + 100 * c + 4 * q + r
    ensures var mp := if d.month > 2 then d.month - 3 else d.month + 9;
      1 <= d.day <= (if mp == 11 then 29 else if mp in {1, 3, 6, 8} then 30 else 31) &&
      (mp == 11 && d.day == 29 ==> r == 3 && (q != 24 || c == 3))
  {
    if d.month == 2 && d.day == 29 {
      assert IsLeap(400 * era + 100 * c + 4 * q + r + 1);
      LeapInEra(era, c, q, r);
    }
  }

  /** Converting a valid date to a day number and back gives the date again. */
  lemma CivilRoundTrip(d: Date)
    requires ValidDate(d)
    ensures CivilFromDays(DaysFromCivil(d)) == d
  {
    var y := if d.month <= 2 then d.year - 1 else d.year;
    var era, yoe, c, q, r := SplitYear(y);
    var mp := if d.month > 2 then d.month - 3 else d.month + 9;
    ShiftedDayBound(d, era, c, q, r);
    CivilOfParts(DaysFromCivil(d), era, yoe, c, q, r, mp, d.year, d.month, d.day);
  }

  /** A day of era split into centuries, four-year blocks, years and a day of year within the length of that year. */
  lemma SplitDayOfEra(doe: int) returns (c: int, q: int, r: int, doy: int)
    requires 0 <= doe < 146097
    ensures 0 <= c < 4 && 0 <= q < 25 && 0 <= r < 4 && 0 <= doy
    ensures doy <= (if r == 3 && (q != 24 || c == 3) then 365 else 364)
    ensures doe == 36524 * c + 1461 * q + 365 * r + doy
  {
    c := if doe / 36524 < 3 then doe / 36524 else 3;
    var rest := doe - 36524 * c;
    q := rest / 1461;
    var inBlock := rest - 1461 * q;
    r := if inBlock / 365 < 3 then inBlock / 365 else 3;
    doy := inBlock - 365 * r;
  }

  /** The March-based month and the day within it that a day of year falls on. */
  lemma MonthOfDay(doy: int)
    requires 0 <= doy <= 365
    ensures var mp := (5 * doy + 2) / 153;
      var day := doy - (153 * mp + 2) / 5 + 1;
      && 0 <= mp <= 11
      && 1 <= day <= (if mp == 11 then 29 else if mp in {1, 3, 6, 8} then 30 else 31)
      && (mp == 11 && day == 29 ==> doy == 365)
  {
  }

  /** The fourth year of a four-year block holds a leap February, except at a century that is not the fourth. */
  lemma LeapFromParts(era: int, c: int, q: int, r: int)
    requires 0 <= c < 4 && 0 <= q < 25 && 0 <= r < 4
    requires r == 3 && (q != 24 || c == 3)
    ensures IsLeap(400 * era + 100 * c + 4 * q + r + 1)
  {
    var y := 400 * era + 100 * c + 4 * q + r + 1;
    DivBy(y, 4, 100 * era + 25 * c + q + 1, 0);
    assert y % 4 == 0;
    if q == 24 {
      DivBy(y, 400, era + 1, 0);
      assert y % 400 == 0;
    } else {
      DivBy(y, 100, 4 * era + c, 4 * q + 4);
      assert y % 100 == 4 * q + 4;
    }
  }

  lemma DateInEraValid(era: int, doe: int)
    requires 0 <= doe < 146097
    ensures ValidDate(DateInEra(era, doe))
  {
    var c, q, r, doy := SplitDayOfEra(doe);
    var yoe := 100 * c + 4 * q + r;
    DivBy(yoe, 4, 25 * c + q, r);
    DivBy(yoe, 100, c, 4 * q + r);
    YearOfEraFromParts(c, q, r, doy, doe);
    assert doe - (365 * yoe + yoe / 4 - yoe / 100) == doy;
    MonthOfDay(doy);
    var mp := (5 * doy + 2) / 153;
    var day := doy - (153 * mp + 2) / 5 + 1;
    DateInEraSteps(era, doe, yoe, doy, mp, day);
    if mp == 11 && day == 29 {
      LeapFromParts(era, c, q, r);
    }
  }

  /** Every day number names a valid date. */
  lemma CivilFromDaysValid(z: int)
    ensures ValidDate(CivilFromDays(z))
  {
    var era := (z + 719468) / 146097;
    EraSplit(z, era, z + 719468 - era * 146097);
    DateInEraValid(era, z + 719468 - era * 146097);
  }
}
