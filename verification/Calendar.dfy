/** Proleptic Gregorian dates as day numbers, and calendar-month billing periods. */
module Calendar {
  import opened Arith

  datatype Date = Date(year: int, month: int, day: int)

  predicate IsLeap(year: int) { (year % 4 == 0 && year % 100 != 0) || year % 400 == 0 }

  function LastDay(year: int, month: int): int {
    if month == 2 then (if IsLeap(year) then 29 else 28)
    else if month in {4, 6, 9, 11} then 30 else 31
  }

  predicate ValidDate(d: Date) { 1 <= d.month <= 12 && 1 <= d.day <= LastDay(d.year, d.month) }

  const DAYS_PER_ERA: int := 146_097
  const EPOCH_SHIFT: int := 719_468

  /** Date of a day number, for days on or after 0000-03-01. */
  function CivilFromDays(days: int): Date
    requires days + EPOCH_SHIFT >= 0
  {
    var z := days + EPOCH_SHIFT;
    var era := z / DAYS_PER_ERA;
    var dayOfEra := z - era * DAYS_PER_ERA;
    var yearOfEra := YearOfEra(dayOfEra);
    var dayOfYear := dayOfEra - YearStart(yearOfEra);
    var monthPrime := (5 * dayOfYear + 2) / 153;
    var day := dayOfYear - MonthStart(monthPrime) + 1;
    var month := monthPrime + if monthPrime < 10 then 3 else -9;
    Date(yearOfEra + era * 400 + (if month <= 2 then 1 else 0), month, day)
  }

  function YearOfEra(dayOfEra: int): int {
    (dayOfEra - dayOfEra / 1_460 + dayOfEra / 36_524 - dayOfEra / 146_096) / 365
  }

  /** Days before year `y` of an era; years run from March to February. */
  function YearStart(y: int): int { 365 * y + y / 4 - y / 100 }

  /** Days before month `m` of a year that starts in March. */
  function MonthStart(m: int): int { (153 * m + 2) / 5 }

  function DaysFromCivil(d: Date): int {
    var year := d.year - (if d.month <= 2 then 1 else 0);
    var era := year / 400;
    var yearOfEra := year - era * 400;
    var monthPrime := d.month + (if d.month > 2 then -3 else 9);
    var dayOfYear := MonthStart(monthPrime) + d.day - 1;
    era * DAYS_PER_ERA + YearStart(yearOfEra) + dayOfYear - EPOCH_SHIFT
  }

  // ---------------------------------------------------------------------------
  // Years of an era
  // ---------------------------------------------------------------------------

  /** Days in year `y` of an era: the leap day is the last day, in February of the next calendar year. */
  function YearLength(y: int): int { if IsLeap(y + 1) then 366 else 365 }

  /** A year of the era as century, four-year cycle and year in it. */
  lemma YearStartIs(c: int, q: int, k: int)
    requires 0 <= c && 0 <= q < 25 && 0 <= k < 4
    ensures YearStart(100 * c + 4 * q + k) == 36_524 * c + 1_461 * q + 365 * k
  {
    assert (100 * c + 4 * q + k) / 4 == 25 * c + q;
    assert (100 * c + 4 * q + k) / 100 == c;
  }

  lemma IsLeapIn(c: int, q: int, k: int)
    requires 0 <= c < 4 && 0 <= q < 25 && 0 <= k < 4
    ensures IsLeap(100 * c + 4 * q + k + 1) <==> k == 3 && (q < 24 || c == 3)
  {
    var y := 100 * c + 4 * q + k + 1;
    if k < 3 {
      assert y % 4 == k + 1;
    } else if q < 24 {
      assert y % 100 == 4 * q + 4;
    } else {
      assert y == 100 * (c + 1);
    }
  }

  lemma CenturyOf(c: int, rest: int)
    requires 0 <= c < 4 && 0 <= rest && (rest < 36_524 || (c == 3 && rest == 36_524))
    ensures (36_524 * c + rest) / 36_524 - (36_524 * c + rest) / 146_096 == c
  {
  }

  lemma CycleOf(n: int, e: int)
    requires e >= 0 && e < 2_920
    ensures (1_460 * n + e) / 1_460 == n + if e >= 1_460 then 1 else 0
  {
  }

  lemma YearQuotient(y: int, r: int)
    requires 0 <= r < 365
    ensures (365 * y + r) / 365 == y
  {
  }

  /** The formula, once the leap days it takes off are known. */
  lemma YearOfEraUnfolds(doe: int, n: int, c: int, y: int, r: int)
    requires doe / 1_460 == n && doe / 36_524 - doe / 146_096 == c
    requires doe - n + c == 365 * y + r && 0 <= r < 365
    ensures YearOfEra(doe) == y
  {
    YearQuotient(y, r);
  }

  /** The formula finds the year whose first day is `r` days earlier. */
  lemma YearOfEraIs(c: int, q: int, k: int, r: int)
    requires 0 <= c < 4 && 0 <= q < 25 && 0 <= k < 4
    requires 0 <= r < 365 || (r == 365 && k == 3 && (q < 24 || c == 3))
    ensures YearOfEra(36_524 * c + 1_461 * q + 365 * k + r) == 100 * c + 4 * q + k
  {
    hide YearOfEra;
    var doe, e := 36_524 * c + 1_461 * q + 365 * k + r, 24 * c + q + 365 * k + r;
    var delta := if e >= 1_460 then 1 else 0;
    CenturyOf(c, 1_461 * q + 365 * k + r);
    assert doe == 1_460 * (25 * c + q) + e;
    CycleOf(25 * c + q, e);
    YearOfEraUnfolds(doe, 25 * c + q + delta, c, 100 * c + 4 * q + k, r - delta);
  }

  /** Century, four-year cycle, year and day of a day of era. */
  lemma SplitDayOfEra(doe: int) returns (c: int, q: int, k: int, r: int)
    requires 0 <= doe < DAYS_PER_ERA
    ensures 0 <= c < 4 && 0 <= q < 25 && 0 <= k < 4
    ensures doe == 36_524 * c + 1_461 * q + 365 * k + r
    ensures 0 <= r < 365 || (r == 365 && k == 3 && (q < 24 || c == 3))
  {
    var rest, rest';
    c, rest := SplitOff(doe, 36_524, 3);
    q, rest' := SplitOff(rest, 1_461, 24);
    k, r := SplitOff(rest', 365, 3);
  }

  /** At most `limit` whole multiples of `n`, and what is left. */
  lemma SplitOff(x: int, n: int, limit: int) returns (i: int, rest: int)
    requires x >= 0 && n > 0 && limit >= 0
    ensures 0 <= i <= limit && x == n * i + rest && 0 <= rest
    ensures rest < n || i == limit
  {
    i := if x / n < limit then x / n else limit;
    rest := x - n * i;
    if x / n >= limit { MulMono(n, limit, x / n); }
  }

  /** The year of era found from a day of era is the one that contains it. */
  lemma YearOfEraContains(doe: int)
    requires 0 <= doe < DAYS_PER_ERA
    ensures var y := YearOfEra(doe); 0 <= y < 400 && YearStart(y) <= doe < YearStart(y) + YearLength(y)
  {
    hide YearOfEra, YearStart, IsLeap;
    var c, q, k, r := SplitDayOfEra(doe);
    YearStartIs(c, q, k);
    IsLeapIn(c, q, k);
    YearOfEraIs(c, q, k, r);
  }

  /** No other year contains it. */
  lemma YearOfEraUnique(y: int, r: int)
    requires 0 <= y < 400 && 0 <= r < YearLength(y)
    ensures 0 <= YearStart(y) + r < DAYS_PER_ERA && YearOfEra(YearStart(y) + r) == y
  {
    var c, q, k := y / 100, y % 100 / 4, y % 4;
    assert y == 100 * c + 4 * q + k;
    hide YearOfEra, YearStart, IsLeap;
    YearStartIs(c, q, k);
    IsLeapIn(c, q, k);
    YearOfEraIs(c, q, k, r);
  }

  // ---------------------------------------------------------------------------
  // Months of a year that starts in March
  // ---------------------------------------------------------------------------

  lemma MonthFound(dayOfYear: int)
    requires 0 <= dayOfYear < 366
    ensures var m := (5 * dayOfYear + 2) / 153; 0 <= m < 12 && MonthStart(m) <= dayOfYear < MonthStart(m + 1)
  {
  }

  lemma MonthUnique(m: int, d: int)
    requires 0 <= m < 12 && 0 <= d < MonthStart(m + 1) - MonthStart(m)
    ensures (5 * (MonthStart(m) + d) + 2) / 153 == m
  {
  }

  /** Months have their calendar lengths; February is the last and ends with the year. */
  lemma MonthLengths(m: int, year: int)
    requires 0 <= m < 11
    ensures MonthStart(m + 1) - MonthStart(m) == LastDay(year, if m < 10 then m + 3 else m - 9)
    ensures MonthStart(11) == 337
  {
  }

  // ---------------------------------------------------------------------------
  // Day numbers and dates are mutually inverse
  // ---------------------------------------------------------------------------

  lemma LeapRepeats(y: int, era: int)
    ensures IsLeap(y + 400 * era) <==> IsLeap(y)
  {
    Repeats4(y, 100 * era);
    Repeats100(y, 4 * era);
    Repeats400(y, era);
  }

  lemma Repeats4(y: int, k: int)
    ensures (y + 4 * k) % 4 == y % 4
  {
    assert (y + 4 * k) / 4 == y / 4 + k;
  }

  lemma Repeats100(y: int, k: int)
    ensures (y + 100 * k) % 100 == y % 100
  {
    assert (y + 100 * k) / 100 == y / 100 + k;
  }

  lemma Repeats400(y: int, k: int)
    ensures (y + 400 * k) % 400 == y % 400
  {
    assert (y + 400 * k) / 400 == y / 400 + k;
  }

  lemma EraOf(era: int, y: int)
    requires 0 <= y < 400
    ensures (y + era * 400) / 400 == era
  {
  }

  lemma EraOfDay(era: int, doe: int)
    requires 0 <= doe < DAYS_PER_ERA
    ensures (era * DAYS_PER_ERA + doe) / DAYS_PER_ERA == era
  {
  }

  /** Year of era, era and March-based month and day of a date, and back. */
  function FromParts(era: int, y: int, m: int, d: int): Date {
    Date(y + era * 400 + (if m < 10 then 0 else 1), if m < 10 then m + 3 else m - 9, d + 1)
  }

  /** The parts name a day that exists. */
  predicate ValidParts(era: int, y: int, m: int, d: int) {
    && 0 <= y < 400 && 0 <= m < 12 && 0 <= d
    && (if m < 11 then d < MonthStart(m + 1) - MonthStart(m) else MonthStart(11) + d < YearLength(y))
  }

  lemma PartsAreValid(era: int, y: int, m: int, d: int)
    requires 0 <= y < 400 && 0 <= m < 12
    ensures ValidParts(era, y, m, d) <==> ValidDate(FromParts(era, y, m, d))
  {
    LeapRepeats(y + 1, era);
    if m < 11 {
      MonthLengths(m, FromParts(era, y, m, d).year);
    } else {
      MonthLengths(0, 0);
    }
  }

  lemma DaysOfParts(era: int, y: int, m: int, d: int)
    requires 0 <= y < 400 && 0 <= m < 12
    ensures DaysFromCivil(FromParts(era, y, m, d))
         == era * DAYS_PER_ERA + YearStart(y) + MonthStart(m) + d - EPOCH_SHIFT
  {
    hide YearStart;
    EraOf(era, y);
  }

  /** The parts of any valid date. */
  lemma PartsOf(date: Date) returns (era: int, y: int, m: int, d: int)
    requires ValidDate(date)
    ensures ValidParts(era, y, m, d) && FromParts(era, y, m, d) == date
  {
    var year := date.year - (if date.month <= 2 then 1 else 0);
    era, y, m, d := year / 400, year % 400, date.month + (if date.month > 2 then -3 else 9), date.day - 1;
    assert FromParts(era, y, m, d) == date;
    PartsAreValid(era, y, m, d);
  }

  lemma DayInYear(y: int, m: int, d: int)
    requires ValidParts(0, y, m, d)
    ensures 0 <= MonthStart(m) + d < YearLength(y)
    ensures (5 * (MonthStart(m) + d) + 2) / 153 == m
  {
    hide IsLeap;
    if m == 11 {
      assert MonthStart(12) - MonthStart(11) >= 29;
    }
    MonthUnique(m, d);
  }

  /** The formulas, once the era, the year and the month they find are known. */
  lemma CivilUnfolds(era: int, y: int, m: int, d: int, doe: int)
    requires 0 <= m < 12 && era * DAYS_PER_ERA + doe >= 0
    requires (era * DAYS_PER_ERA + doe) / DAYS_PER_ERA == era && YearOfEra(doe) == y
    requires doe == YearStart(y) + MonthStart(m) + d && (5 * (MonthStart(m) + d) + 2) / 153 == m
    ensures CivilFromDays(era * DAYS_PER_ERA + doe - EPOCH_SHIFT) == FromParts(era, y, m, d)
  {
    hide YearStart, YearOfEra, MonthStart;
  }

  /** The date of a day number given by its parts. */
  lemma CivilOfParts(era: int, y: int, m: int, d: int)
    requires ValidParts(era, y, m, d) && era * DAYS_PER_ERA + YearStart(y) + MonthStart(m) + d >= 0
    ensures CivilFromDays(era * DAYS_PER_ERA + YearStart(y) + MonthStart(m) + d - EPOCH_SHIFT)
         == FromParts(era, y, m, d)
  {
    DayInYear(y, m, d);
    hide CivilFromDays, FromParts, ValidParts, MonthStart, YearStart, YearOfEra, YearLength, IsLeap;
    var doe := YearStart(y) + MonthStart(m) + d;
    YearOfEraUnique(y, MonthStart(m) + d);
    EraOfDay(era, doe);
    CivilUnfolds(era, y, m, d, doe);
  }

  /** Every day number has a valid date, and it leads back to the day number. */
  lemma DaysRoundTrip(days: int)
    requires days + EPOCH_SHIFT >= 0
    ensures ValidDate(CivilFromDays(days)) && DaysFromCivil(CivilFromDays(days)) == days
  {
    var z := days + EPOCH_SHIFT;
    var era := z / DAYS_PER_ERA;
    var doe := z - era * DAYS_PER_ERA;
    YearOfEraContains(doe);
    var y := YearOfEra(doe);
    var doy := doe - YearStart(y);
    MonthFound(doy);
    var m := (5 * doy + 2) / 153;
    var d := doy - MonthStart(m);
    hide YearStart, YearOfEra, IsLeap;
    assert ValidParts(era, y, m, d);
    CivilOfParts(era, y, m, d);
    PartsAreValid(era, y, m, d);
    DaysOfParts(era, y, m, d);
  }

  /** Every valid date is the date of its day number. */
  lemma DateRoundTrip(date: Date)
    requires ValidDate(date) && DaysFromCivil(date) + EPOCH_SHIFT >= 0
    ensures CivilFromDays(DaysFromCivil(date)) == date
  {
    var era, y, m, d := PartsOf(date);
    DaysOfParts(era, y, m, d);
    hide YearStart, IsLeap, CivilFromDays, DaysFromCivil, ValidDate, FromParts, MonthStart;
    CivilOfParts(era, y, m, d);
  }

  // ---------------------------------------------------------------------------
  // The calendar as one day after another
  // ---------------------------------------------------------------------------

  lemma NextYearStart(y: int)
    requires 0 <= y < 400
    ensures if y < 399 then YearStart(y + 1) == YearStart(y) + YearLength(y)
            else YearStart(0) == 0 && YearStart(y) + YearLength(y) == DAYS_PER_ERA
  {
    var c, q, k := y / 100, y % 100 / 4, y % 4;
    assert y == 100 * c + 4 * q + k;
    hide YearStart, IsLeap;
    YearStartIs(c, q, k);
    IsLeapIn(c, q, k);
    if k < 3 {
      YearStartIs(c, q, k + 1);
    } else if q < 24 {
      YearStartIs(c, q + 1, 0);
    } else if c < 3 {
      YearStartIs(c + 1, 0, 0);
    } else {
      YearStartIs(0, 0, 0);
    }
  }

  /** Months numbered from January of year 0. */
  function MonthIndex(d: Date): int { d.year * 12 + d.month - 1 }

  function DateIn(index: int, day: int): Date { Date(index / 12, index % 12 + 1, day) }

  function DaysIn(index: int): int { LastDay(index / 12, index % 12 + 1) }

  function FirstOfNext(d: Date): Date {
    if d.month < 12 then Date(d.year, d.month + 1, 1) else Date(d.year + 1, 1, 1)
  }

  lemma NextIndex(index: int)
    ensures DateIn(index + 1, 1) == FirstOfNext(DateIn(index, 1)) && ValidDate(DateIn(index, 1))
  {
  }

  lemma NextParts(era: int, y: int, m: int)
    requires 0 <= y < 400 && 0 <= m < 12
    ensures FirstOfNext(FromParts(era, y, m, 0))
         == if m < 11 then FromParts(era, y, m + 1, 0)
            else if y < 399 then FromParts(era, y + 1, 0, 0)
            else FromParts(era + 1, 0, 0, 0)
  {
  }

  lemma MonthInYearIsLater(era: int, y: int, m: int)
    requires 0 <= y < 400 && 0 <= m < 11
    ensures var first := FromParts(era, y, m, 0);
            DaysFromCivil(FirstOfNext(first)) == DaysFromCivil(first) + LastDay(first.year, first.month)
  {
    hide DaysFromCivil, FirstOfNext, IsLeap, YearStart, MonthStart, LastDay;
    NextParts(era, y, m);
    MonthLengths(m, FromParts(era, y, m, 0).year);
    DaysOfParts(era, y, m, 0);
    DaysOfParts(era, y, m + 1, 0);
  }

  /** The last month runs to the end of the year. */
  lemma LastMonthLength(era: int, y: int)
    requires 0 <= y < 400
    ensures var first := FromParts(era, y, 11, 0); MonthStart(11) + LastDay(first.year, first.month) == YearLength(y)
    ensures MonthStart(0) == 0
  {
    LeapRepeats(y + 1, era);
  }

  lemma MonthAcrossYearsIsLater(era: int, y: int)
    requires 0 <= y < 400
    ensures var first := FromParts(era, y, 11, 0);
            DaysFromCivil(FirstOfNext(first)) == DaysFromCivil(first) + LastDay(first.year, first.month)
  {
    hide DaysFromCivil, YearStart, FirstOfNext, IsLeap, LastDay, MonthStart, YearLength;
    NextParts(era, y, 11);
    NextYearStart(y);
    LastMonthLength(era, y);
    DaysOfParts(era, y, 11, 0);
    if y < 399 { DaysOfParts(era, y + 1, 0, 0); } else { DaysOfParts(era + 1, 0, 0, 0); }
  }

  lemma FirstOfNextIsLater(era: int, y: int, m: int)
    requires 0 <= y < 400 && 0 <= m < 12
    ensures var first := FromParts(era, y, m, 0);
            DaysFromCivil(FirstOfNext(first)) == DaysFromCivil(first) + LastDay(first.year, first.month)
  {
    hide DaysFromCivil, FirstOfNext, LastDay, FromParts;
    if m < 11 { MonthInYearIsLater(era, y, m); } else { MonthAcrossYearsIsLater(era, y); }
  }

  /** Consecutive months follow one another without a gap. */
  lemma NextMonth(index: int)
    ensures DaysFromCivil(DateIn(index + 1, 1)) == DaysFromCivil(DateIn(index, 1)) + DaysIn(index)
  {
    hide DaysFromCivil, LastDay, FirstOfNext, FromParts;
    NextIndex(index);
    var era, y, m, d := PartsOf(DateIn(index, 1));
    assert d == 0 by { PartsDay(era, y, m, d); }
    FirstOfNextIsLater(era, y, m);
  }

  lemma PartsDay(era: int, y: int, m: int, d: int)
    ensures FromParts(era, y, m, d).day == d + 1
  {
  }

  lemma DayOfMonth(index: int, day: int)
    ensures DaysFromCivil(DateIn(index, day)) == DaysFromCivil(DateIn(index, 1)) + day - 1
  {
  }

  /** The next day on the calendar. */
  function NextDay(d: Date): Date {
    if d.day < LastDay(d.year, d.month) then d.(day := d.day + 1)
    else if d.month < 12 then Date(d.year, d.month + 1, 1)
    else Date(d.year + 1, 1, 1)
  }

  lemma IndexRoundTrip(d: Date)
    requires 1 <= d.month <= 12
    ensures DateIn(MonthIndex(d), d.day) == d
  {
  }

  /** Day numbers count the days of the calendar one by one, from 1970-01-01. */
  lemma DaysCountCalendarDays(d: Date)
    requires ValidDate(d)
    ensures ValidDate(NextDay(d)) && DaysFromCivil(NextDay(d)) == DaysFromCivil(d) + 1
    ensures DaysFromCivil(Date(1970, 1, 1)) == 0
  {
    hide DaysFromCivil, IsLeap;
    var index := MonthIndex(d);
    IndexRoundTrip(d);
    IndexRoundTrip(NextDay(d));
    DayOfMonth(index, d.day);
    DayOfMonth(index, d.day + 1);
    NextMonth(index);
    Epoch();
  }

  lemma Epoch()
    ensures DaysFromCivil(Date(1970, 1, 1)) == 0
  {
  }

  // ---------------------------------------------------------------------------
  // Adding months
  // ---------------------------------------------------------------------------

  const DAY_NS: nat := 86_400_000_000_000
  const U64_MAX: nat := 0xFFFF_FFFF_FFFF_FFFF

  function Clamp(anchor: nat): nat { if anchor < 1 then 1 else if anchor > 31 then 31 else anchor }

  /** The anchor day, or the last day of a shorter month. */
  function AnchorIn(anchor: nat, index: int): int {
    if Clamp(anchor) <= DaysIn(index) then Clamp(anchor) else DaysIn(index)
  }

  /** The timestamp before it is fitted into 64 bits. */
  function MonthsLater(anchor: nat, months: nat, from: nat): int {
    if months == 0 then from
    else
      var index := MonthIndex(CivilFromDays(from / DAY_NS)) + months;
      DaysFromCivil(DateIn(index, AnchorIn(anchor, index))) * DAY_NS + from % DAY_NS
  }

  /** `add_months_stripe_style`. */
  function AddMonths(anchor: nat, months: nat, from: nat): nat {
    var t := MonthsLater(anchor, months, from);
    if 0 <= t <= U64_MAX then t else U64_MAX
  }

  lemma AnchorIsValid(anchor: nat, index: int)
    ensures ValidDate(DateIn(index, AnchorIn(anchor, index)))
    ensures MonthIndex(DateIn(index, AnchorIn(anchor, index))) == index
  {
  }

  /** Every day of a later month is later. */
  lemma {:induction false} LaterMonthIsLater(i: int, d: int, j: int, e: int)
    requires i < j && 1 <= d <= DaysIn(i) && 1 <= e
    ensures DaysFromCivil(DateIn(i, d)) < DaysFromCivil(DateIn(j, e))
    decreases j - i
  {
    hide DaysFromCivil, LastDay, DateIn;
    DayOfMonth(i, d);
    DayOfMonth(j, e);
    NextMonth(i);
    if i + 1 < j {
      assert DaysIn(i + 1) >= 1 by { MonthLength(i + 1); }
      LaterMonthIsLater(i + 1, 1, j, 1);
    }
  }

  lemma MonthLength(index: int)
    ensures 28 <= DaysIn(index) <= 31
  {
  }

  lemma SplitTimestamp(days: int, time: nat)
    requires time < DAY_NS
    ensures (days * DAY_NS + time) / DAY_NS == days && (days * DAY_NS + time) % DAY_NS == time
  {
  }

  /** The month reached, and the date in it. */
  lemma MonthsLaterLands(anchor: nat, months: nat, from: nat)
    requires months >= 1
    ensures MonthsLater(anchor, months, from) > from
    ensures var index := MonthIndex(CivilFromDays(from / DAY_NS)) + months;
            var later := MonthsLater(anchor, months, from);
            && MonthIndex(CivilFromDays(later / DAY_NS)) == index && later % DAY_NS == from % DAY_NS
            && CivilFromDays(later / DAY_NS) == DateIn(index, AnchorIn(anchor, index))
  {
    hide DaysFromCivil, CivilFromDays, LastDay, DateIn, AnchorIn;
    var days := from / DAY_NS;
    var start := CivilFromDays(days);
    DaysRoundTrip(days);
    IndexRoundTrip(start);
    var index := MonthIndex(start) + months;
    var day := AnchorIn(anchor, index);
    AnchorIsValid(anchor, index);
    AnchorAtLeastOne(anchor, index);
    DayIsInMonth(start);
    LaterMonthIsLater(MonthIndex(start), start.day, index, day);
    var target := DaysFromCivil(DateIn(index, day));
    DateRoundTrip(DateIn(index, day));
    SplitTimestamp(target, from % DAY_NS);
    SplitTimestamp(days, from % DAY_NS);
  }

  lemma DayIsInMonth(d: Date)
    requires ValidDate(d)
    ensures 1 <= d.day <= DaysIn(MonthIndex(d))
  {
  }

  lemma AnchorAtLeastOne(anchor: nat, index: int)
    ensures 1 <= AnchorIn(anchor, index)
  {
  }

  /** Adding months is strictly later, unless 64 bits are exhausted. */
  lemma AddMonthsIsLater(anchor: nat, months: nat, from: nat)
    requires months >= 1 && from < U64_MAX
    ensures from < AddMonths(anchor, months, from)
  {
    MonthsLaterLands(anchor, months, from);
  }

  /** Where months later lands: in that month, on the anchor day or the last day of a shorter month, at the same time of
      day. An anchor below the first is the first. */
  lemma AddMonthsLandsOn(anchor: nat, months: nat, from: nat)
    requires months >= 1 && MonthsLater(anchor, months, from) <= U64_MAX
    ensures var later := AddMonths(anchor, months, from);
            var d, e := CivilFromDays(from / DAY_NS), CivilFromDays(later / DAY_NS);
            var last := LastDay(e.year, e.month);
            && e.year * 12 + e.month == d.year * 12 + d.month + months
            && 1 <= e.month <= 12
            && (1 <= anchor <= last ==> e.day == anchor)
            && (anchor > last ==> e.day == last)
            && (anchor == 0 ==> e.day == 1)
            && later % DAY_NS == from % DAY_NS
  {
    hide CivilFromDays, DaysFromCivil, MonthsLater, LastDay;
    MonthsLaterLands(anchor, months, from);
    MonthLength(MonthIndex(CivilFromDays(from / DAY_NS)) + months);
  }

  /** With one anchor, adding `m` and then `n` months is adding `m + n`, however short the months in between. */
  lemma MonthsCompose(anchor: nat, m: nat, n: nat, from: nat)
    requires m >= 1 && n >= 1
    ensures MonthsLater(anchor, m, from) >= 0
    ensures MonthsLater(anchor, n, MonthsLater(anchor, m, from)) == MonthsLater(anchor, m + n, from)
  {
    hide CivilFromDays, DaysFromCivil, DateIn, AnchorIn, MonthIndex;
    MonthsLaterLands(anchor, m, from);
  }

  lemma AddMonthsCompose(anchor: nat, m: nat, n: nat, from: nat)
    requires m >= 1 && n >= 1 && MonthsLater(anchor, m + n, from) <= U64_MAX
    ensures AddMonths(anchor, n, AddMonths(anchor, m, from)) == AddMonths(anchor, m + n, from)
  {
    hide MonthsLater;
    MonthsCompose(anchor, m, n, from);
    MonthsLaterLands(anchor, n, MonthsLater(anchor, m, from));
  }

  // ---------------------------------------------------------------------------
  // Billing windows
  // ---------------------------------------------------------------------------

  datatype Window = Window(start: nat, end: nat)

  /** The billing period that contains `now`, counted on from `start`. */
  function WindowFrom(anchor: nat, start: nat, now: nat): Window
    requires now < U64_MAX
    decreases U64_MAX - start
  {
    var end := AddMonths(anchor, 1, start);
    if now < end then Window(start, end)
    else
      EndIsLater(anchor, start, now);
      WindowFrom(anchor, end, now)
  }

  /** `projected_subscription_window_from`. */
  method ProjectWindow(anchor: nat, from: nat, now: nat) returns (w: Window)
    requires now < U64_MAX
    ensures w == WindowFrom(anchor, from, now)
  {
    hide AddMonths;
    var start := from;
    var end := AddMonths(anchor, 1, start);
    while now >= end
      invariant end == AddMonths(anchor, 1, start)
      invariant WindowFrom(anchor, start, now) == WindowFrom(anchor, from, now)
      decreases U64_MAX - start
    {
      EndIsLater(anchor, start, now);
      start := end;
      end := AddMonths(anchor, 1, start);
    }
    w := Window(start, end);
  }

  lemma EndIsLater(anchor: nat, start: nat, now: nat)
    requires AddMonths(anchor, 1, start) <= now < U64_MAX
    ensures start < AddMonths(anchor, 1, start)
  {
    hide MonthsLater, CivilFromDays;
    MonthsLaterLands(anchor, 1, start);
  }

  /** The window is a whole number of months on, ends after `now`, and starts no later than `now` if it has moved. */
  lemma {:induction false} WindowContainsNow(anchor: nat, start: nat, now: nat) returns (months: nat)
    requires now < U64_MAX && start <= U64_MAX
    ensures var w := WindowFrom(anchor, start, now);
            && w.start == AddMonths(anchor, months, start)
            && w.end == AddMonths(anchor, 1, w.start)
            && now < w.end
            && (months > 0 ==> w.start <= now)
    decreases U64_MAX - start
  {
    hide AddMonths, MonthsLater;
    var end := AddMonths(anchor, 1, start);
    NoMonths(anchor, start);
    if now < end {
      months := 0;
    } else {
      EndIsLater(anchor, start, now);
      months := WindowContainsNow(anchor, end, now);
      NoMonths(anchor, end);
      if months > 0 { StepThenMore(anchor, months, start, now); }
      months := months + 1;
    }
  }

  lemma NoMonths(anchor: nat, from: nat)
    requires from <= U64_MAX
    ensures AddMonths(anchor, 0, from) == from
  {
  }

  lemma StepThenMore(anchor: nat, months: nat, start: nat, now: nat)
    requires months >= 1 && AddMonths(anchor, months, AddMonths(anchor, 1, start)) <= now < U64_MAX
    ensures AddMonths(anchor, months, AddMonths(anchor, 1, start)) == AddMonths(anchor, months + 1, start)
  {
    hide MonthsLater, CivilFromDays, MonthIndex;
    MonthsLaterLands(anchor, 1, start);
    MonthsLaterLands(anchor, months, AddMonths(anchor, 1, start));
    MonthsCompose(anchor, 1, months, start);
  }

  /** Looking at an earlier time first does not change the window. */
  lemma {:induction false} WindowTwice(anchor: nat, start: nat, t1: nat, t2: nat)
    requires t1 <= t2 < U64_MAX
    ensures WindowFrom(anchor, WindowFrom(anchor, start, t1).start, t2) == WindowFrom(anchor, start, t2)
    decreases U64_MAX - start
  {
    hide AddMonths;
    var end := AddMonths(anchor, 1, start);
    if t1 >= end {
      EndIsLater(anchor, start, t1);
      WindowTwice(anchor, end, t1, t2);
    }
  }

  /** Two times see the same window exactly when the later one comes before the end of the earlier one's window. */
  lemma SameWindowIff(anchor: nat, start: nat, t1: nat, t2: nat)
    requires t1 <= t2 < U64_MAX
    ensures WindowFrom(anchor, start, t1) == WindowFrom(anchor, start, t2) <==> t2 < WindowFrom(anchor, start, t1).end
  {
    hide AddMonths;
    WindowTwice(anchor, start, t1, t2);
    WindowEnds(anchor, start, t1);
    WindowEnds(anchor, start, t2);
  }

  lemma {:induction false} WindowEnds(anchor: nat, start: nat, now: nat)
    requires now < U64_MAX
    ensures var w := WindowFrom(anchor, start, now); w.end == AddMonths(anchor, 1, w.start) && now < w.end
    decreases U64_MAX - start
  {
    hide AddMonths;
    if now >= AddMonths(anchor, 1, start) {
      EndIsLater(anchor, start, now);
      WindowEnds(anchor, AddMonths(anchor, 1, start), now);
    }
  }

  // ---------------------------------------------------------------------------
  // When the window loop ends
  // ---------------------------------------------------------------------------

  /** The start of the period after `n` turns of the loop. */
  function StartAfter(anchor: nat, start: nat, n: nat): nat {
    if n == 0 then start else AddMonths(anchor, 1, StartAfter(anchor, start, n - 1))
  }

  lemma {:induction false} TurnThenMore(anchor: nat, start: nat, n: nat)
    ensures StartAfter(anchor, AddMonths(anchor, 1, start), n) == StartAfter(anchor, start, n + 1)
  {
    hide AddMonths;
    if n > 0 { TurnThenMore(anchor, start, n - 1); }
  }

  lemma {:induction false} TurnsToWindow(anchor: nat, start: nat, now: nat) returns (n: nat)
    requires now < U64_MAX
    ensures StartAfter(anchor, start, n) == WindowFrom(anchor, start, now).start
    decreases U64_MAX - start
  {
    hide AddMonths;
    n := 0;
    if now >= AddMonths(anchor, 1, start) {
      EndIsLater(anchor, start, now);
      n := TurnsToWindow(anchor, AddMonths(anchor, 1, start), now);
      TurnThenMore(anchor, start, n);
      n := n + 1;
    }
  }

  /** After `n` turns the loop condition fails. */
  predicate StopsAfter(anchor: nat, start: nat, now: nat, n: nat) {
    now < AddMonths(anchor, 1, StartAfter(anchor, start, n))
  }

  /** The loop ends exactly when the clock is not at the last 64-bit nanosecond, where additions saturate. */
  lemma LoopEndsIff(anchor: nat, start: nat, now: nat)
    requires now <= U64_MAX
    ensures (exists n :: StopsAfter(anchor, start, now, n)) <==> now < U64_MAX
  {
    hide MonthsLater, StartAfter;
    if now < U64_MAX {
      var n := TurnsToWindow(anchor, start, now);
      WindowEnds(anchor, start, now);
      assert StopsAfter(anchor, start, now, n);
    }
  }
}
