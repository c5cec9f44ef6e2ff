/** Locale weeks over the proleptic Gregorian calendar: weekOfYear, its inverse dayOfYearFromWeeks, and
    weeksInYear. Days are numbered in one line; years may be zero or negative. */
module Calendar {
  import opened Options

  // ---------------------------------------------------------------- years and days

  predicate IsLeapYear(year: int) {
    (year % 4 == 0 && year % 100 != 0) || year % 400 == 0
  }

  function DaysInYear(year: int): int {
    if IsLeapYear(year) then 366 else 365
  }

  /** The number of January 1st: division rounds down, so this holds for years before 1 too. */
  function StartOfYear(year: int): int {
    365 * year + (year - 1) / 4 - (year - 1) / 100 + (year - 1) / 400
  }

  /** dayOfYear is 1 on January 1st. A pair outside the year still denotes a day. */
  datatype YearDay = YearDay(year: int, day: int) {
    predicate Valid() {
      1 <= day <= DaysInYear(year)
    }

    function Number(): int {
      StartOfYear(year) + day - 1
    }
  }

  /** 0 is Sunday; January 1st of year 1 is a Monday. */
  function Weekday(n: int): int {
    n % 7
  }

  lemma FoursStep(n: int)
    ensures n / 4 == (n - 1) / 4 + if n % 4 == 0 then 1 else 0
  {
  }

  lemma HundredsStep(n: int)
    ensures n / 100 == (n - 1) / 100 + if n % 100 == 0 then 1 else 0
  {
  }

  lemma FourHundredsStep(n: int)
    ensures n / 400 == (n - 1) / 400 + if n % 400 == 0 then 1 else 0
  {
  }

  lemma HundredDivides(n: int, k: int)
    requires n == 100 * k
    ensures n % 100 == 0
  {
  }

  lemma FourDivides(n: int, k: int)
    requires n == 4 * k
    ensures n % 4 == 0
  {
  }

  lemma CenturiesAreHundreds(n: int)
    ensures n % 400 == 0 ==> n % 100 == 0
  {
    if n % 400 == 0 {
      HundredDivides(n, 4 * (n / 400));
    }
  }

  lemma HundredsAreFours(n: int)
    ensures n % 100 == 0 ==> n % 4 == 0
  {
    if n % 100 == 0 {
      FourDivides(n, 25 * (n / 100));
    }
  }

  lemma YearsAdjoin(year: int)
    ensures StartOfYear(year + 1) == StartOfYear(year) + DaysInYear(year)
  {
    FoursStep(year);
    HundredsStep(year);
    FourHundredsStep(year);
    CenturiesAreHundreds(year);
    HundredsAreFours(year);
  }

  /** Date arithmetic: the day-th day of the year, carried into the year it falls in. */
  function Carry(year: int, day: int): (r: YearDay)
    ensures r.Valid() && r.Number() == YearDay(year, day).Number()
    decreases if day < 1 then 1 - day else if day > DaysInYear(year) then day else 0
  {
    if day < 1 then
      YearsAdjoin(year - 1);
      Carry(year - 1, day + DaysInYear(year - 1))
    else if day > DaysInYear(year) then
      YearsAdjoin(year);
      Carry(year + 1, day - DaysInYear(year))
    else YearDay(year, day)
  }

  lemma DateExists(n: int)
    ensures exists d: YearDay :: d.Valid() && d.Number() == n
  {
    var d := Carry(1, n - StartOfYear(1) + 1);
    assert d.Valid() && d.Number() == n;
  }

  /** The date of a day number; there is only one. */
  ghost function FromNumber(n: int): (r: YearDay)
    ensures r.Valid() && r.Number() == n
  {
    DateExists(n);
    var d: YearDay :| d.Valid() && d.Number() == n;
    d
  }

  lemma {:induction false} YearsAreOrdered(year: int, later: int)
    requires year < later
    ensures StartOfYear(year) + DaysInYear(year) <= StartOfYear(later)
    decreases later - year
  {
    YearsAdjoin(later - 1);
    if year < later - 1 {
      YearsAreOrdered(year, later - 1);
    }
  }

  /** Each day is in one year only. */
  lemma DatesAreDistinct(a: YearDay, b: YearDay)
    requires a.Valid() && b.Valid() && a.Number() == b.Number()
    ensures a == b
  {
    if a.year < b.year {
      YearsAreOrdered(a.year, b.year);
    } else if b.year < a.year {
      YearsAreOrdered(b.year, a.year);
    }
  }

  // ---------------------------------------------------------------- what a locale week is

  datatype Week = Week(year: int, week: int)

  /** dow starts the week. A week belongs to the year of its day doy, counted on from dow. */
  predicate Locale(dow: int, doy: int) {
    0 <= dow <= 6 && dow <= doy <= dow + 6
  }

  function WeekStart(n: int, dow: int): (s: int)
    ensures s <= n < s + 7
  {
    dow + 7 * ((n - dow) / 7)
  }

  /** The day of n's week that decides the week's year. */
  function Anchor(n: int, dow: int, doy: int): int {
    WeekStart(n, dow) + doy - dow
  }

  ghost function WeekOf(n: int, dow: int, doy: int): Week {
    var anchor := FromNumber(Anchor(n, dow, doy));
    Week(anchor.year, (anchor.day + 6) / 7)
  }

  /** dow..dow + 6, as the locale numbers the day in its week. */
  function LocaleWeekday(n: int, dow: int): (d: int)
    ensures dow <= d <= dow + 6
  {
    n - WeekStart(n, dow) + dow
  }

  /** The first day of week 1: the week whose deciding day is among the first seven of the year. */
  function FirstWeek(year: int, dow: int, doy: int): int {
    WeekStart(StartOfYear(year) + 6 + dow - doy, dow)
  }

  function DayOf(w: Week, weekday: int, dow: int, doy: int): int {
    FirstWeek(w.year, dow, doy) + 7 * (w.week - 1) + weekday - dow
  }

  /** December 31st + dow - doy: its week is the last to have its deciding day in the year. */
  function LastCounted(year: int, dow: int, doy: int): YearDay {
    YearDay(year, DaysInYear(year) + dow - doy)
  }

  ghost function WeekCount(year: int, dow: int, doy: int): int {
    WeekOf(LastCounted(year, dow, doy).Number(), dow, doy).week
  }

  // ---------------------------------------------------------------- arithmetic of sevens

  lemma LocaleWeekdayOf(n: int, dow: int)
    requires 0 <= dow <= 6
    ensures LocaleWeekday(n, dow) == if n % 7 < dow then n % 7 + 7 else n % 7
  {
    var q := n / 7;
    var r := n % 7;
    if r < dow {
      DivideBySeven(n - dow, q - 1, r - dow + 7);
    } else {
      DivideBySeven(n - dow, q, r - dow);
    }
  }

  /** The first deciding day at or after the start of a year is among its first seven days. */
  lemma FirstOfSeven(start: int, dow: int, doy: int)
    requires Locale(dow, doy)
    ensures start <= Anchor(start + 6 + dow - doy, dow, doy) < start + 7
  {
  }

  lemma DivideBySeven(n: int, q: int, r: int)
    requires n == 7 * q + r && 0 <= r < 7
    ensures n / 7 == q && n % 7 == r
  {
  }

  /** Counting sevens from a first deciding day: the day of the year that is k weeks on. */
  lemma WeekNumber(start: int, first: int, k: int, day: int)
    requires start <= first < start + 7 && start + day - 1 == first + 7 * k && 1 <= day <= 366
    ensures (day + 6) / 7 == k + 1 && 0 <= k <= 52
  {
    DivideBySeven(day + 6, k + 1, first - start);
  }

  /** Seven consecutive days from a week's start have that start. */
  lemma ShiftedWeekStart(n: int, k: int, offset: int, dow: int)
    requires 0 <= offset < 7
    ensures WeekStart(WeekStart(n, dow) + 7 * k + offset, dow) == WeekStart(n, dow) + 7 * k
  {
    var q := (n - dow) / 7 + k;
    DivideBySeven(WeekStart(n, dow) + 7 * k + offset - dow, q, offset);
  }

  /** A day a whole number of weeks from doy is the one of seven that shares doy's weekday. */
  lemma SharesWeekday(start: int, q: int, doy: int, j: int)
    requires start <= doy + 7 * q < start + 7 && 0 <= j < 7
    ensures Weekday(start + j) == doy % 7 <==> doy + 7 * q == start + j
  {
    var r := doy % 7;
    var p := doy / 7 + q;
    assert doy + 7 * q == 7 * p + r;
    var d := start + j - (7 * p + r);
    assert -7 < d < 7;
    if d == 0 {
      assert (7 * p + r) % 7 == r;
    } else if 0 <= r + d < 7 {
      assert (7 * p + (r + d)) % 7 == r + d;
    } else if r + d < 0 {
      assert (7 * (p - 1) + (r + d + 7)) % 7 == r + d + 7;
    } else {
      assert (7 * (p + 1) + (r + d - 7)) % 7 == r + d - 7;
    }
  }

  // ---------------------------------------------------------------- the three functions

  method WeekOfYear(date: YearDay, dow: int, doy: int) returns (r: Week)
    requires date.Valid() && Locale(dow, doy)
    ensures r == WeekOf(date.Number(), dow, doy)
  {
    LocaleWeekdayOf(date.Number(), dow);
    var end := doy - dow;
    var daysToDayOfWeek := doy - Weekday(date.Number());
    if daysToDayOfWeek > end {
      daysToDayOfWeek := daysToDayOfWeek - 7;
    }
    if daysToDayOfWeek < end - 7 {
      daysToDayOfWeek := daysToDayOfWeek + 7;
    }
    var adjusted := Carry(date.year, date.day + daysToDayOfWeek);
    assert adjusted.Number() == Anchor(date.Number(), dow, doy);
    DatesAreDistinct(adjusted, FromNumber(adjusted.Number()));
    r := Week(adjusted.year, (adjusted.day + 6) / 7);
  }

  lemma SameDayInYearBefore(year: int, day: int)
    ensures YearDay(year - 1, DaysInYear(year - 1) + day).Number() == YearDay(year, day).Number()
  {
    YearsAdjoin(year - 1);
  }

  /** The result may run past the end of its year; it is never before the start of the year before. */
  method DayOfYearFromWeeks(year: int, week: int, weekday: Option<int>, doy: int, dow: int) returns (r: YearDay)
    requires Locale(dow, doy)
    ensures r.Number() == DayOf(Week(year, week), if weekday.Some? then weekday.value else dow, dow, doy)
    ensures if r.year == year then r.day > 0 else r.year == year - 1 && r.day <= DaysInYear(year - 1)
  {
    var week1Jan := 6 + dow - doy;
    ghost var january := YearDay(year, 1 + week1Jan).Number();
    LocaleWeekdayOf(january, dow);
    var d := Weekday(YearDay(year, 1 + week1Jan).Number());
    if d < dow {
      d := d + 7;
    }
    assert FirstWeek(year, dow, doy) == january - d + dow;
    var day := if weekday.Some? then weekday.value else dow;
    var dayOfYear := 1 + week1Jan + 7 * (week - 1) - d + day;
    assert YearDay(year, dayOfYear).Number() == FirstWeek(year, dow, doy) + 7 * (week - 1) + day - dow;
    SameDayInYearBefore(year, dayOfYear);
    r := YearDay(if dayOfYear > 0 then year else year - 1,
                 if dayOfYear > 0 then dayOfYear else DaysInYear(year - 1) + dayOfYear);
  }

  /** December 31st + dow - doy stays in December. */
  method WeeksInYear(year: int, dow: int, doy: int) returns (n: int)
    requires Locale(dow, doy)
    ensures n == WeekCount(year, dow, doy)
  {
    var w := WeekOfYear(LastCounted(year, dow, doy), dow, doy);
    n := w.week;
  }

  // ---------------------------------------------------------------- weeks fill the years

  /** The first deciding day of a year. */
  function FirstAnchor(year: int, dow: int, doy: int): int {
    FirstWeek(year, dow, doy) + doy - dow
  }

  lemma FirstAnchorIsEarly(year: int, dow: int, doy: int)
    requires Locale(dow, doy)
    ensures StartOfYear(year) <= FirstAnchor(year, dow, doy) < StartOfYear(year) + 7
  {
    FirstOfSeven(StartOfYear(year), dow, doy);
  }

  /** Every deciding day is a whole number of weeks from a year's first. */
  lemma AnchorFromFirst(n: int, year: int, dow: int, doy: int) returns (k: int)
    ensures Anchor(n, dow, doy) == FirstAnchor(year, dow, doy) + 7 * k
    ensures WeekStart(n, dow) == FirstWeek(year, dow, doy) + 7 * k
  {
    k := (n - dow) / 7 - (StartOfYear(year) + 6 + dow - doy - dow) / 7;
  }

  lemma AnchorIsCounted(n: int, dow: int, doy: int)
    requires Locale(dow, doy)
    ensures var w := WeekOf(n, dow, doy);
      WeekStart(n, dow) == FirstWeek(w.year, dow, doy) + 7 * (w.week - 1) && 1 <= w.week <= 53
  {
    var date := FromNumber(Anchor(n, dow, doy));
    var first := FirstAnchor(date.year, dow, doy);
    FirstAnchorIsEarly(date.year, dow, doy);
    var k := AnchorFromFirst(n, date.year, dow, doy);
    assert date.day <= 366;
    WeekNumber(StartOfYear(date.year), first, k, date.day);
    assert WeekOf(n, dow, doy) == Week(date.year, k + 1);
  }

  /** weekOfYear and dayOfYearFromWeeks: every date comes back from its week and weekday, in every locale. */
  lemma WeekRoundTrip(date: YearDay, dow: int, doy: int)
    requires date.Valid() && Locale(dow, doy)
    ensures var w := WeekOf(date.Number(), dow, doy);
      && DayOf(w, LocaleWeekday(date.Number(), dow), dow, doy) == date.Number()
      && 1 <= w.week <= 53
  {
    AnchorIsCounted(date.Number(), dow, doy);
  }

  /** weeksInYear is the distance to the next year's first week. */
  lemma WeeksFillYear(year: int, dow: int, doy: int)
    requires Locale(dow, doy)
    ensures FirstWeek(year + 1, dow, doy) == FirstWeek(year, dow, doy) + 7 * WeekCount(year, dow, doy)
  {
    YearsAdjoin(year);
    FirstAnchorIsEarly(year, dow, doy);
    FirstAnchorIsEarly(year + 1, dow, doy);
    var last := LastCounted(year, dow, doy).Number();
    var a := Anchor(last, dow, doy);
    var k := AnchorFromFirst(last, year + 1, dow, doy);
    assert k == -1;
    DatesAreDistinct(FromNumber(a), YearDay(year, a - StartOfYear(year) + 1));
    AnchorIsCounted(last, dow, doy);
  }

  lemma DayOfIsInWeek(w: Week, weekday: int, dow: int, doy: int)
    requires dow <= weekday <= dow + 6
    ensures WeekStart(DayOf(w, weekday, dow, doy), dow) == FirstWeek(w.year, dow, doy) + 7 * (w.week - 1)
    ensures LocaleWeekday(DayOf(w, weekday, dow, doy), dow) == weekday
  {
    ShiftedWeekStart(StartOfYear(w.year) + 6 + dow - doy, w.week - 1, weekday - dow, dow);
  }

  lemma CountedDayIsInYear(start: int, days: int, first: int, next: int, count: int, week: int)
    requires start <= first && next < start + days + 7 && next == first + 7 * count && 1 <= week <= count
    ensures 1 <= first + 7 * (week - 1) - start + 1 <= days
  {
  }

  lemma FoundInYear(n: int, year: int)
    requires 1 <= n - StartOfYear(year) + 1 <= DaysInYear(year)
    ensures FromNumber(n) == YearDay(year, n - StartOfYear(year) + 1)
  {
    DatesAreDistinct(FromNumber(n), YearDay(year, n - StartOfYear(year) + 1));
  }

  lemma CountedDate(year: int, first: int, next: int, count: int, week: int)
    requires StartOfYear(year) <= first < StartOfYear(year) + 7 && next < StartOfYear(year + 1) + 7
    requires next == first + 7 * count && 1 <= week <= count
    ensures var date := FromNumber(first + 7 * (week - 1)); date.year == year && (date.day + 6) / 7 == week
  {
    YearsAdjoin(year);
    CountedDayIsInYear(StartOfYear(year), DaysInYear(year), first, next, count, week);
    FoundInYear(first + 7 * (week - 1), year);
    WeekNumber(StartOfYear(year), first, week - 1, first + 7 * (week - 1) - StartOfYear(year) + 1);
  }

  lemma CountedAnchor(w: Week, dow: int, doy: int)
    requires Locale(dow, doy) && 1 <= w.week <= WeekCount(w.year, dow, doy)
    ensures var date := FromNumber(FirstAnchor(w.year, dow, doy) + 7 * (w.week - 1));
            Week(date.year, (date.day + 6) / 7) == w
  {
    WeeksFillYear(w.year, dow, doy);
    FirstAnchorIsEarly(w.year, dow, doy);
    FirstAnchorIsEarly(w.year + 1, dow, doy);
    CountedDate(w.year, FirstAnchor(w.year, dow, doy), FirstAnchor(w.year + 1, dow, doy), WeekCount(w.year, dow, doy), w.week);
  }

  lemma OnlyCountedAnchors(n: int, dow: int, doy: int)
    requires Locale(dow, doy)
    ensures 1 <= WeekOf(n, dow, doy).week <= WeekCount(WeekOf(n, dow, doy).year, dow, doy)
  {
    var date := FromNumber(Anchor(n, dow, doy));
    AnchorIsCounted(n, dow, doy);
    WeeksFillYear(date.year, dow, doy);
    YearsAdjoin(date.year);
    FirstAnchorIsEarly(date.year + 1, dow, doy);
  }

  lemma CountedWeekComesBack(w: Week, weekday: int, dow: int, doy: int)
    requires Locale(dow, doy) && dow <= weekday <= dow + 6 && 1 <= w.week <= WeekCount(w.year, dow, doy)
    ensures WeekOf(DayOf(w, weekday, dow, doy), dow, doy) == w
  {
    DayOfIsInWeek(w, weekday, dow, doy);
    CountedAnchor(w, dow, doy);
    var a := FirstAnchor(w.year, dow, doy) + 7 * (w.week - 1);
    assert Anchor(DayOf(w, weekday, dow, doy), dow, doy) == a;
    assert WeekOf(DayOf(w, weekday, dow, doy), dow, doy) == Week(FromNumber(a).year, (FromNumber(a).day + 6) / 7);
  }

  /** The converse: a week number and one of the seven weekdays come back from the day they denote exactly when
      the year has that week. */
  lemma DayRoundTrip(w: Week, weekday: int, dow: int, doy: int)
    requires Locale(dow, doy) && dow <= weekday <= dow + 6
    ensures WeekOf(DayOf(w, weekday, dow, doy), dow, doy) == w <==> 1 <= w.week <= WeekCount(w.year, dow, doy)
    ensures LocaleWeekday(DayOf(w, weekday, dow, doy), dow) == weekday
  {
    DayOfIsInWeek(w, weekday, dow, doy);
    OnlyCountedAnchors(DayOf(w, weekday, dow, doy), dow, doy);
    if 1 <= w.week <= WeekCount(w.year, dow, doy) {
      CountedWeekComesBack(w, weekday, dow, doy);
    }
  }

  lemma WeeksBetween(start: int, days: int, first: int, next: int, count: int)
    requires start <= first < start + 7 && start + days <= next < start + days + 7 && next == first + 7 * count
    requires days == 365 || days == 366
    ensures count == if first == start || (days == 366 && first == start + 1) then 53 else 52
  {
  }

  /** A year has 53 weeks exactly when its deciding weekday falls on January 1st, or on the 2nd of a leap year;
      otherwise it has 52. */
  lemma LongYears(year: int, dow: int, doy: int)
    requires Locale(dow, doy)
    ensures WeekCount(year, dow, doy) ==
      if Weekday(StartOfYear(year)) == doy % 7 || (IsLeapYear(year) && Weekday(StartOfYear(year) + 1) == doy % 7)
      then 53 else 52
  {
    var start, first, next := StartOfYear(year), FirstAnchor(year, dow, doy), FirstAnchor(year + 1, dow, doy);
    YearsAdjoin(year);
    WeeksFillYear(year, dow, doy);
    FirstAnchorIsEarly(year, dow, doy);
    FirstAnchorIsEarly(year + 1, dow, doy);
    WeeksBetween(start, DaysInYear(year), first, next, WeekCount(year, dow, doy));
    FirstAnchorSharesWeekday(year, dow, doy, 0);
    FirstAnchorSharesWeekday(year, dow, doy, 1);
  }

  lemma AtLeast52(year: int, dow: int, doy: int)
    requires Locale(dow, doy)
    ensures WeekCount(year, dow, doy) >= 52
  {
    LongYears(year, dow, doy);
  }

  lemma FirstAnchorSharesWeekday(year: int, dow: int, doy: int, j: int)
    requires Locale(dow, doy) && 0 <= j < 7
    ensures Weekday(StartOfYear(year) + j) == doy % 7 <==> FirstAnchor(year, dow, doy) == StartOfYear(year) + j
  {
    FirstAnchorIsEarly(year, dow, doy);
    SharesWeekday(StartOfYear(year), (StartOfYear(year) + 6 + dow - doy - dow) / 7, doy, j);
  }

  /** In every locale week 1 is the week of the year's first day with weekday doy, weeks run from dow to
      dow + 6, and later weeks follow every seven days. */
  lemma LocaleWeeks(year: int, k: int, w: Week, weekday: int, dow: int, doy: int)
    requires Locale(dow, doy) && dow <= weekday <= dow + 6 && w.year == year
    requires 1 <= k <= 7 && Weekday(YearDay(year, k).Number()) == doy % 7
    ensures WeekOf(YearDay(year, k).Number(), dow, doy) == Week(year, 1)
    ensures DayOf(w, weekday, dow, doy) == YearDay(year, k).Number() + weekday - doy + 7 * (w.week - 1)
    ensures Weekday(DayOf(w, weekday, dow, doy)) == weekday % 7
  {
    FirstAnchorSharesWeekday(year, dow, doy, k - 1);
    AtLeast52(year, dow, doy);
    CountedWeekComesBack(Week(year, 1), doy, dow, doy);
    WeekdaysRepeat(YearDay(year, k).Number(), doy, weekday, w.week - 1);
  }

  lemma WeekdaysRepeat(n: int, from: int, to: int, weeks: int)
    requires Weekday(n) == from % 7
    ensures Weekday(n + to - from + 7 * weeks) == to % 7
  {
    var q := n / 7 - from / 7 + to / 7 + weeks;
    assert n + to - from + 7 * weeks == 7 * q + to % 7;
    DivideBySeven(n + to - from + 7 * weeks, q, to % 7);
  }

  /** dow = 1 and doy = 4 is the week date of section 4.1.4 of ISO 8601:2004: weeks run from Monday, 1, to
      Sunday, 7, and week 1 holds the year's first Thursday. */
  lemma IsoWeeks(year: int, k: int, weekday: int)
    requires 1 <= k <= 7 && Weekday(YearDay(year, k).Number()) == 4 && 1 <= weekday <= 7
    ensures DayOf(Week(year, 1), weekday, 1, 4) == YearDay(year, k).Number() + weekday - 4
    ensures WeekOf(YearDay(year, k).Number() + weekday - 4, 1, 4) == Week(year, 1)
  {
    LocaleWeeks(year, k, Week(year, 1), weekday, 1, 4);
    AtLeast52(year, 1, 4);
    CountedWeekComesBack(Week(year, 1), weekday, 1, 4);
  }

  // ---------------------------------------------------------------- the days are the real ones

  lemma EpochIsThursday()
    ensures Weekday(StartOfYear(1970)) == 4
  {
    assert StartOfYear(1970) == 365 * 1970 + 492 - 19 + 4;
  }

  lemma NextWeekday(n: int)
    ensures Weekday(n + 1) == if Weekday(n) == 6 then 0 else Weekday(n) + 1
  {
    var q, r := n / 7, n % 7;
    if r == 6 {
      DivideBySeven(n + 1, q + 1, 0);
    } else {
      DivideBySeven(n + 1, q, r + 1);
    }
  }

  /** January 1st 1970 was a Thursday, weekdays advance by one a day, and years have 365 days, or 366 in the
      years divisible by four but not by a hundred, or by four hundred: so every date has its own weekday. */
  lemma WeekdaysAreFixed(n: int, year: int)
    ensures Weekday(YearDay(1970, 1).Number()) == 4
    ensures Weekday(n + 1) == if Weekday(n) == 6 then 0 else Weekday(n) + 1
    ensures YearDay(year + 1, 1).Number() - YearDay(year, 1).Number() ==
            if year % 400 == 0 || (year % 4 == 0 && year % 100 != 0) then 366 else 365
  {
    EpochIsThursday();
    NextWeekday(n);
    YearsAdjoin(year);
  }

  lemma FourHundredOn(n: int)
    ensures (n + 400) / 4 == n / 4 + 100
    ensures (n + 400) / 100 == n / 100 + 4
    ensures (n + 400) / 400 == n / 400 + 1
  {
  }

  lemma WeekdayOn(n: int)
    ensures Weekday(n + 146097) == Weekday(n)
  {
    DivideBySeven(n + 146097, n / 7 + 20871, n % 7);
  }

  /** The calendar repeats every 400 years, weekdays included. */
  lemma FourCenturies(year: int)
    ensures StartOfYear(year + 400) == StartOfYear(year) + 146097
    ensures Weekday(StartOfYear(year + 400)) == Weekday(StartOfYear(year))
  {
    FourHundredOn(year - 1);
    assert year + 400 - 1 == year - 1 + 400;
    WeekdayOn(StartOfYear(year));
  }

  /** January 1st 2023 was a Sunday, in week 52 of 2022 by ISO 8601. */
  lemma NewYear2023()
    ensures Weekday(YearDay(2023, 1).Number()) == 0
    ensures WeekOf(YearDay(2023, 1).Number(), 1, 4) == Week(2022, 52)
  {
    assert StartOfYear(2022) == 738520 && StartOfYear(2023) == 738885;
    LocaleWeeks(2022, 6, Week(2022, 52), 7, 1, 4);
    assert DayOf(Week(2022, 52), 7, 1, 4) == YearDay(2023, 1).Number();
    AtLeast52(2022, 1, 4);
    CountedWeekComesBack(Week(2022, 52), 7, 1, 4);
  }
}
