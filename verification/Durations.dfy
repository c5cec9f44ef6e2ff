/** Durations and their bubbling into years, months, days, hours, minutes, seconds and milliseconds. Division
    here truncates, as JavaScript's does; 4800 months are 146097 days, and ratios are exact. */
module Durations {
  const DAY := 86400000

  // ---------------------------------------------------------------- rounding

  /** absFloor(a / b) */
  function Truncated(a: int, b: int): int
    requires b > 0
  {
    if a < 0 then -(-a / b) else a / b
  }

  /** a % b, which takes the sign of a. */
  function Remainder(a: int, b: int): int
    requires b > 0
  {
    if a < 0 then -(-a % b) else a % b
  }

  /** absCeil(a / b) */
  function Outward(a: int, b: int): int
    requires b > 0
  {
    if a < 0 then -((-a + b - 1) / b) else (a + b - 1) / b
  }

  /** absFloor(daysToMonths(days)) */
  function MonthsIn(days: int): int {
    Truncated(days * 4800, 146097)
  }

  /** absCeil(monthsToDays(months)) */
  function DaysIn(months: int): int {
    Outward(months * 146097, 4800)
  }

  // ---------------------------------------------------------------- bubbling

  /** _milliseconds, _days and _months. */
  datatype Totals = Totals(milliseconds: int, days: int, months: int) {
    predicate OneSign() {
      (milliseconds >= 0 && days >= 0 && months >= 0) || (milliseconds <= 0 && days <= 0 && months <= 0)
    }

    function Negated(): Totals {
      Totals(-milliseconds, -days, -months)
    }
  }

  datatype Data = Data(milliseconds: int, seconds: int, minutes: int, hours: int, days: int, months: int, years: int) {
    predicate NonNegative() {
      milliseconds >= 0 && seconds >= 0 && minutes >= 0 && hours >= 0 && days >= 0 && months >= 0 && years >= 0
    }

    function Negated(): Data {
      Data(-milliseconds, -seconds, -minutes, -hours, -days, -months, -years)
    }

    predicate Small() {
      milliseconds < 1000 && seconds < 60 && minutes < 60 && hours < 24 && days <= 30 && months < 12
    }

    /** All of one sign, and none large enough to carry. */
    predicate Normal() {
      (NonNegative() && Small()) || (Negated().NonNegative() && Negated().Small())
    }

    /** What the constructor makes of these fields. */
    function Rebuilt(): Totals {
      Totals(milliseconds + seconds * 1000 + minutes * 60000 + hours * 3600000, days, months + years * 12)
    }
  }

  /** Mixed signs are bubbled down to milliseconds first. */
  function Collapsed(t: Totals): Totals {
    if t.OneSign() then t
    else Totals(t.milliseconds + Outward(t.months * 146097 + t.days * 4800, 4800) * DAY, 0, 0)
  }

  function Seconds(milliseconds: int): int { Truncated(milliseconds, 1000) }

  function Minutes(milliseconds: int): int { Truncated(Seconds(milliseconds), 60) }

  function Hours(milliseconds: int): int { Truncated(Minutes(milliseconds), 60) }

  /** The days whose months are carried. */
  function WholeDays(t: Totals): int {
    t.days + Truncated(Hours(t.milliseconds), 24)
  }

  function DataOf(ms: int, days: int, months: int): Data {
    Data(Remainder(ms, 1000), Remainder(Seconds(ms), 60), Remainder(Minutes(ms), 60), Remainder(Hours(ms), 24),
         days, Remainder(months, 12), Truncated(months, 12))
  }

  function Carried(c: Totals): Data {
    var carried := MonthsIn(WholeDays(c));
    DataOf(c.milliseconds, WholeDays(c) - DaysIn(carried), c.months + carried)
  }

  function Bubbled(t: Totals): Data {
    Carried(Collapsed(t))
  }

  class Duration {
    var milliseconds: int
    var days: int
    var months: int
    var data: Data

    function Value(): Totals
      reads this
    {
      Totals(milliseconds, days, months)
    }

    ghost predicate Valid()
      reads this
    {
      data == Bubbled(Value())
    }

    constructor (years: int, quarters: int, months: int, weeks: int, days: int,
                 hours: int, minutes: int, seconds: int, milliseconds: int)
      ensures Valid()
      ensures Value() == Totals(milliseconds + seconds * 1000 + minutes * 60000 + hours * 3600000,
                                days + weeks * 7, months + quarters * 3 + years * 12)
    {
      this.milliseconds := milliseconds + seconds * 1000 + minutes * 60000 + hours * 3600000;
      this.days := days + weeks * 7;
      this.months := months + quarters * 3 + years * 12;
      new;
      Bubble();
    }

    method Bubble()
      modifies this`data
      ensures Valid()
    {
      var ms := milliseconds;
      var days := this.days;
      var months := this.months;
      if !((ms >= 0 && days >= 0 && months >= 0) || (ms <= 0 && days <= 0 && months <= 0)) {
        ms := ms + Outward(months * 146097 + days * 4800, 4800) * DAY;
        days := 0;
        months := 0;
      }
      ghost var c := Collapsed(Value());
      assert Totals(ms, days, months) == c;
      data := data.(milliseconds := Remainder(ms, 1000));
      var seconds := Truncated(ms, 1000);
      data := data.(seconds := Remainder(seconds, 60));
      var minutes := Truncated(seconds, 60);
      data := data.(minutes := Remainder(minutes, 60));
      var hours := Truncated(minutes, 60);
      data := data.(hours := Remainder(hours, 24));
      days := days + Truncated(hours, 24);
      assert days == WholeDays(c);
      var monthsFromDays := MonthsIn(days);
      months := months + monthsFromDays;
      days := days - DaysIn(monthsFromDays);
      var years := Truncated(months, 12);
      months := Remainder(months, 12);
      data := data.(days := days, months := months, years := years);
    }

    /** add with direction 1, subtract with direction -1. */
    method AddSubtract(other: Totals, direction: int)
      modifies this
      ensures Valid()
      ensures milliseconds == old(milliseconds) + direction * other.milliseconds
      ensures days == old(days) + direction * other.days && months == old(months) + direction * other.months
    {
      milliseconds := milliseconds + direction * other.milliseconds;
      days := days + direction * other.days;
      months := months + direction * other.months;
      Bubble();
    }

    method AddThenSubtract(other: Totals)
      requires Valid()
      modifies this
      ensures Value() == old(Value()) && data == old(data)
    {
      AddSubtract(other, 1);
      AddSubtract(other, -1);
    }
  }

  // ---------------------------------------------------------------- one rounding step

  lemma Splits(a: int, b: int)
    requires b > 0
    ensures a == b * Truncated(a, b) + Remainder(a, b)
    ensures a >= 0 ==> 0 <= Remainder(a, b) < b && Truncated(a, b) >= 0
    ensures a <= 0 ==> -b < Remainder(a, b) <= 0 && Truncated(a, b) <= 0
  {
  }

  lemma MultiplesAreLarge(b: int, d: int)
    requires b > 0
    ensures d >= 1 ==> b * d >= b
    ensures d <= -1 ==> b * d <= -b
  {
    if d >= 1 {
      assert b * d == b * (d - 1) + b;
    } else {
      assert b * -d == b * (-d - 1) + b;
    }
  }

  lemma JoinsNonNegative(q: int, r: int, b: int)
    requires b > 0 && q >= 0 && 0 <= r < b
    ensures (b * q + r) / b == q && (b * q + r) % b == r
  {
    var n := b * q + r;
    assert n == b * (n / b) + n % b;
    assert b * (n / b - q) == r - n % b;
    MultiplesAreLarge(b, n / b - q);
  }

  /** Joining a remainder to a multiple of its sign, then splitting, gives both back. */
  lemma Joins(q: int, r: int, b: int)
    requires b > 0 && ((q >= 0 && 0 <= r < b) || (q <= 0 && -b < r <= 0))
    ensures Truncated(b * q + r, b) == q && Remainder(b * q + r, b) == r
  {
    if q >= 0 && 0 <= r {
      MultiplesAreLarge(b, q);
      JoinsNonNegative(q, r, b);
    } else {
      MultiplesAreLarge(b, q);
      JoinsNonNegative(-q, -r, b);
      assert b * -q + -r == -(b * q + r);
    }
  }

  lemma Mirrors(a: int, b: int)
    requires b > 0
    ensures Truncated(-a, b) == -Truncated(a, b) && Remainder(-a, b) == -Remainder(a, b)
    ensures Outward(-a, b) == -Outward(a, b)
  {
    if a == 0 {
      JoinsNonNegative(0, 0, b);
      JoinsNonNegative(0, b - 1, b);
    }
  }

  lemma UnitsSplit(ms: int)
    ensures ms == 1000 * Seconds(ms) + Remainder(ms, 1000)
    ensures Seconds(ms) == 60 * Minutes(ms) + Remainder(Seconds(ms), 60)
    ensures Minutes(ms) == 60 * Hours(ms) + Remainder(Minutes(ms), 60)
    ensures Hours(ms) == 24 * Truncated(Hours(ms), 24) + Remainder(Hours(ms), 24)
    ensures ms >= 0 ==> Seconds(ms) >= 0 && Minutes(ms) >= 0 && Hours(ms) >= 0
    ensures ms <= 0 ==> Seconds(ms) <= 0 && Minutes(ms) <= 0 && Hours(ms) <= 0
  {
    Splits(ms, 1000);
    Splits(Seconds(ms), 60);
    Splits(Minutes(ms), 60);
    Splits(Hours(ms), 24);
  }

  lemma UnitsMirror(ms: int)
    ensures Seconds(-ms) == -Seconds(ms) && Minutes(-ms) == -Minutes(ms) && Hours(-ms) == -Hours(ms)
  {
    Mirrors(ms, 1000);
    Mirrors(Seconds(ms), 60);
    Mirrors(Minutes(ms), 60);
  }

  /** Taking out the whole months leaves at most 30 days, of the same sign. */
  lemma FewDaysRemain(days: int)
    ensures days >= 0 ==> 0 <= days - DaysIn(MonthsIn(days)) <= 30 && MonthsIn(days) >= 0
    ensures days <= 0 ==> -30 <= days - DaysIn(MonthsIn(days)) <= 0 && MonthsIn(days) <= 0
  {
    if days > 0 {
      var m := days * 4800 / 146097;
      assert 146097 * m <= days * 4800 < 146097 * (m + 1);
    } else {
      var m := -days * 4800 / 146097;
      assert 146097 * m <= -days * 4800 < 146097 * (m + 1);
    }
  }

  // ---------------------------------------------------------------- what bubbling does

  /** Collapsing rounds a mixed duration outward, by less than a day. */
  lemma CollapseIsOutward(t: Totals)
    ensures if t.OneSign() then Collapsed(t) == t else Collapsed(t).days == 0 == Collapsed(t).months
    ensures !t.OneSign() ==>
      var exact := t.months * 146097 + t.days * 4800;
      var whole := (Collapsed(t).milliseconds - t.milliseconds) / 86400000;
      && Collapsed(t).milliseconds == t.milliseconds + whole * 86400000
      && (exact >= 0 ==> exact <= 4800 * whole < exact + 4800)
      && (exact <= 0 ==> exact - 4800 < 4800 * whole <= exact)
  {
    var exact := t.months * 146097 + t.days * 4800;
    var away := Outward(exact, 4800);
    assert away * DAY / DAY == away;
  }

  lemma WholeDaysSign(c: Totals)
    requires c.OneSign()
    ensures c.milliseconds >= 0 && c.days >= 0 && c.months >= 0 ==> WholeDays(c) >= 0
    ensures c.milliseconds <= 0 && c.days <= 0 && c.months <= 0 ==> WholeDays(c) <= 0
  {
    UnitsSplit(c.milliseconds);
  }

  lemma ClockIsSmall(ms: int)
    ensures ms >= 0 ==> 0 <= Remainder(ms, 1000) < 1000 && 0 <= Remainder(Seconds(ms), 60) < 60
                        && 0 <= Remainder(Minutes(ms), 60) < 60 && 0 <= Remainder(Hours(ms), 24) < 24
    ensures ms <= 0 ==> -1000 < Remainder(ms, 1000) <= 0 && -60 < Remainder(Seconds(ms), 60) <= 0
                        && -60 < Remainder(Minutes(ms), 60) <= 0 && -24 < Remainder(Hours(ms), 24) <= 0
  {
    UnitsSplit(ms);
    Splits(ms, 1000);
    Splits(Seconds(ms), 60);
    Splits(Minutes(ms), 60);
    Splits(Hours(ms), 24);
  }

  lemma CarriedIsNormal(c: Totals)
    requires c.OneSign()
    ensures Carried(c).Normal()
  {
    WholeDaysSign(c);
    ClockIsSmall(c.milliseconds);
    FewDaysRemain(WholeDays(c));
    Splits(c.months + MonthsIn(WholeDays(c)), 12);
  }

  /** Every duration: the fields have one sign, with fewer than 1000 milliseconds, 60 seconds, 60 minutes,
      24 hours and 12 months, and at most 30 days. */
  lemma BubbleIsNormal(t: Totals)
    ensures Bubbled(t).Normal()
  {
    CollapseIsOutward(t);
    CarriedIsNormal(Collapsed(t));
  }

  /** The days for some months are the fewest that reach their length, 146097 days for 4800 months. */
  lemma DaysInIsLeast(months: int, n: int)
    ensures months >= 0 ==> (n >= DaysIn(months) <==> 4800 * n >= 146097 * months)
    ensures months <= 0 ==> (n <= DaysIn(months) <==> 4800 * n <= 146097 * months)
  {
    var m := if months >= 0 then months else -months;
    var d := (m * 146097 + 4799) / 4800;
    assert 4800 * d >= 146097 * m > 4800 * (d - 1);
  }

  /** The months in some days are the most whose length they reach. */
  lemma MonthsInIsGreatest(days: int, m: int)
    ensures days >= 0 ==> (m <= MonthsIn(days) <==> 146097 * m <= 4800 * days)
    ensures days <= 0 ==> (m >= MonthsIn(days) <==> 146097 * m >= 4800 * days)
  {
    var d := if days >= 0 then days else -days;
    var q := d * 4800 / 146097;
    assert 146097 * q <= 4800 * d < 146097 * (q + 1);
  }

  /** k is the most whole months in `days`, and `out` the fewest days that make up k months, away from zero. */
  predicate Converts(days: int, k: int, out: int) {
    if days >= 0 then
      146097 * k <= 4800 * days < 146097 * (k + 1) && 4800 * (out - 1) < 146097 * k <= 4800 * out
    else
      146097 * (k - 1) < 4800 * days <= 146097 * k && 4800 * out <= 146097 * k < 4800 * (out + 1)
  }

  /** Nothing is lost: k whole months and the `out` days they take move to the months, and every other day, and
      every millisecond, stays. */
  lemma BubbleConserves(t: Totals) returns (k: int, out: int)
    ensures var c := Collapsed(t); var r := Bubbled(t).Rebuilt();
      && r.milliseconds + (r.days + out) * 86400000 == c.milliseconds + c.days * 86400000
      && r.months == c.months + k
      && Converts(r.days + out, k, out)
  {
    var c := Collapsed(t);
    UnitsSplit(c.milliseconds);
    k := MonthsIn(WholeDays(c));
    out := DaysIn(k);
    Splits(c.months + k, 12);
    WholeConverts(WholeDays(c));
  }

  lemma WholeConverts(days: int)
    ensures Converts(days, MonthsIn(days), DaysIn(MonthsIn(days)))
  {
    var k := MonthsIn(days);
    var out := DaysIn(k);
    MonthsInIsGreatest(days, k);
    FewDaysRemain(days);
    if days >= 0 {
      MonthsInIsGreatest(days, k + 1);
      DaysInIsLeast(k, out);
      DaysInIsLeast(k, out - 1);
    } else {
      MonthsInIsGreatest(days, k - 1);
      DaysInIsLeast(k, out);
      DaysInIsLeast(k, out + 1);
    }
  }

  /** The fields that bubbling leaves alone, when a duration is built from them, are exactly the normal ones. */
  lemma FixedExactlyNormal(d: Data)
    ensures Bubbled(d.Rebuilt()) == d <==> d.Normal()
  {
    BubbleIsNormal(d.Rebuilt());
    if d.Normal() {
      NormalIsFixed(d);
    }
  }

  /** Small fields of one sign are what their total in milliseconds splits into. */
  lemma ClockIsFixed(d: Data)
    requires d.Normal()
    ensures var ms := d.Rebuilt().milliseconds;
      && Remainder(ms, 1000) == d.milliseconds && Remainder(Seconds(ms), 60) == d.seconds
      && Remainder(Minutes(ms), 60) == d.minutes && Remainder(Hours(ms), 24) == d.hours && Truncated(Hours(ms), 24) == 0
  {
    var ms := d.Rebuilt().milliseconds;
    var minutes := d.hours * 60 + d.minutes;
    var seconds := minutes * 60 + d.seconds;
    assert ms == 1000 * seconds + d.milliseconds;
    Joins(seconds, d.milliseconds, 1000);
    Joins(minutes, d.seconds, 60);
    Joins(d.hours, d.minutes, 60);
    Joins(0, d.hours, 24);
  }

  lemma FewDaysHaveNoMonth(days: int)
    requires -30 <= days <= 30
    ensures MonthsIn(days) == 0 && DaysIn(0) == 0
  {
  }

  lemma NormalIsFixed(d: Data)
    requires d.Normal()
    ensures Bubbled(d.Rebuilt()) == d
  {
    ClockIsFixed(d);
    FewDaysHaveNoMonth(d.days);
    Joins(d.years, d.months, 12);
    assert Collapsed(d.Rebuilt()) == d.Rebuilt();
  }

  /** Bubbling twice is bubbling once, and equal totals have one normal form. */
  lemma NormalFormIsUnique(t: Totals, d: Data)
    requires d.Normal()
    ensures d.Rebuilt() == Bubbled(t).Rebuilt() <==> d == Bubbled(t)
  {
    FixedExactlyNormal(d);
    BubbleIsNormal(t);
    FixedExactlyNormal(Bubbled(t));
  }

  lemma CollapseMirrors(t: Totals)
    ensures Collapsed(t.Negated()) == Collapsed(t).Negated()
  {
    Mirrors(t.months * 146097 + t.days * 4800, 4800);
  }

  lemma MonthsMirror(days: int)
    ensures MonthsIn(-days) == -MonthsIn(days) && DaysIn(-days) == -DaysIn(days)
  {
    Mirrors(days * 4800, 146097);
    Mirrors(days * 146097, 4800);
  }

  lemma WholeDaysMirror(t: Totals)
    ensures WholeDays(t.Negated()) == -WholeDays(t)
  {
    UnitsMirror(t.milliseconds);
    Mirrors(Hours(t.milliseconds), 24);
  }

  lemma RemaindersMirror(ms: int)
    ensures Remainder(-ms, 1000) == -Remainder(ms, 1000)
    ensures Remainder(Seconds(-ms), 60) == -Remainder(Seconds(ms), 60)
    ensures Remainder(Minutes(-ms), 60) == -Remainder(Minutes(ms), 60)
    ensures Remainder(Hours(-ms), 24) == -Remainder(Hours(ms), 24)
  {
    UnitsMirror(ms);
    Mirrors(ms, 1000);
    Mirrors(Seconds(ms), 60);
    Mirrors(Minutes(ms), 60);
    Mirrors(Hours(ms), 24);
  }

  lemma DataMirrors(ms: int, days: int, months: int)
    ensures DataOf(-ms, -days, -months) == DataOf(ms, days, months).Negated()
  {
    RemaindersMirror(ms);
    Mirrors(months, 12);
  }

  lemma CarriedMirrors(c: Totals)
    ensures Carried(c.Negated()) == Carried(c).Negated()
  {
    WholeDaysMirror(c);
    var carried := MonthsIn(WholeDays(c));
    MonthsMirror(WholeDays(c));
    MonthsMirror(carried);
    assert MonthsIn(WholeDays(c.Negated())) == -carried;
    var days, months := WholeDays(c) - DaysIn(carried), c.months + carried;
    DataMirrors(c.milliseconds, days, months);
    assert Carried(c.Negated()) == DataOf(-c.milliseconds, -days, -months);
  }

  /** A negated duration has the negated fields. */
  lemma BubbleMirrors(t: Totals)
    ensures Bubbled(t.Negated()) == Bubbled(t).Negated()
  {
    CollapseMirrors(t);
    CarriedMirrors(Collapsed(t));
  }
}
