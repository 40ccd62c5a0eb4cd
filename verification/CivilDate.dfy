/**
 Calendar dates from day numbers and back. `CivilFromDays` is the arithmetic of the
 program; leap years, month lengths and the next day are defined separately, by the
 rules of RFC 3339 (section 5.7 and appendix C), and the two are proved to agree.
 */
module CivilDate {
  datatype Date = Date(year: int, month: int, day: int)

  /** Division as the program's language does it, toward zero. */
  function TruncDiv(a: int, b: int): int
    requires b > 0
  {
    if a >= 0 then a / b else -(-a / b)
  }

  function Era(z: int): int {
    TruncDiv(if z >= 0 then z else z - 146_096, 146_097)
  }

  function YearOfEra(doe: int): int {
    TruncDiv(doe - TruncDiv(doe, 1460) + TruncDiv(doe, 36_524) - TruncDiv(doe, 146_096), 365)
  }

  function DayOfYear(doe: int, yoe: int): int {
    doe - (365 * yoe + TruncDiv(yoe, 4) - TruncDiv(yoe, 100))
  }

  function MonthIndex(doy: int): int {
    TruncDiv(5 * doy + 2, 153)
  }

  function CivilFromDays(days: int): Date {
    var z := days + 719_468;
    var era := Era(z);
    var doe := z - era * 146_097;
    var yoe := YearOfEra(doe);
    var year := yoe + era * 400;
    var doy := DayOfYear(doe, yoe);
    var mp := MonthIndex(doy);
    var day := doy - TruncDiv(153 * mp + 2, 5) + 1;
    var month := mp + if mp < 10 then 3 else -9;
    Date(year + (if month <= 2 then 1 else 0), month, day)
  }

  // ---- the calendar ----

  predicate IsLeap(year: int) {
    year % 4 == 0 && (year % 100 != 0 || year % 400 == 0)
  }

  function DaysInMonth(year: int, month: int): int {
    if month == 2 then (if IsLeap(year) then 29 else 28)
    else if month == 4 || month == 6 || month == 9 || month == 11 then 30
    else 31
  }

  predicate Valid(d: Date) {
    1 <= d.month <= 12 && 1 <= d.day <= DaysInMonth(d.year, d.month)
  }

  function NextDay(d: Date): Date {
    if d.day < DaysInMonth(d.year, d.month) then Date(d.year, d.month, d.day + 1)
    else if d.month < 12 then Date(d.year, d.month + 1, 1)
    else Date(d.year + 1, 1, 1)
  }

  // ---- years of an era, counted from March ----

  /** The first day of a year within its era. */
  function YearStart(yoe: int): int {
    365 * yoe + yoe / 4 - yoe / 100
  }

  /** Leap days aside, day s of olympiad q of century c: the program's corrections cancel exactly. */
  lemma Corrections(c: int, q: int, s: int)
    requires 0 <= c <= 3 && 0 <= q <= 24 && 0 <= s <= 1460
    requires var r := 1461 * q + s; r < 36_524 || (c == 3 && r == 36_524)
    ensures var doe := 36_524 * c + 1461 * q + s;
            doe - doe / 1460 + doe / 36_524 - doe / 146_096
            == 365 * (100 * c + 4 * q) + (if 24 * c + q + s >= 1460 then s - 1 else s)
  {
    var doe := 36_524 * c + 1461 * q + s;
    var e := if 24 * c + q + s >= 1460 then 1 else 0;
    Remainder(doe, 1460, 25 * c + q + e, 24 * c + q + s - 1460 * e);
    if doe == 146_096 {
      Remainder(doe, 36_524, 4, 0);
      Remainder(doe, 146_096, 1, 0);
    } else {
      Remainder(doe, 36_524, c, 1461 * q + s);
      Remainder(doe, 146_096, 0, doe);
    }
  }

  lemma Remainder(n: int, m: int, q: int, r: int)
    requires m > 0 && 0 <= r < m && n == m * q + r
    ensures n % m == r && n / m == q
  {
    var d := n / m - q;
    Distribute(m, n / m, q);
    if d >= 1 {
      Scale(m, d);
    } else if d <= -1 {
      Scale(m, -d);
      Distribute(m, 0, d);
    }
  }

  lemma Distribute(m: int, a: int, b: int)
    ensures m * (a - b) == m * a - m * b
  {
  }

  lemma Scale(m: int, d: int)
    requires m > 0 && d >= 1
    ensures m * d >= m
  {
  }

  lemma YearOfEraFinds(doe: int)
    requires 0 <= doe < 146_097
    ensures var yoe := YearOfEra(doe);
            0 <= yoe < 400 && YearStart(yoe) <= doe && (yoe < 399 ==> doe < YearStart(yoe + 1))
  {
    var c := if doe / 36_524 < 4 then doe / 36_524 else 3;
    var q := (doe - 36_524 * c) / 1461;
    var s := doe - 36_524 * c - 1461 * q;
    YearInCentury(c, q, s);
  }

  lemma YearInCentury(c: int, q: int, s: int)
    requires 0 <= c <= 3 && 0 <= q <= 24 && 0 <= s <= 1460
    requires var r := 1461 * q + s; r < 36_524 || (c == 3 && r == 36_524)
    ensures var doe := 36_524 * c + 1461 * q + s;
            var yoe := YearOfEra(doe);
            0 <= yoe < 400 && YearStart(yoe) <= doe && (yoe < 399 ==> doe < YearStart(yoe + 1))
  {
    hide YearStart;
    Corrections(c, q, s);
    var t := if s / 365 < 4 then s / 365 else 3;
    var late := if 24 * c + q + s >= 1460 then s - 1 else s;
    Remainder(365 * (100 * c + 4 * q) + late, 365, 100 * c + 4 * q + t, late - 365 * t);
    YearStarts(c, q, t);
    if t < 3 {
      YearStarts(c, q, t + 1);
    } else if q < 24 {
      YearStarts(c, q + 1, 0);
    } else if c < 3 {
      YearStarts(c + 1, 0, 0);
    }
  }

  lemma YearStarts(c: int, q: int, t: int)
    requires 0 <= c <= 3 && 0 <= q <= 24 && 0 <= t <= 3
    ensures YearStart(100 * c + 4 * q + t) == 36_524 * c + 1461 * q + 365 * t
  {
    Remainder(100 * c + 4 * q + t, 100, c, 4 * q + t);
    Remainder(100 * c + 4 * q + t, 4, 25 * c + q, t);
  }

  /** A year from March to February is 366 days exactly when the February in it is leap. */
  lemma YearLength(yoe: int, era: int)
    requires 0 <= yoe < 400
    ensures var next := if yoe < 399 then YearStart(yoe + 1) else 146_097;
            next - YearStart(yoe) == (if IsLeap(yoe + 400 * era + 1) then 366 else 365)
  {
    LeapRepeats(yoe + 1, era);
    assert (yoe + 1) % 4 == 0 <==> (yoe + 1) / 4 == yoe / 4 + 1;
    assert (yoe + 1) % 100 == 0 <==> (yoe + 1) / 100 == yoe / 100 + 1;
  }

  lemma LeapRepeats(n: int, era: int)
    ensures IsLeap(n + 400 * era) == IsLeap(n)
  {
    SameRemainder(n, 4, 100 * era);
    SameRemainder(n, 100, 4 * era);
    SameRemainder(n, 400, era);
  }

  lemma SameRemainder(n: int, m: int, times: int)
    requires m > 0
    ensures (n + m * times) % m == n % m
  {
    Remainder(n + m * times, m, n / m + times, n % m);
  }

  /** First day of a month within a year that starts in March. */
  function MonthStart(mp: int): int {
    (153 * mp + 2) / 5
  }

  function MonthOf(mp: int): int {
    mp + if mp < 10 then 3 else -9
  }

  lemma MonthIndexFinds(doy: int)
    requires 0 <= doy <= 365
    ensures 0 <= MonthIndex(doy) <= 11
    ensures MonthStart(MonthIndex(doy)) <= doy < MonthStart(MonthIndex(doy) + 1)
  {
  }

  lemma MonthIndexUnique(doy: int, mp: int)
    requires 0 <= mp <= 11 && MonthStart(mp) <= doy < MonthStart(mp + 1)
    ensures MonthIndex(doy) == mp
  {
  }

  /** All months but February have their calendar length. */
  lemma MonthLengths(mp: int, year: int)
    requires 0 <= mp <= 10
    ensures MonthStart(mp + 1) - MonthStart(mp) == DaysInMonth(year, MonthOf(mp))
  {
    assert MonthOf(mp) != 2;
  }

  /** The pieces a day number splits into, each in its range. */
  ghost predicate Splits(days: int, era: int, yoe: int, doy: int) {
    && days + 719_468 == era * 146_097 + YearStart(yoe) + doy
    && 0 <= yoe < 400
    && 0 <= doy < (if IsLeap(yoe + 400 * era + 1) then 366 else 365)
  }

  function DateOf(era: int, yoe: int, doy: int): Date {
    var mp := MonthIndex(doy);
    var month := MonthOf(mp);
    Date(yoe + era * 400 + (if month <= 2 then 1 else 0), month, doy - MonthStart(mp) + 1)
  }

  lemma EraIsFloor(z: int)
    ensures 0 <= z - Era(z) * 146_097 < 146_097
  {
  }

  lemma CivilSplits(days: int) returns (era: int, yoe: int, doy: int)
    ensures Splits(days, era, yoe, doy) && CivilFromDays(days) == DateOf(era, yoe, doy)
  {
    hide Era, YearOfEra, MonthIndex, IsLeap;
    var z := days + 719_468;
    era := Era(z);
    EraIsFloor(z);
    var doe := z - era * 146_097;
    yoe := YearOfEra(doe);
    YearOfEraFinds(doe);
    YearLength(yoe, era);
    doy := DayOfYear(doe, yoe);
    MonthIndexFinds(doy);
  }

  lemma SplitUnique(days: int, era: int, yoe: int, doy: int, era': int, yoe': int, doy': int)
    requires Splits(days, era, yoe, doy) && Splits(days, era', yoe', doy')
    ensures era == era' && yoe == yoe' && doy == doy'
  {
    YearLength(yoe, era);
    YearLength(yoe', era');
    YearStartRises(yoe, 399);
    YearStartRises(yoe', 399);
    assert 0 <= YearStart(yoe) + doy < 146_097;
    assert 0 <= YearStart(yoe') + doy' < 146_097;
    assert era == era';
    if yoe < yoe' {
      YearStartRises(yoe + 1, yoe');
    } else if yoe' < yoe {
      YearStartRises(yoe' + 1, yoe);
    }
  }

  lemma YearStartRises(a: int, b: int)
    requires 0 <= a <= b
    ensures YearStart(a) <= YearStart(b)
  {
  }

  /** The inverse: the day number of a date. */
  function DayNumber(d: Date): int {
    var year := d.year - (if d.month <= 2 then 1 else 0);
    var era := year / 400;
    var yoe := year - era * 400;
    var mp := if d.month > 2 then d.month - 3 else d.month + 9;
    era * 146_097 + YearStart(yoe) + MonthStart(mp) + d.day - 1 - 719_468
  }

  lemma DateOfIsValid(days: int, era: int, yoe: int, doy: int)
    requires Splits(days, era, yoe, doy)
    ensures Valid(DateOf(era, yoe, doy)) && DayNumber(DateOf(era, yoe, doy)) == days
  {
    MonthIndexFinds(doy);
    var mp := MonthIndex(doy);
    var d := DateOf(era, yoe, doy);
    if mp <= 10 {
      MonthLengths(mp, d.year);
    } else {
      FebruaryEnds(doy, era, yoe);
    }
    YearAndEra(yoe, era);
    hide IsLeap, YearStart, MonthStart, MonthIndex;
  }

  lemma FebruaryEnds(doy: int, era: int, yoe: int)
    requires doy < (if IsLeap(yoe + 400 * era + 1) then 366 else 365)
    ensures doy - MonthStart(11) + 1 <= DaysInMonth(yoe + era * 400 + 1, 2)
  {
    hide IsLeap;
  }

  lemma YearAndEra(yoe: int, era: int)
    requires 0 <= yoe < 400
    ensures (yoe + era * 400) / 400 == era
  {
  }

  /** Every day number gives a valid date, and the inverse recovers it. */
  lemma DayNumberUndoesCivil(days: int)
    ensures Valid(CivilFromDays(days)) && DayNumber(CivilFromDays(days)) == days
  {
    var era, yoe, doy := CivilSplits(days);
    DateOfIsValid(days, era, yoe, doy);
  }

  /** Every valid date is the date of its day number, so the two are inverse bijections. */
  lemma CivilUndoesDayNumber(d: Date)
    requires Valid(d)
    ensures CivilFromDays(DayNumber(d)) == d
  {
    var year := d.year - (if d.month <= 2 then 1 else 0);
    var era := year / 400;
    var yoe := year - era * 400;
    var mp := if d.month > 2 then d.month - 3 else d.month + 9;
    assert MonthOf(mp) == d.month;
    var doy := MonthStart(mp) + d.day - 1;
    if mp <= 10 {
      MonthLengths(mp, d.year);
    }
    assert Splits(DayNumber(d), era, yoe, doy);
    MonthIndexUnique(doy, mp);
    var era', yoe', doy' := CivilSplits(DayNumber(d));
    SplitUnique(DayNumber(d), era, yoe, doy, era', yoe', doy');
  }

  /** Day zero is 1970-01-01, and each day is followed by the calendar's next day. */
  lemma CivilFollowsCalendar(days: int)
    ensures CivilFromDays(0) == Date(1970, 1, 1)
    ensures CivilFromDays(days + 1) == NextDay(CivilFromDays(days))
  {
    hide CivilFromDays;
    DayNumberUndoesCivil(days);
    var d := CivilFromDays(days);
    NextDayIsNext(d);
    CivilUndoesDayNumber(NextDay(d));
    CivilUndoesDayNumber(Date(1970, 1, 1));
  }

  lemma NextDayIsNext(d: Date)
    requires Valid(d)
    ensures Valid(NextDay(d)) && DayNumber(NextDay(d)) == DayNumber(d) + 1
  {
    hide IsLeap, YearStart;
    if d.day == DaysInMonth(d.year, d.month) {
      if d.month == 2 {
        MarchFollowsFebruary(d.year);
      } else {
        var mp := if d.month > 2 then d.month - 3 else d.month + 9;
        MonthLengths(mp, d.year);
      }
    }
  }

  /** March 1st closes the year that February ends, also across an era. */
  lemma MarchFollowsFebruary(year: int)
    ensures DayNumber(Date(year, 3, 1)) == DayNumber(Date(year, 2, DaysInMonth(year, 2))) + 1
  {
    var era := (year - 1) / 400;
    var yoe := year - 1 - era * 400;
    YearLength(yoe, era);
    assert yoe + 400 * era + 1 == year;
    assert year / 400 == if yoe < 399 then era else era + 1;
    hide IsLeap;
  }
}
