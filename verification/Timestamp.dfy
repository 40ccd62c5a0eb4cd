/**
 The event timestamp of the guardrails: a second since the epoch written as an RFC 3339
 date and time (section 5.6), read back, and compared as text.
 */
module Timestamp {
  import opened Common
  import opened CivilDate

  /** The last second of the year 9999. */
  const LAST_FOUR_DIGIT_SECOND: nat := 253_402_300_799

  function Digit(n: nat): char
    requires n < 10
  {
    '0' + n as char
  }

  function Decimal(n: nat): string {
    if n < 10 then [Digit(n)] else Decimal(n / 10) + [Digit(n % 10)]
  }

  function Zeros(n: nat): string {
    if n == 0 then "" else "0" + Zeros(n - 1)
  }

  /** A number printed to at least `width` characters, zeros in front. */
  function Pad(n: nat, width: nat): string {
    var digits := Decimal(n);
    if |digits| < width then Zeros(width - |digits|) + digits else digits
  }

  // ---- the fields of a timestamp ----

  /** Year, month, day, hour, minute and second. */
  type Fields = f: seq<nat> | |f| == 6 witness [0, 0, 0, 0, 0, 0]

  function Width(i: nat): nat {
    if i == 0 then 4 else 2
  }

  function Separator(i: nat): char {
    if i < 2 then '-' else if i == 2 then 'T' else if i < 5 then ':' else 'Z'
  }

  /** Field i and the rest, each behind its number and its separator. */
  function Render(f: Fields, i: nat): string
    requires i <= 6
    decreases 6 - i
  {
    if i == 6 then "" else Pad(f[i], Width(i)) + ([Separator(i)] + Render(f, i + 1))
  }

  lemma {:induction false} DatesRise(a: int, b: int)
    requires a < b
    ensures Earlier(CivilFromDays(a), CivilFromDays(b))
    decreases b - a
  {
    hide CivilFromDays;
    DayNumberUndoesCivil(b - 1);
    CivilFollowsCalendar(b - 1);
    if a < b - 1 {
      DatesRise(a, b - 1);
    }
  }

  predicate Earlier(a: Date, b: Date) {
    a.year < b.year || (a.year == b.year && (a.month < b.month || (a.month == b.month && a.day < b.day)))
  }

  lemma Landmarks()
    ensures CivilFromDays(0) == Date(1970, 1, 1)
    ensures CivilFromDays(2_932_896) == Date(9999, 12, 31)
    ensures CivilFromDays(2_932_897) == Date(10_000, 1, 1)
  {
    hide CivilFromDays;
    CivilUndoesDayNumber(Date(1970, 1, 1));
    CivilUndoesDayNumber(Date(9999, 12, 31));
    CivilUndoesDayNumber(Date(10_000, 1, 1));
  }

  lemma YearsFromEpoch(days: nat)
    ensures CivilFromDays(days).year >= 1970
    ensures days <= 2_932_896 ==> CivilFromDays(days).year <= 9999
    ensures days > 2_932_896 ==> CivilFromDays(days).year > 9999
  {
    hide CivilFromDays, DayNumber;
    Landmarks();
    if days > 0 {
      DatesRise(0, days);
    }
    if days < 2_932_896 {
      DatesRise(days, 2_932_896);
    } else if days > 2_932_897 {
      DatesRise(2_932_897, days);
    }
  }

  function FieldsOf(seconds: nat): Fields {
    var days, ofDay := seconds / 86_400, seconds % 86_400;
    var d := CivilFromDays(days);
    YearsFromEpoch(days);
    DayNumberUndoesCivil(days);
    [d.year, d.month, d.day, ofDay / 3600, ofDay % 3600 / 60, ofDay % 60]
  }

  function Rfc3339(seconds: nat): string {
    Render(FieldsOf(seconds), 0)
  }

  // ---- numbers of fixed width ----

  function Power10(width: nat): nat {
    if width == 0 then 1 else 10 * Power10(width - 1)
  }

  function Fixed(n: nat, width: nat): (r: string)
    ensures |r| == width
  {
    if width == 0 then "" else Fixed(n / 10, width - 1) + [Digit(n % 10)]
  }

  lemma {:induction false} ZerosAreFixed(width: nat)
    ensures Fixed(0, width) == Zeros(width) && |Zeros(width)| == width
  {
    if width > 0 {
      ZerosAreFixed(width - 1);
      ZeroAtEnd(width - 1);
    }
  }

  lemma {:induction false} ZeroAtEnd(n: nat)
    ensures Zeros(n) + "0" == "0" + Zeros(n)
  {
    if n > 0 {
      ZeroAtEnd(n - 1);
    }
  }

  /** A number that fits is padded to exactly its width. */
  lemma {:induction false} PadIsFixed(n: nat, width: nat)
    requires n < Power10(width) && width > 0
    ensures Pad(n, width) == Fixed(n, width) && |Decimal(n)| <= width
  {
    if n < 10 {
      ZerosAreFixed(width - 1);
      assert Zeros(0) == "";
    } else {
      PadIsFixed(n / 10, width - 1);
      PadGrows(n, width);
    }
  }

  lemma PadGrows(n: nat, width: nat)
    requires n >= 10 && width > 0 && |Decimal(n / 10)| <= width - 1
    ensures Pad(n, width) == Pad(n / 10, width - 1) + [Digit(n % 10)] && |Decimal(n)| <= width
  {
    var front, digit := Decimal(n / 10), Digit(n % 10);
    assert Decimal(n) == front + [digit];
    hide Decimal;
    assert Zeros(width - 1 - |front|) + (front + [digit]) == Zeros(width - 1 - |front|) + front + [digit];
    assert Zeros(0) == "";
  }

  function Value(s: string): int {
    if s == [] then 0 else 10 * Value(s[..|s| - 1]) + (s[|s| - 1] as int - '0' as int)
  }

  lemma {:induction false} ValueOfFixed(n: nat, width: nat)
    requires n < Power10(width)
    ensures Value(Fixed(n, width)) == n
  {
    if width > 0 {
      ValueOfFixed(n / 10, width - 1);
      var s := Fixed(n, width);
      assert s[..width - 1] == Fixed(n / 10, width - 1);
    }
  }

  predicate Before(a: string, b: string) {
    AtMost(a, b) && a != b
  }

  lemma {:induction false} FirstDifferenceDecides(a: string, b: string, x: string, y: string)
    requires |a| == |b| && Before(a, b)
    ensures Before(a + x, b + y)
  {
    assert a == [a[0]] + a[1..] && b == [b[0]] + b[1..];
    assert (a + x)[1..] == a[1..] + x && (b + y)[1..] == b[1..] + y;
    if a[0] == b[0] {
      FirstDifferenceDecides(a[1..], b[1..], x, y);
    }
  }

  lemma {:induction false} SamePrefix(a: string, x: string, y: string)
    requires Before(x, y)
    ensures Before(a + x, a + y)
  {
    if a == [] {
      assert a + x == x && a + y == y;
    } else {
      assert (a + x)[1..] == a[1..] + x && (a + y)[1..] == a[1..] + y;
      SamePrefix(a[1..], x, y);
    }
  }

  lemma {:induction false} FixedRises(m: nat, n: nat, width: nat)
    requires m < n < Power10(width)
    ensures Before(Fixed(m, width), Fixed(n, width))
  {
    if m / 10 < n / 10 {
      FixedRises(m / 10, n / 10, width - 1);
      FirstDifferenceDecides(Fixed(m / 10, width - 1), Fixed(n / 10, width - 1), [Digit(m % 10)], [Digit(n % 10)]);
    } else {
      assert m / 10 == n / 10 && m % 10 < n % 10;
      SamePrefix(Fixed(m / 10, width - 1), [Digit(m % 10)], [Digit(n % 10)]);
    }
  }

  // ---- reading back ----

  predicate FieldsFit(f: Fields) {
    f[0] < 10_000 && forall i :: 1 <= i < 6 ==> f[i] < 100
  }

  lemma FieldFits(f: Fields, i: nat)
    requires FieldsFit(f) && i < 6
    ensures f[i] < Power10(Width(i)) && Pad(f[i], Width(i)) == Fixed(f[i], Width(i))
  {
    assert Power10(1) == 10 && Power10(2) == 100 && Power10(3) == 1000 && Power10(4) == 10_000;
    PadIsFixed(f[i], Width(i));
  }

  /** The numbers at their fixed positions. */
  function ReadFields(s: string, i: nat): seq<int>
    requires i <= 6
    decreases 6 - i
  {
    if i == 6 || |s| <= Width(i) then [] else [Value(s[..Width(i)])] + ReadFields(s[Width(i) + 1..], i + 1)
  }

  lemma {:induction false} ReadUndoesRender(f: Fields, i: nat)
    requires FieldsFit(f) && i <= 6
    ensures ReadFields(Render(f, i), i) == f[i..]
    decreases 6 - i
  {
    if i < 6 {
      ReadUndoesRender(f, i + 1);
      FieldFits(f, i);
      ValueOfFixed(f[i], Width(i));
      RenderStep(f, i);
      hide *;
      FieldRead(i, Fixed(f[i], Width(i)), Render(f, i + 1));
    }
  }

  lemma RenderStep(f: Fields, i: nat)
    requires i < 6
    ensures Render(f, i) == Pad(f[i], Width(i)) + ([Separator(i)] + Render(f, i + 1))
    ensures f[i..] == [f[i]] + f[i + 1..]
  {
  }

  /** Reading takes one field and goes on behind its separator. */
  lemma FieldRead(i: nat, number: string, rest: string)
    requires i < 6 && |number| == Width(i)
    ensures ReadFields(number + ([Separator(i)] + rest), i) == [Value(number)] + ReadFields(rest, i + 1)
  {
    hide Value, Width;
    FieldCut(number, Separator(i), rest);
  }

  lemma FieldCut(number: string, separator: char, rest: string)
    ensures var s := number + ([separator] + rest);
            |s| > |number| && s[..|number|] == number && s[|number| + 1..] == rest
  {
  }

  // ---- the form of a timestamp ----

  predicate IsDigit(c: char) {
    '0' <= c <= '9'
  }

  lemma {:induction false} FixedIsDigits(n: nat, width: nat)
    ensures forall i :: 0 <= i < width ==> IsDigit(Fixed(n, width)[i])
  {
    if width > 0 {
      FixedIsDigits(n / 10, width - 1);
    }
  }

  /** Where the separator behind field i stands. */
  function Place(i: nat): nat {
    3 * i + 4
  }

  lemma FieldForm(f: Fields, i: nat)
    requires FieldsFit(f) && i < 6
    ensures var text, rest := Render(f, i), Render(f, i + 1);
            && |text| == Width(i) + 1 + |rest| && text[Width(i)] == Separator(i)
            && (forall p :: 0 <= p < Width(i) ==> IsDigit(text[p]))
            && text[Width(i) + 1..] == rest
  {
    FieldFits(f, i);
    FixedIsDigits(f[i], Width(i));
    RenderStep(f, i);
    hide *;
    var number := Fixed(f[i], Width(i));
    FieldCut(number, Separator(i), Render(f, i + 1));
    assert Render(f, i) == number + ([Separator(i)] + Render(f, i + 1));
    assert forall p :: 0 <= p < Width(i) ==> Render(f, i)[p] == number[p];
  }

  lemma RestForm(f: Fields, i: nat, text: string)
    requires FieldsFit(f) && 0 < i <= 6 && |text| == 20 && text[Place(i - 1) + 1..] == Render(f, i)
    ensures i < 6 ==> StandsBehind(text, i) && text[Place(i) + 1..] == Render(f, i + 1)
  {
    if i < 6 {
      FieldForm(f, i);
      var rest := text[Place(i - 1) + 1..];
      assert Place(i) == Place(i - 1) + 3 && Width(i) == 2;
      hide *;
      assert rest[2] == text[Place(i)] && rest[1] == text[Place(i) - 1] && rest[0] == text[Place(i) - 2];
      assert rest[3..] == text[Place(i) + 1..];
    }
  }

  lemma {:induction false} LengthFrom(f: Fields, i: nat)
    requires FieldsFit(f) && 0 < i <= 6
    ensures |Render(f, i)| == 3 * (6 - i)
    decreases 6 - i
  {
    if i < 6 {
      FieldForm(f, i);
      LengthFrom(f, i + 1);
    }
  }

  /** Through the year 9999 a timestamp is digits in the form dddd-dd-ddTdd:dd:ddZ. */
  lemma TimestampForm(seconds: nat)
    requires seconds <= LAST_FOUR_DIGIT_SECOND
    ensures var t := Rfc3339(seconds);
            && |t| == 20
            && t[4] == t[7] == '-' && t[10] == 'T' && t[13] == t[16] == ':' && t[19] == 'Z'
            && forall p :: 0 <= p < 20 && p !in {4, 7, 10, 13, 16, 19} ==> IsDigit(t[p])
  {
    FieldsOfFit(seconds);
    hide FieldsOf, FieldsFit, Render, IsDigit;
    RenderedForm(FieldsOf(seconds), Rfc3339(seconds));
  }

  lemma RenderedForm(f: Fields, t: string)
    requires FieldsFit(f) && t == Render(f, 0)
    ensures |t| == 20
    ensures t[4] == t[7] == '-' && t[10] == 'T' && t[13] == t[16] == ':' && t[19] == 'Z'
    ensures forall p :: 0 <= p < 20 && p !in {4, 7, 10, 13, 16, 19} ==> IsDigit(t[p])
  {
    hide *;
    FirstForm(f, t);
    RestsForm(f, 1, t);
    DigitsAround(t);
    SeparatorsAt(t);
  }

  lemma FirstForm(f: Fields, t: string)
    requires FieldsFit(f) && t == Render(f, 0)
    ensures |t| == 20 && t[4] == '-' && t[Place(0) + 1..] == Render(f, 1)
    ensures IsDigit(t[0]) && IsDigit(t[1]) && IsDigit(t[2]) && IsDigit(t[3])
  {
    FieldForm(f, 0);
    LengthFrom(f, 1);
    hide Render, FieldsFit, IsDigit;
  }

  lemma {:induction false} RestsForm(f: Fields, i: nat, text: string)
    requires FieldsFit(f) && 0 < i <= 6 && |text| == 20 && text[Place(i - 1) + 1..] == Render(f, i)
    ensures forall j :: i <= j < 6 ==> StandsBehind(text, j)
    decreases 6 - i
  {
    hide FieldsFit, Render, IsDigit;
    if i < 6 {
      RestForm(f, i, text);
      RestsForm(f, i + 1, text);
    }
  }

  /** Two digits and the separator behind them. */
  predicate StandsBehind(text: string, i: nat)
    requires 0 < i < 6 && |text| == 20
  {
    text[Place(i)] == Separator(i) && IsDigit(text[Place(i) - 1]) && IsDigit(text[Place(i) - 2])
  }

  lemma SeparatorsAt(text: string)
    requires |text| == 20 && forall j :: 1 <= j < 6 ==> StandsBehind(text, j)
    ensures text[7] == '-' && text[10] == 'T' && text[13] == text[16] == ':' && text[19] == 'Z'
  {
    hide IsDigit;
    assert StandsBehind(text, 1) && StandsBehind(text, 2) && StandsBehind(text, 3);
    assert StandsBehind(text, 4) && StandsBehind(text, 5);
  }

  /** Every position is a separator's, one of the first four or one of the two in front of a separator. */
  lemma DigitsAround(t: string)
    requires |t| == 20 && IsDigit(t[0]) && IsDigit(t[1]) && IsDigit(t[2]) && IsDigit(t[3])
    requires forall i :: 1 <= i < 6 ==> StandsBehind(t, i)
    ensures forall p :: 0 <= p < 20 && p !in {4, 7, 10, 13, 16, 19} ==> IsDigit(t[p])
  {
    hide IsDigit;
    forall p | 0 <= p < 20 && p !in {4, 7, 10, 13, 16, 19}
      ensures IsDigit(t[p])
    {
      var i := (p - 2) / 3;
      assert p >= 4 ==> 1 <= i < 6 && StandsBehind(t, i) && (p == Place(i) - 1 || p == Place(i) - 2);
    }
  }

  // ---- order ----

  predicate FieldsLess(f: Fields, g: Fields, i: nat)
    decreases 6 - i
  {
    i < 6 && (f[i] < g[i] || (f[i] == g[i] && FieldsLess(f, g, i + 1)))
  }

  lemma {:induction false} RenderRises(f: Fields, g: Fields, i: nat)
    requires FieldsFit(f) && FieldsFit(g) && i <= 6 && FieldsLess(f, g, i)
    ensures Before(Render(f, i), Render(g, i))
    decreases 6 - i
  {
    FieldFits(f, i);
    FieldFits(g, i);
    var x, y := [Separator(i)] + Render(f, i + 1), [Separator(i)] + Render(g, i + 1);
    if f[i] < g[i] {
      FixedRises(f[i], g[i], Width(i));
      FirstDifferenceDecides(Fixed(f[i], Width(i)), Fixed(g[i], Width(i)), x, y);
    } else {
      RenderRises(f, g, i + 1);
      SamePrefix([Separator(i)], Render(f, i + 1), Render(g, i + 1));
      SamePrefix(Fixed(f[i], Width(i)), x, y);
    }
  }

  lemma FieldsOfFit(seconds: nat)
    requires seconds <= LAST_FOUR_DIGIT_SECOND
    ensures FieldsFit(FieldsOf(seconds))
  {
    YearsFromEpoch(seconds / 86_400);
    DayNumberUndoesCivil(seconds / 86_400);
    hide CivilFromDays, DayNumber;
  }

  /** The instant that year, month, day, hour, minute and second name. */
  function SecondsOf(f: seq<int>): int
    requires |f| == 6
  {
    DayNumber(Date(f[0], f[1], f[2])) * 86_400 + f[3] * 3600 + f[4] * 60 + f[5]
  }

  /** Up to the year 9999 a timestamp reads back as the second it was printed from. */
  lemma TimestampReadsBack(seconds: nat)
    requires seconds <= LAST_FOUR_DIGIT_SECOND
    ensures var f := ReadFields(Rfc3339(seconds), 0); |f| == 6 && SecondsOf(f) == seconds
  {
    hide FieldsOf, Render, ReadFields, FieldsFit;
    FieldsOfFit(seconds);
    ReadUndoesRender(FieldsOf(seconds), 0);
    assert FieldsOf(seconds)[0..] == FieldsOf(seconds);
    FieldsNameSecond(seconds);
  }

  lemma FieldsNameSecond(seconds: nat)
    ensures SecondsOf(FieldsOf(seconds)) == seconds
  {
    var days, ofDay := seconds / 86_400, seconds % 86_400;
    DayNumberUndoesCivil(days);
    hide CivilFromDays, DayNumber;
    var d, f := CivilFromDays(days), FieldsOf(seconds);
    assert Date(f[0], f[1], f[2]) == d;
    ClockAddsUp(ofDay);
    assert f[3] == ofDay / 3600 && f[4] == ofDay % 3600 / 60 && f[5] == ofDay % 60;
  }

  lemma ClockAddsUp(ofDay: nat)
    ensures ofDay / 3600 * 3600 + ofDay % 3600 / 60 * 60 + ofDay % 60 == ofDay
  {
    Remainder(ofDay, 60, 60 * (ofDay / 3600) + ofDay % 3600 / 60, ofDay % 3600 % 60);
  }

  lemma LaterFields(a: nat, b: nat)
    requires a < b
    ensures FieldsLess(FieldsOf(a), FieldsOf(b), 0)
  {
    hide CivilFromDays;
    if a / 86_400 < b / 86_400 {
      DatesRise(a / 86_400, b / 86_400);
    } else {
      LaterInDay(a % 86_400, b % 86_400);
    }
    var f, g := FieldsOf(a), FieldsOf(b);
    assert FieldsLess(f, g, 0) <==> f[0] < g[0] || (f[0] == g[0] && FieldsLess(f, g, 1));
    assert FieldsLess(f, g, 1) <==> f[1] < g[1] || (f[1] == g[1] && FieldsLess(f, g, 2));
    assert FieldsLess(f, g, 2) <==> f[2] < g[2] || (f[2] == g[2] && FieldsLess(f, g, 3));
    assert FieldsLess(f, g, 3) <==> f[3] < g[3] || (f[3] == g[3] && FieldsLess(f, g, 4));
    assert FieldsLess(f, g, 4) <==> f[4] < g[4] || (f[4] == g[4] && FieldsLess(f, g, 5));
    assert FieldsLess(f, g, 5) <==> f[5] < g[5];
  }

  lemma LaterInDay(a: nat, b: nat)
    requires a < b < 86_400
    ensures || a / 3600 < b / 3600
            || (a / 3600 == b / 3600 && a % 3600 / 60 < b % 3600 / 60)
            || (a / 3600 == b / 3600 && a % 3600 / 60 == b % 3600 / 60 && a % 60 < b % 60)
  {
    var hour, inHour := a / 3600, a % 3600;
    Remainder(a, 60, 60 * hour + inHour / 60, inHour % 60);
    Remainder(b, 60, 60 * (b / 3600) + b % 3600 / 60, b % 3600 % 60);
    if b / 3600 == hour {
      assert inHour < b % 3600;
    }
  }

  /** Up to the year 9999, timestamps sort as text exactly as their instants do. */
  lemma TextOrderIsTimeOrder(a: nat, b: nat)
    requires a <= LAST_FOUR_DIGIT_SECOND && b <= LAST_FOUR_DIGIT_SECOND
    ensures Before(Rfc3339(a), Rfc3339(b)) <==> a < b
  {
    hide FieldsOf, Render;
    FieldsOfFit(a);
    FieldsOfFit(b);
    if a < b {
      LaterFields(a, b);
      RenderRises(FieldsOf(a), FieldsOf(b), 0);
    } else if b < a {
      LaterFields(b, a);
      RenderRises(FieldsOf(b), FieldsOf(a), 0);
      if Before(Rfc3339(a), Rfc3339(b)) {
        AtMostAntisymmetric(Rfc3339(a), Rfc3339(b));
      }
    }
  }

  /** Text order and time order agree on all instants up to n exactly when n is within the year 9999. */
  lemma OrderAgreesThrough9999(n: nat)
    ensures (forall a: nat, b: nat :: a <= n && b <= n ==> (Before(Rfc3339(a), Rfc3339(b)) <==> a < b))
            <==> n <= LAST_FOUR_DIGIT_SECOND
  {
    hide Rfc3339, Before;
    if n <= LAST_FOUR_DIGIT_SECOND {
      forall a: nat, b: nat | a <= n && b <= n
        ensures Before(Rfc3339(a), Rfc3339(b)) <==> a < b
      {
        TextOrderIsTimeOrder(a, b);
      }
    } else {
      FiveDigitYearSortsFirst();
      var a, b := LAST_FOUR_DIGIT_SECOND, LAST_FOUR_DIGIT_SECOND + 1;
      assert !(Before(Rfc3339(a), Rfc3339(b)) <==> a < b);
    }
  }

  lemma FiveDigitYearSortsFirst()
    ensures !Before(Rfc3339(LAST_FOUR_DIGIT_SECOND), Rfc3339(LAST_FOUR_DIGIT_SECOND + 1))
  {
    hide Rfc3339, Pad, CivilFromDays, Before;
    Landmarks();
    FirstDigits();
    var n := LAST_FOUR_DIGIT_SECOND;
    assert n / 86_400 == 2_932_896 && (n + 1) / 86_400 == 2_932_897;
    FirstCharacter(n);
    FirstCharacter(n + 1);
    FirstCharacterDecides(Rfc3339(n), Rfc3339(n + 1));
  }

  lemma FirstCharacterDecides(a: string, b: string)
    requires a != [] && b != [] && a[0] > b[0]
    ensures !Before(a, b)
  {
  }

  lemma DecimalStep(n: nat)
    requires n >= 10
    ensures |Decimal(n)| == |Decimal(n / 10)| + 1 && Decimal(n / 10) != [] && Decimal(n)[0] == Decimal(n / 10)[0]
  {
  }

  lemma FirstDigits()
    ensures Pad(9999, 4)[0] == '9' && Pad(10_000, 4)[0] == '1'
  {
    DecimalStep(9999);
    DecimalStep(999);
    DecimalStep(99);
    DecimalStep(10_000);
    DecimalStep(1000);
    DecimalStep(100);
    DecimalStep(10);
    assert Decimal(9) == ['9'] && Decimal(1) == ['1'];
    hide Decimal;
  }

  /** A timestamp starts with its padded year. */
  lemma FirstCharacter(seconds: nat)
    ensures CivilFromDays(seconds / 86_400).year >= 0
    ensures var year := Pad(CivilFromDays(seconds / 86_400).year, 4);
            year != [] && Rfc3339(seconds) != [] && Rfc3339(seconds)[0] == year[0]
  {
    YearsFromEpoch(seconds / 86_400);
    hide CivilFromDays, Decimal;
    var year := Pad(CivilFromDays(seconds / 86_400).year, 4);
    DecimalNotEmpty(CivilFromDays(seconds / 86_400).year);
    assert Render(FieldsOf(seconds), 0) == year + ([Separator(0)] + Render(FieldsOf(seconds), 1));
  }

  lemma DecimalNotEmpty(n: nat)
    ensures Decimal(n) != []
  {
  }
}
