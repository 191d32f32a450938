/** UTC calendar conversion (Hinnant's civil_from_days) against day counting. */
module Calendar {
  import Lex
  import opened Numerals

  datatype Parts = Parts(year: int, month: int, day: int, hour: int, minute: int, second: int)

  // ----- the program ----------------------------------------------------------

  function UtcParts(ms: int): Parts {
    var secs := ms / 1000;
    var days := secs / 86_400;
    var rem := secs % 86_400;
    var (y, m, d) := CivilDate(days);
    Parts(y, m, d, rem / 3600, rem % 3600 / 60, rem % 60)
  }

  /** Year, month and day of a day counted from 1 January 1970. */
  function CivilDate(days: int): (int, int, int) {
    var z := days + 719_468;
    var era := z / 146_097;
    var doe := z - era * 146_097;
    var yoe := YearOfEra(doe);
    var doy := doe - (365 * yoe + yoe / 4 - yoe / 100);
    FromMarch(yoe + era * 400, doy)
  }

  /** The date of day doy, from 0, of the year that starts on 1 March of year `march`. */
  function FromMarch(march: int, doy: int): (int, int, int) {
    var mp := (5 * doy + 2) / 153;
    var d := doy - (153 * mp + 2) / 5 + 1;
    var m := if mp < 10 then mp + 3 else mp - 9;
    (march + (if m <= 2 then 1 else 0), m, d)
  }

  function YearOfEra(doe: int): int {
    (doe - doe / 1460 + doe / 36_524 - doe / 146_096) / 365
  }

  // ----- the calendar itself --------------------------------------------------

  predicate IsLeap(y: int) {
    y % 4 == 0 && (y % 100 != 0 || y % 400 == 0)
  }

  function YearLength(y: int): int {
    if IsLeap(y) then 366 else 365
  }

  function MonthLength(y: int, m: int): int {
    if m == 2 then (if IsLeap(y) then 29 else 28)
    else if m in {4, 6, 9, 11} then 30
    else 31
  }

  /** Days from 1 January 1970 to 1 January of year y, counted year by year. */
  function DaysToYear(y: int): int
    decreases if y < 1970 then 1970 - y else y - 1970
  {
    if y == 1970 then 0
    else if y > 1970 then DaysToYear(y - 1) + YearLength(y - 1)
    else DaysToYear(y + 1) - YearLength(y)
  }

  /** Days from 1 January to the first of month m, counted month by month. */
  function DaysToMonth(y: int, m: int): int
    decreases m
  {
    if m <= 1 then 0 else DaysToMonth(y, m - 1) + MonthLength(y, m - 1)
  }

  function DayNumber(y: int, m: int, d: int): int {
    DaysToYear(y) + DaysToMonth(y, m) + d - 1
  }

  function SecondNumber(p: Parts): int {
    DayNumber(p.year, p.month, p.day) * 86_400 + p.hour * 3600 + p.minute * 60 + p.second
  }

  /** A date and time that exists, section 5.7 of RFC 3339 (no leap seconds). */
  predicate Valid(p: Parts) {
    && 1 <= p.month <= 12
    && 1 <= p.day <= MonthLength(p.year, p.month)
    && 0 <= p.hour < 24
    && 0 <= p.minute < 60
    && 0 <= p.second < 60
  }

  // ----- counting in closed form ----------------------------------------------

  /** Leap days before 1 January of year y, up to a constant. */
  function LeapsBefore(y: int): int {
    (y - 1) / 4 - (y - 1) / 100 + (y - 1) / 400
  }

  lemma LeapsStep(y: int)
    ensures LeapsBefore(y + 1) == LeapsBefore(y) + (if IsLeap(y) then 1 else 0)
  {
    QuotientSteps(y);
    Divides(y);
  }

  lemma QuotientSteps(y: int)
    ensures y / 4 == (y - 1) / 4 + (if y % 4 == 0 then 1 else 0)
    ensures y / 100 == (y - 1) / 100 + (if y % 100 == 0 then 1 else 0)
    ensures y / 400 == (y - 1) / 400 + (if y % 400 == 0 then 1 else 0)
  {
  }

  lemma Divides(y: int)
    ensures y % 100 == 0 ==> y % 4 == 0
    ensures y % 400 == 0 ==> y % 100 == 0
  {
  }

  lemma {:induction false} DaysToYearClosed(y: int)
    ensures DaysToYear(y) == 365 * (y - 1970) + LeapsBefore(y) - 477
    decreases if y < 1970 then 1970 - y else y - 1970
  {
    if y > 1970 {
      DaysToYearClosed(y - 1);
      LeapsStep(y - 1);
    } else if y < 1970 {
      DaysToYearClosed(y + 1);
      LeapsStep(y);
    }
  }

  /** Days from 1 March to the first of the month that is mp months later. */
  function MarchDays(mp: int): int {
    (153 * mp + 2) / 5
  }

  lemma MonthFromMarch(y: int, mp: int)
    requires 0 <= mp < 12
    ensures mp < 10 ==> DaysToMonth(y, mp + 3) == DaysToMonth(y, 3) + MarchDays(mp)
    ensures mp < 10 && mp != 9 ==> MarchDays(mp + 1) == MarchDays(mp) + MonthLength(y, mp + 3)
    ensures mp == 9 || mp == 10 ==> MarchDays(mp + 1) == MarchDays(mp) + 31
    ensures mp >= 10 ==> DaysToMonth(y, mp - 9) == MarchDays(mp) - 306
  {
    if 0 < mp < 10 {
      MonthFromMarch(y, mp - 1);
    } else if mp == 11 {
      assert DaysToMonth(y, 2) == DaysToMonth(y, 1) + 31;
    }
  }

  // ----- the conversion is right ----------------------------------------------

  /** Where a day lies in its 400-year era: century c, four-year block q, year t, day r. */
  lemma EraDigits(doe: int) returns (c: int, q: int, t: int, r: int)
    requires 0 <= doe < 146_097
    ensures 0 <= c <= 3 && 0 <= q <= 24 && 0 <= t <= 3 && 0 <= r <= 365
    ensures r == 365 ==> t == 3 && (q == 24 ==> c == 3)
    ensures doe == 36_524 * c + 1461 * q + 365 * t + r
    ensures YearOfEra(doe) == 100 * c + 4 * q + t
  {
    c := if doe == 146_096 then 3 else doe / 36_524;
    var inCentury := doe - 36_524 * c;
    q := inCentury / 1461;
    var inBlock := inCentury - 1461 * q;
    t := if inBlock == 1460 then 3 else inBlock / 365;
    r := inBlock - 365 * t;
    assert doe / 146_096 == if doe == 146_096 then 1 else 0;
    assert doe / 36_524 == if doe == 146_096 then 4 else c;
    var year := 100 * c + 4 * q + t;
    assert 365 * year <= doe - doe / 1460 + doe / 36_524 - doe / 146_096 < 365 * year + 365;
  }

  /** The day of the year that starts on 1 March, and its month. */
  lemma MonthOfDay(r: int)
    requires 0 <= r <= 365
    ensures 0 <= (5 * r + 2) / 153 <= 11
    ensures MarchDays((5 * r + 2) / 153) <= r
    ensures r < MarchDays((5 * r + 2) / 153 + 1)
  {
  }

  lemma CivilDateForm(days: int) returns (march: int, c: int, q: int, t: int, r: int)
    ensures 0 <= c <= 3 && 0 <= q <= 24 && 0 <= t <= 3 && 0 <= r <= 365
    ensures r == 365 ==> t == 3 && (q == 24 ==> c == 3)
    ensures march == 400 * (march / 400) + 100 * c + 4 * q + t
    ensures days == 365 * march + march / 4 - march / 100 + march / 400 + r - 719_468
    ensures CivilDate(days) == FromMarch(march, r)
  {
    var era, doe := EraAndDay(days);
    c, q, t, r := EraDigits(doe);
    march := 100 * c + 4 * q + t + era * 400;
    YearDigits(era, c, q, t);
    CivilDateOf(days, era, doe, c, q, t, r);
  }

  lemma EraAndDay(days: int) returns (era: int, doe: int)
    ensures era == (days + 719_468) / 146_097
    ensures days + 719_468 == era * 146_097 + doe && 0 <= doe < 146_097
  {
    era := (days + 719_468) / 146_097;
    doe := (days + 719_468) % 146_097;
  }

  lemma CivilDateOf(days: int, era: int, doe: int, c: int, q: int, t: int, r: int)
    requires era == (days + 719_468) / 146_097 && days + 719_468 == era * 146_097 + doe
    requires 0 <= c <= 3 && 0 <= q <= 24 && 0 <= t <= 3
    requires doe == 36_524 * c + 1461 * q + 365 * t + r
    requires YearOfEra(doe) == 100 * c + 4 * q + t
    ensures CivilDate(days) == FromMarch(100 * c + 4 * q + t + era * 400, r)
  {
    YearDigits(era, c, q, t);
    CivilDateIn(days, era, doe, 100 * c + 4 * q + t, r);
  }

  lemma CivilDateIn(days: int, era: int, doe: int, yoe: int, doy: int)
    requires era == (days + 719_468) / 146_097 && days + 719_468 == era * 146_097 + doe
    requires YearOfEra(doe) == yoe && doy == doe - (365 * yoe + yoe / 4 - yoe / 100)
    ensures CivilDate(days) == FromMarch(yoe + era * 400, doy)
  {
  }

  /** The conversion names an existing date whose day count is the one it was given. */
  lemma CivilDateIsRight(days: int)
    ensures var (y, m, d) := CivilDate(days);
            && 1 <= m <= 12
            && 1 <= d <= MonthLength(y, m)
            && DayNumber(y, m, d) == days
  {
    var march, c, q, t, r := CivilDateForm(days);
    MonthOfDay(r);
    MarchYear(march, (5 * r + 2) / 153, r, days, c, q, t);
  }

  lemma YearDigits(era: int, c: int, q: int, t: int)
    requires 0 <= c <= 3 && 0 <= q <= 24 && 0 <= t <= 3
    ensures var yoe := 100 * c + 4 * q + t;
            && yoe / 4 == 25 * c + q && yoe / 100 == c
            && (yoe + era * 400) / 4 == 100 * era + 25 * c + q
            && (yoe + era * 400) / 100 == 4 * era + c
            && (yoe + era * 400) / 400 == era
  {
  }

  lemma MarchYear(march: int, mp: int, r: int, days: int, c: int, q: int, t: int)
    requires 0 <= mp <= 11 && MarchDays(mp) <= r < MarchDays(mp + 1) && r <= 365
    requires 0 <= c <= 3 && 0 <= q <= 24 && 0 <= t <= 3
    requires r == 365 ==> t == 3 && (q == 24 ==> c == 3)
    requires march == 400 * (march / 400) + 100 * c + 4 * q + t
    requires days == 365 * march + march / 4 - march / 100 + march / 400 + r - 719_468
    ensures var m := if mp < 10 then mp + 3 else mp - 9;
            var y := march + (if m <= 2 then 1 else 0);
            var d := r - MarchDays(mp) + 1;
            && 1 <= d <= MonthLength(y, m)
            && DayNumber(y, m, d) == days
  {
    var m := if mp < 10 then mp + 3 else mp - 9;
    var y := march + (if m <= 2 then 1 else 0);
    MonthFromMarch(y, mp);
    DaysToYearClosed(y);
    if mp < 10 {
      LeapsStep(y);
      assert DaysToMonth(y, 3) == 59 + (if IsLeap(y) then 1 else 0) by {
        assert DaysToMonth(y, 1) == 0;
        assert DaysToMonth(y, 2) == 31;
      }
    } else {
      MonthFromMarch(y, 10);
      if r == 365 {
        LeapAfter(march / 400, c, q);
      }
    }
  }

  lemma LeapAfter(k: int, c: int, q: int)
    requires 0 <= c <= 3 && 0 <= q <= 24 && (q == 24 ==> c == 3)
    ensures IsLeap(400 * k + 100 * c + 4 * q + 4)
  {
    var y := 400 * k + 100 * c + 4 * q + 4;
    assert y == 4 * (100 * k + 25 * c + q + 1);
    if q == 24 {
      assert y == 400 * (k + 1);
    } else {
      assert y == 100 * (4 * k + c) + (4 * q + 4);
    }
  }

  /** Every instant is converted to the existing date and time it falls in, to the second. */
  lemma UtcPartsIsRight(ms: int)
    ensures Valid(UtcParts(ms))
    ensures SecondNumber(UtcParts(ms)) == ms / 1000
  {
    CivilDateIsRight(ms / 1000 / 86_400);
    TimeOfDay(ms / 1000 % 86_400);
  }

  lemma TimeOfDay(rem: int)
    requires 0 <= rem < 86_400
    ensures 0 <= rem / 3600 < 24 && 0 <= rem % 3600 / 60 < 60 && 0 <= rem % 60 < 60
    ensures rem / 3600 * 3600 + rem % 3600 / 60 * 60 + rem % 60 == rem
  {
  }

  // ----- later dates have larger counts ----------------------------------------

  predicate Before(p: Parts, q: Parts) {
    if p.year != q.year then p.year < q.year
    else if p.month != q.month then p.month < q.month
    else if p.day != q.day then p.day < q.day
    else if p.hour != q.hour then p.hour < q.hour
    else if p.minute != q.minute then p.minute < q.minute
    else p.second < q.second
  }

  lemma {:induction false} YearsInOrder(y: int, y': int)
    requires y < y'
    ensures DaysToYear(y) + YearLength(y) <= DaysToYear(y')
    decreases y' - y
  {
    if y + 1 < y' {
      YearsInOrder(y + 1, y');
    }
    assert DaysToYear(y + 1) == DaysToYear(y) + YearLength(y);
  }

  lemma {:induction false} MonthsInOrder(y: int, m: int, m': int)
    requires 1 <= m < m'
    ensures DaysToMonth(y, m) + MonthLength(y, m) <= DaysToMonth(y, m')
    decreases m' - m
  {
    if m' <= m + 1 {
    } else {
      MonthsInOrder(y, m + 1, m');
    }
  }

  lemma MonthsFillYear(y: int)
    ensures DaysToMonth(y, 13) == YearLength(y)
  {
    MonthFromMarch(y, 9);
    assert DaysToMonth(y, 1) == 0;
    assert DaysToMonth(y, 2) == 31;
    assert DaysToMonth(y, 3) == 31 + MonthLength(y, 2);
    assert DaysToMonth(y, 13) == DaysToMonth(y, 12) + 31;
  }

  lemma DaysInOrder(p: Parts, q: Parts)
    requires Valid(p) && Valid(q)
    requires p.year < q.year || (p.year == q.year && (p.month < q.month || (p.month == q.month && p.day < q.day)))
    ensures DayNumber(p.year, p.month, p.day) < DayNumber(q.year, q.month, q.day)
  {
    if p.year < q.year {
      YearsInOrder(p.year, q.year);
      MonthsFillYear(p.year);
      MonthsInOrder(p.year, p.month, 13);
      if 1 < q.month {
        MonthsInOrder(q.year, 1, q.month);
      }
    } else if p.month < q.month {
      MonthsInOrder(p.year, p.month, q.month);
    }
  }

  lemma SecondsInOrder(p: Parts, q: Parts)
    requires Valid(p) && Valid(q) && Before(p, q)
    ensures SecondNumber(p) < SecondNumber(q)
  {
    if p.year != q.year || p.month != q.month || p.day != q.day {
      DaysInOrder(p, q);
    }
  }

  /** No other existing date and time has the second count of the instant. */
  lemma UtcPartsIsUnique(ms: int, p: Parts)
    requires Valid(p)
    ensures SecondNumber(p) == ms / 1000 <==> p == UtcParts(ms)
  {
    UtcPartsIsRight(ms);
    var q := UtcParts(ms);
    if p != q {
      if Before(p, q) {
        SecondsInOrder(p, q);
      } else {
        assert Before(q, p);
        SecondsInOrder(q, p);
      }
    }
  }

  // ----- timestamps ------------------------------------------------------------

  function Zeros(k: nat): string {
    seq(k, _ => '0')
  }

  /** Zero-padded to a minimum width; the sign counts towards the width. */
  function Padded(n: int, width: nat): string {
    if n >= 0 then Fill(Decimal(n), width)
    else "-" + Fill(Decimal(-n), if width > 0 then width - 1 else 0)
  }

  function Fill(digits: string, width: nat): string {
    Zeros(if width > |digits| then width - |digits| else 0) + digits
  }

  function IsoUtc(ms: int): string {
    IsoOf(UtcParts(ms))
  }

  function IsoOf(p: Parts): string {
    Padded(p.year, 4) + ("-" + (Padded(p.month, 2) + ("-" + (Padded(p.day, 2) + ("T" + IsoTime(p))))))
  }

  function IsoTime(p: Parts): string {
    Padded(p.hour, 2) + (":" + (Padded(p.minute, 2) + (":" + (Padded(p.second, 2) + ("Z" + "")))))
  }

  function Pow10(k: nat): nat {
    if k == 0 then 1 else 10 * Pow10(k - 1)
  }

  lemma {:induction false} DecimalWidth(n: nat, width: nat)
    ensures 0 < |Decimal(n)|
    ensures width > 0 ==> (|Decimal(n)| <= width <==> n < Pow10(width))
    ensures forall i | 0 <= i < |Decimal(n)| :: '0' <= Decimal(n)[i] <= '9'
    decreases n
  {
    if n >= 10 {
      DecimalWidth(n / 10, if width > 0 then width - 1 else 0);
      if width == 1 {
        assert Pow10(1) == 10;
      } else if width > 1 {
        var p := Pow10(width - 1);
        assert n / 10 < p <==> n < 10 * p;
      }
    } else if width > 0 {
      assert Pow10(width) >= 10 by { Pow10Grows(width); }
    }
  }

  lemma {:induction false} Pow10Grows(k: nat)
    requires k > 0
    ensures Pow10(k) >= 10
  {
    if k <= 1 {
    } else {
      Pow10Grows(k - 1);
    }
  }

  /** Numbers padded to the same width compare like strings. */
  lemma {:induction false} PaddedOrder(a: nat, b: nat, width: nat)
    requires width > 0 && a < Pow10(width) && b < Pow10(width)
    ensures |Padded(a, width)| == width == |Padded(b, width)|
    ensures Lex.Less(Padded(a, width), Padded(b, width)) <==> a < b
    decreases width
  {
    DecimalWidth(a, width);
    DecimalWidth(b, width);
    if width == 1 {
      assert Pow10(1) == 10;
      assert Padded(a, 1) == [Digit(a)] && Padded(b, 1) == [Digit(b)];
      DigitOrder(a, b);
    } else {
      PaddedSplit(a, width);
      PaddedSplit(b, width);
      PaddedOrder(a / 10, b / 10, width - 1);
      PaddedOrder(b / 10, a / 10, width - 1);
      AppendDigitOrder(Padded(a / 10, width - 1), Padded(b / 10, width - 1), a, b);
    }
  }

  lemma AppendDigitOrder(x: string, y: string, a: nat, b: nat)
    requires |x| == |y|
    requires Lex.Less(x, y) <==> a / 10 < b / 10
    requires Lex.Less(y, x) <==> b / 10 < a / 10
    ensures Lex.Less(x + [Digit(a % 10)], y + [Digit(b % 10)]) <==> a < b
  {
    DigitOrder(a % 10, b % 10);
    Lex.LessConcat(x, [Digit(a % 10)], y, [Digit(b % 10)]);
    Lex.LessTotal(x, y);
    Lex.LessIrreflexive(x);
    assert a < b <==> a / 10 < b / 10 || (a / 10 == b / 10 && a % 10 < b % 10);
  }

  lemma DigitOrder(a: int, b: int)
    requires 0 <= a < 10 && 0 <= b < 10
    ensures Lex.Less([Digit(a)], [Digit(b)]) <==> a < b
  {
    assert !Lex.Less([Digit(a)][1..], [Digit(b)][1..]);
  }

  lemma PaddedSplit(n: nat, width: nat)
    requires width > 1 && n < Pow10(width)
    ensures n / 10 < Pow10(width - 1)
    ensures Padded(n, width) == Padded(n / 10, width - 1) + [Digit(n % 10)]
  {
    DecimalWidth(n, width);
    DecimalWidth(n / 10, width - 1);
    if n < 10 {
      assert Decimal(n / 10) == "0";
      assert Zeros(width - 1) == Zeros(width - 2) + "0";
    }
  }

  lemma {:induction false} ZerosRead(k: nat, digits: string)
    ensures ReadDecimal(Zeros(k) + digits) == ReadDecimal(digits)
    decreases |digits|, k
  {
    if digits == "" && k == 0 {
    } else if digits == "" {
      assert (Zeros(k) + digits)[..k - 1] == Zeros(k - 1) + digits;
      ZerosRead(k - 1, digits);
    } else {
      assert (Zeros(k) + digits)[..k + |digits| - 1] == Zeros(k) + digits[..|digits| - 1];
      ZerosRead(k, digits[..|digits| - 1]);
    }
  }

  lemma FillReads(n: nat, width: nat)
    ensures ReadDecimal(Fill(Decimal(n), width)) == n && |Fill(Decimal(n), width)| >= width
    ensures Fill(Decimal(n), width) != ""
    ensures forall i | 0 <= i < |Fill(Decimal(n), width)| :: '0' <= Fill(Decimal(n), width)[i] <= '9'
    ensures 0 < width && n < Pow10(width) ==> |Fill(Decimal(n), width)| == width
  {
    var digits := Decimal(n);
    DecimalReads(n);
    DecimalWidth(n, width);
    ZerosRead(if width > |digits| then width - |digits| else 0, digits);
  }

  lemma SignedReads(digits: string)
    ensures ReadInt("-" + digits) == 0 - ReadDecimal(digits)
  {
    assert ("-" + digits)[1..] == digits;
  }

  /** A padded number reads as itself, sign included. */
  lemma PaddedReads(n: int, width: nat)
    requires width > 0
    ensures ReadInt(Padded(n, width)) == n && |Padded(n, width)| >= width
    ensures 0 <= n < Pow10(width) ==> |Padded(n, width)| == width && ReadDecimal(Padded(n, width)) == n
    ensures n >= 0 ==> forall i | 0 <= i < |Padded(n, width)| :: '0' <= Padded(n, width)[i] <= '9'
  {
    if n >= 0 {
      FillReads(n, width);
    } else {
      FillReads(-n, width - 1);
      SignedReads(Fill(Decimal(-n), width - 1));
    }
  }

  predicate TwoDigits(x: string, n: int) {
    |x| == 2 && ReadDecimal(x) == n && '0' <= x[0] <= '9' && '0' <= x[1] <= '9'
  }

  /** Two digits for n and then a sign. */
  predicate Field(t: string, n: int, sign: char) {
    |t| >= 3 && TwoDigits(t[..2], n) && t[2] == sign
  }

  /** The text holds these parts: a year of four places or more, then five fields of two, each before its sign. */
  predicate Holds(t: string, p: Parts) {
    var n := |t| - 16;
    && n >= 4 && (YearHasFourDigits(p) ==> n == 4)
    && ReadInt(t[..n]) == p.year && t[n] == '-' && DateHolds(t[n + 1..], p)
  }

  predicate DateHolds(t: string, p: Parts)
    requires |t| == 15
  {
    Field(t, p.month, '-') && Field(t[3..], p.day, 'T') && TimeHolds(t[6..], p)
  }

  predicate TimeHolds(t: string, p: Parts)
    requires |t| == 9
  {
    Field(t, p.hour, ':') && Field(t[3..], p.minute, ':') && Field(t[6..], p.second, 'Z')
  }

  lemma FieldFirst(x: string, n: int, sign: string, rest: string)
    requires TwoDigits(x, n) && |sign| == 1
    ensures Field(x + (sign + rest), n, sign[0]) && (x + (sign + rest))[3..] == rest
  {
    assert (x + (sign + rest))[..2] == x;
  }

  lemma TimeLayout(p: Parts, h: string, mi: string, s: string)
    requires TwoDigits(h, p.hour) && TwoDigits(mi, p.minute) && TwoDigits(s, p.second)
    ensures TimeHolds(h + (":" + (mi + (":" + (s + ("Z" + ""))))), p)
  {
    var ts := s + ("Z" + "");
    var tmi := mi + (":" + ts);
    FieldFirst(s, p.second, "Z", "");
    FieldFirst(mi, p.minute, ":", ts);
    FieldFirst(h, p.hour, ":", tmi);
    Threes(h + (":" + tmi), tmi, ts);
  }

  lemma DateLayout(p: Parts, m: string, d: string, time: string)
    requires TwoDigits(m, p.month) && TwoDigits(d, p.day) && |time| == 9 && TimeHolds(time, p)
    ensures DateHolds(m + ("-" + (d + ("T" + time))), p)
  {
    var td := d + ("T" + time);
    FieldFirst(d, p.day, "T", time);
    FieldFirst(m, p.month, "-", td);
    Threes(m + ("-" + td), td, time);
  }

  lemma Threes(t: string, u: string, v: string)
    requires |t| >= 6 && t[3..] == u && u[3..] == v
    ensures t[6..] == v
  {
  }

  lemma YearFirst(p: Parts, y: string, rest: string)
    requires |y| >= 4 && (YearHasFourDigits(p) ==> |y| == 4) && ReadInt(y) == p.year
    requires |rest| == 15 && DateHolds(rest, p)
    ensures Holds(y + ("-" + rest), p)
  {
    var t := y + ("-" + rest);
    assert t[..|y|] == y && t[|y| + 1..] == rest;
  }

  /** The timestamp of any millisecond reads back to its parts. */
  lemma IsoReadsBack(ms: int)
    ensures Holds(IsoUtc(ms), UtcParts(ms))
  {
    var p := UtcParts(ms);
    UtcPartsIsRight(ms);
    PartsRead(p);
    TimeLayout(p, Padded(p.hour, 2), Padded(p.minute, 2), Padded(p.second, 2));
    DateLayout(p, Padded(p.month, 2), Padded(p.day, 2), IsoTime(p));
    YearFirst(p, Padded(p.year, 4), Padded(p.month, 2) + ("-" + (Padded(p.day, 2) + ("T" + IsoTime(p)))));
  }

  lemma PartsRead(p: Parts)
    requires Valid(p)
    ensures ReadInt(Padded(p.year, 4)) == p.year && |Padded(p.year, 4)| >= 4
    ensures YearHasFourDigits(p) ==> |Padded(p.year, 4)| == 4
    ensures forall n | n in [p.month, p.day, p.hour, p.minute, p.second] :: TwoDigits(Padded(n, 2), n)
  {
    Pow10Values();
    PaddedReads(p.year, 4);
    forall n | n in [p.month, p.day, p.hour, p.minute, p.second]
      ensures TwoDigits(Padded(n, 2), n)
    {
      PaddedReads(n, 2);
    }
  }

  lemma Pow10Values()
    ensures Pow10(2) == 100 && Pow10(4) == 10_000
  {
    assert Pow10(1) == 10;
    assert Pow10(3) == 1000;
  }

  lemma FieldOrder(a: nat, b: nat, width: nat, sep: string, x: string, y: string)
    requires width > 0 && a < Pow10(width) && b < Pow10(width) && |sep| == 1
    ensures Lex.Less(Padded(a, width) + (sep + x), Padded(b, width) + (sep + y)) <==>
            a < b || (a == b && Lex.Less(x, y))
  {
    PaddedOrder(a, b, width);
    PaddedOrder(b, a, width);
    Lex.LessConcat(Padded(a, width), sep + x, Padded(b, width), sep + y);
    Lex.LessConcat(sep, x, sep, y);
    Lex.LessIrreflexive(sep);
    Lex.LessIrreflexive(Padded(a, width));
    Lex.LessTotal(Padded(a, width), Padded(b, width));
  }

  predicate YearHasFourDigits(p: Parts) {
    0 <= p.year <= 9999
  }

  lemma IsoTimeOrder(p: Parts, q: Parts)
    requires Valid(p) && Valid(q)
    ensures Lex.Less(IsoTime(p), IsoTime(q)) <==>
            if p.hour != q.hour then p.hour < q.hour
            else if p.minute != q.minute then p.minute < q.minute
            else p.second < q.second
  {
    Pow10Values();
    var ps, qs := Padded(p.second, 2) + ("Z" + ""), Padded(q.second, 2) + ("Z" + "");
    var pm, qm := Padded(p.minute, 2) + (":" + ps), Padded(q.minute, 2) + (":" + qs);
    FieldOrder(p.second, q.second, 2, "Z", "", "");
    FieldOrder(p.minute, q.minute, 2, ":", ps, qs);
    FieldOrder(p.hour, q.hour, 2, ":", pm, qm);
  }

  lemma IsoDateOrder(p: Parts, q: Parts)
    requires Valid(p) && Valid(q) && YearHasFourDigits(p) && YearHasFourDigits(q)
    ensures Lex.Less(IsoOf(p), IsoOf(q)) <==> Before(p, q)
  {
    Pow10Values();
    var pt, qt := IsoTime(p), IsoTime(q);
    var pd, qd := Padded(p.day, 2) + ("T" + pt), Padded(q.day, 2) + ("T" + qt);
    var pm, qm := Padded(p.month, 2) + ("-" + pd), Padded(q.month, 2) + ("-" + qd);
    IsoTimeOrder(p, q);
    FieldOrder(p.day, q.day, 2, "T", pt, qt);
    FieldOrder(p.month, q.month, 2, "-", pd, qd);
    FieldOrder(p.year, q.year, 4, "-", pm, qm);
  }

  /** Timestamps of the years 0000 to 9999 sort as strings exactly as the instants do. */
  lemma IsoOrder(ms: int, ms': int)
    requires YearHasFourDigits(UtcParts(ms)) && YearHasFourDigits(UtcParts(ms'))
    ensures Lex.Less(IsoUtc(ms), IsoUtc(ms')) <==> ms / 1000 < ms' / 1000
    ensures IsoUtc(ms) == IsoUtc(ms') <==> ms / 1000 == ms' / 1000
  {
    UtcPartsIsRight(ms);
    UtcPartsIsRight(ms');
    var p, q := UtcParts(ms), UtcParts(ms');
    IsoDateOrder(p, q);
    IsoDateOrder(q, p);
    Lex.LessIrreflexive(IsoUtc(ms));
    if Before(p, q) {
      SecondsInOrder(p, q);
    } else if p != q {
      assert Before(q, p);
      SecondsInOrder(q, p);
    }
  }

  /** Five-digit years break the order: the last second of 9999 sorts after the next one. */
  lemma IsoOrderEndsWithYear9999()
    ensures UtcParts(253_402_300_799_000).year == 9999
    ensures Lex.Less(IsoUtc(253_402_300_800_000), IsoUtc(253_402_300_799_000))
  {
    var last, next := Parts(9999, 12, 31, 23, 59, 59), Parts(10_000, 1, 1, 0, 0, 0);
    EndOfYear9999();
    UtcPartsIsUnique(253_402_300_799_000, last);
    UtcPartsIsUnique(253_402_300_800_000, next);
    LeadingDigits();
    assert IsoOf(last)[0] == Padded(9999, 4)[..1][0] && IsoOf(next)[0] == Padded(10_000, 4)[..1][0];
  }

  lemma EndOfYear9999()
    ensures DayNumber(9999, 12, 31) == 2_932_896
    ensures DayNumber(10_000, 1, 1) == 2_932_897
  {
    DaysToYearClosed(9999);
    LeapsStep(9999);
    MonthFromMarch(9999, 9);
    assert DaysToMonth(9999, 1) == 0;
    assert DaysToMonth(9999, 2) == 31;
    assert DaysToMonth(9999, 3) == 59;
  }

  lemma LeadingDigits()
    ensures Padded(9999, 4)[..1] == "9" && Padded(10_000, 4)[..1] == "1"
  {
    assert Decimal(99) == "99" && Decimal(999) == "999" && Decimal(9999) == "9999";
    assert Decimal(10) == "10" && Decimal(100) == "100" && Decimal(1000) == "1000" && Decimal(10_000) == "10000";
  }
}
