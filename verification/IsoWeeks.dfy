/** Calendar weeks: day ordinals, ISO week numbers (ISO 8601:2004, section 4.1.4) and week parity. */
module IsoWeeks {
  /** Days counted from 1 for 1 January of year 1, a Monday. */
  type Date = nat

  function DaysBefore(year: nat): nat
    requires year >= 1
  {
    var y := year - 1;
    365 * y + y / 4 - y / 100 + y / 400
  }

  lemma QuotientStep(n: nat, k: nat)
    requires k > 0
    ensures (n + 1) / k == n / k + (if (n + 1) % k == 0 then 1 else 0)
  {
    var q, r := n / k, n % k;
    assert n == k * q + r;
    if r + 1 < k {
      QuotientIs(n + 1, k, q, r + 1);
    } else {
      assert n + 1 == k * (q + 1);
      QuotientIs(n + 1, k, q + 1, 0);
    }
  }

  lemma QuotientIs(n: nat, k: nat, q: nat, r: nat)
    requires k > 0 && n == k * q + r && r < k
    ensures n / k == q && n % k == r
  {
    assert k * (n / k - q) == r - n % k;
    MultipleIsFar(k, n / k - q);
  }

  lemma MultipleIsFar(k: int, d: int)
    requires k > 0
    ensures d >= 1 ==> k * d >= k
    ensures d <= -1 ==> k * d <= -k
  {
  }

  lemma MultipleOfMultiple(n: nat)
    ensures n % 400 == 0 ==> n % 100 == 0
    ensures n % 100 == 0 ==> n % 4 == 0
  {
    if n % 400 == 0 {
      assert n == 100 * (4 * (n / 400));
    }
    if n % 100 == 0 {
      assert n == 4 * (25 * (n / 100));
    }
  }

  lemma YearLength(year: nat)
    requires year >= 1
    ensures 365 <= DaysBefore(year + 1) - DaysBefore(year) <= 366
  {
    QuotientStep(year - 1, 4);
    QuotientStep(year - 1, 100);
    QuotientStep(year - 1, 400);
    MultipleOfMultiple(year);
  }

  predicate IsLeap(year: nat) {
    year % 4 == 0 && (year % 100 == 0 ==> year % 400 == 0)
  }

  lemma LeapYearsAreLonger(year: nat)
    requires year >= 1
    ensures DaysBefore(year + 1) - DaysBefore(year) == if IsLeap(year) then 366 else 365
  {
    QuotientStep(year - 1, 4);
    QuotientStep(year - 1, 100);
    QuotientStep(year - 1, 400);
    MultipleOfMultiple(year);
  }

  predicate IsIn(date: Date, year: nat) {
    year >= 1 && DaysBefore(year) < date <= DaysBefore(year + 1)
  }

  function YearFrom(date: Date, year: nat): (y: nat)
    requires year >= 1 && DaysBefore(year) < date
    ensures IsIn(date, y)
    decreases date - DaysBefore(year)
  {
    YearLength(year);
    if date <= DaysBefore(year + 1) then year else YearFrom(date, year + 1)
  }

  function YearOf(date: Date): (y: nat)
    requires date >= 1
    ensures IsIn(date, y)
  {
    YearFrom(date, 1)
  }

  lemma {:induction false} LaterYearsStartLater(a: nat, b: nat)
    requires 1 <= a <= b
    ensures DaysBefore(a) <= DaysBefore(b)
    decreases b - a
  {
    if a < b {
      YearLength(a);
      LaterYearsStartLater(a + 1, b);
    }
  }

  lemma YearsDoNotOverlap(a: nat, b: nat)
    requires a >= 1 && b >= 1
    ensures a < b ==> DaysBefore(a + 1) <= DaysBefore(b)
  {
    if a < b {
      LaterYearsStartLater(a + 1, b);
    }
  }

  lemma YearIsUnique(date: Date, a: nat, b: nat)
    requires IsIn(date, a) && IsIn(date, b)
    ensures a == b
  {
    YearsDoNotOverlap(a, b);
    YearsDoNotOverlap(b, a);
  }

  /** `date.weekday()`: Monday is 0. */
  function Weekday(date: Date): (w: nat)
    requires date >= 1
    ensures w < 7
  {
    (date + 6) % 7
  }

  function Monday(date: Date): (m: Date)
    requires date >= 1
    ensures 1 <= m <= date < m + 7 && Weekday(m) == 0
  {
    date - Weekday(date)
  }

  /** `isocalendar()[1]`: counted in the year that owns the week's Thursday. */
  function WeekNumber(date: Date): nat
    requires date >= 1
  {
    WeekOfThursday(Monday(date) + 3)
  }

  function WeekOfThursday(thursday: Date): nat
    requires thursday >= 1
  {
    WeekOfYear(thursday, DaysBefore(YearOf(thursday)))
  }

  function WeekOfYear(thursday: Date, before: nat): nat
    requires before < thursday
  {
    (thursday - before - 1) / 7 + 1
  }

  lemma SameWeekSameMonday(a: Date, b: Date)
    requires a >= 1 && b >= 1
    ensures Monday(a) == Monday(b) <==> Monday(a) <= b < Monday(a) + 7
  {
  }

  lemma SameWeekSameNumber(a: Date, b: Date)
    requires a >= 1 && b >= 1 && Monday(a) == Monday(b)
    ensures WeekNumber(a) == WeekNumber(b)
  {
  }

  lemma NextMonday(date: Date)
    requires date >= 1
    ensures Monday(date + 7) == Monday(date) + 7
  {
  }

  /** Week 1 is the week of 4 January. */
  lemma FourthOfJanuaryIsInWeekOne(year: nat)
    requires year >= 1
    ensures WeekNumber(DaysBefore(year) + 4) == 1
  {
    var thursday := Monday(DaysBefore(year) + 4) + 3;
    YearLength(year);
    YearIsUnique(thursday, year, YearOf(thursday));
    FirstThursday(thursday, DaysBefore(year));
  }

  lemma FirstThursday(thursday: Date, before: nat)
    requires before < thursday <= before + 7
    ensures WeekOfYear(thursday, before) == 1
  {
  }

  /** A year has a week 53 exactly when it begins on a Thursday, or is leap and begins on a Wednesday. */
  lemma LongYearsExactlyWhen(year: nat)
    requires year >= 1
    ensures var january1, december28 := DaysBefore(year) + 1, DaysBefore(year + 1) - 3;
      && december28 >= 1
      && (WeekNumber(december28) == 53 <==> Weekday(january1) == 3 || (IsLeap(year) && Weekday(january1) == 2))
  {
    LeapYearsAreLonger(year);
    var before, after := DaysBefore(year), DaysBefore(year + 1);
    var thursday := Monday(after - 3) + 3;
    YearIsUnique(thursday, year, YearOf(thursday));
    LastThursday(thursday, before, after - before);
  }

  lemma LastThursday(thursday: Date, before: nat, length: nat)
    requires 365 <= length <= 366 && before + length - 7 < thursday <= before + length
    requires Weekday(thursday) == 3
    ensures WeekOfYear(thursday, before) == 53
      <==> Weekday(before + 1) == 3 || (length == 366 && Weekday(before + 1) == 2)
  {
  }

  lemma WeekWithinYear(thursday: Date, before: nat)
    requires before < thursday && thursday + 7 <= before + 366
    ensures WeekOfYear(thursday + 7, before) == WeekOfYear(thursday, before) + 1
    ensures WeekOfYear(thursday, before) < 53
  {
  }

  lemma LastWeekOfYear(thursday: Date, before: nat, length: nat)
    requires 365 <= length <= 366 && before < thursday <= before + length < thursday + 7
    ensures 52 <= WeekOfYear(thursday, before) <= 53
    ensures WeekOfYear(thursday + 7, before + length) == 1
  {
  }

  predicate Follows(week: nat, next: nat) {
    (next == week + 1 && week < 53) || (next == 1 && 52 <= week <= 53)
  }

  /** One week on: the next number, or week 1 after the last week of the year, which is 52 or 53. */
  lemma NextWeek(date: Date)
    requires date >= 1
    ensures Follows(WeekNumber(date), WeekNumber(date + 7))
  {
    NextMonday(date);
    NextThursday(Monday(date) + 3);
  }

  lemma YearSevenDaysOn(thursday: Date)
    requires thursday >= 1
    ensures var year := YearOf(thursday);
      YearOf(thursday + 7) == if thursday + 7 <= DaysBefore(year + 1) then year else year + 1
  {
    var year := YearOf(thursday);
    if thursday + 7 <= DaysBefore(year + 1) {
      YearIsUnique(thursday + 7, year, YearOf(thursday + 7));
    } else {
      YearLength(year + 1);
      YearIsUnique(thursday + 7, year + 1, YearOf(thursday + 7));
    }
  }

  lemma NextThursday(thursday: Date)
    requires thursday >= 1
    ensures Follows(WeekOfThursday(thursday), WeekOfThursday(thursday + 7))
  {
    var year := YearOf(thursday);
    YearLength(year);
    YearSevenDaysOn(thursday);
    WeekFollows(thursday, DaysBefore(year), DaysBefore(year + 1));
  }

  lemma WeekFollows(thursday: Date, before: nat, after: nat)
    requires before < thursday <= after && before + 365 <= after <= before + 366
    ensures thursday + 7 <= after ==> Follows(WeekOfYear(thursday, before), WeekOfYear(thursday + 7, before))
    ensures thursday + 7 > after ==> Follows(WeekOfYear(thursday, before), WeekOfYear(thursday + 7, after))
  {
    if thursday + 7 <= after {
      WeekWithinYear(thursday, before);
    } else {
      LastWeekOfYear(thursday, before, after - before);
    }
  }

  lemma ParityFlips(week: nat, next: nat)
    requires Follows(week, next)
    ensures next % 2 != week % 2 <==> week != 53
  {
  }

  /** The parity of the week number changes from one week to the next except exactly when leaving a week 53. */
  lemma ParityFlipsExceptAfterWeek53(date: Date)
    requires date >= 1
    ensures WeekNumber(date + 7) % 2 != WeekNumber(date) % 2 <==> WeekNumber(date) != 53
  {
    NextWeek(date);
    ParityFlips(WeekNumber(date), WeekNumber(date + 7));
  }
}
