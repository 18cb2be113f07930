/** The proleptic Gregorian calendar of `datetime`: which datetimes there are, and the instant that each one names. */
module Calendar {
  import opened IsoTime

  predicate Leap(year: nat)
  {
    year % 4 == 0 && (year % 100 != 0 || year % 400 == 0)
  }

  function MonthLength(year: nat, month: nat): (days: nat)
    ensures 28 <= days <= 31
  {
    if month == 2 then if Leap(year) then 29 else 28
    else if month == 4 || month == 6 || month == 9 || month == 11 then 30
    else 31
  }

  /** The days of a common year before the first of each month, and before the next year. */
  const DAYS_BEFORE_MONTH: seq<nat> := [0, 31, 59, 90, 120, 151, 181, 212, 243, 273, 304, 334, 365]

  /** The days of a year before the first of a month; month 13 stands for the end of the year. */
  function DaysBeforeMonth(year: nat, month: nat): nat
    requires 1 <= month <= 13
  {
    DAYS_BEFORE_MONTH[month - 1] + if month > 2 && Leap(year) then 1 else 0
  }

  /** The table counts the days of the months one after the other. */
  lemma NextMonth(year: nat, month: nat)
    requires 1 <= month <= 12
    ensures DaysBeforeMonth(year, month + 1) == DaysBeforeMonth(year, month) + MonthLength(year, month)
  {
  }

  /** The leap days of the years up to this one: one every 4 years, but not every 100, but every 400. */
  function LeapDays(year: nat): int
  {
    year / 4 - year / 100 + year / 400
  }

  /** The days before the first of January. */
  function DaysBeforeYear(year: nat): int
    requires 1 <= year
  {
    (year - 1) * 365 + LeapDays(year - 1)
  }

  lemma NextQuotients(n: nat)
    ensures (n + 1) / 4 == n / 4 + if (n + 1) % 4 == 0 then 1 else 0
    ensures (n + 1) / 100 == n / 100 + if (n + 1) % 100 == 0 then 1 else 0
    ensures (n + 1) / 400 == n / 400 + if (n + 1) % 400 == 0 then 1 else 0
  {
  }

  lemma DivisorsNest(n: nat)
    ensures n % 400 == 0 ==> n % 100 == 0
    ensures n % 100 == 0 ==> n % 4 == 0
  {
    if n % 400 == 0 {
      assert n == 100 * (4 * (n / 400));
    }
    if n % 100 == 0 {
      assert n == 4 * (25 * (n / 100));
    }
  }

  /** A year is a leap year when 400 divides it, or 4 does and 100 does not; the months have their well-known lengths. */
  lemma MonthLengths(year: nat, month: nat)
    requires 1 <= month <= 12
    ensures Leap(year) <==> year % 400 == 0 || (year % 4 == 0 && year % 100 != 0)
    ensures MonthLength(year, month) == [31, if Leap(year) then 29 else 28, 31, 30, 31, 30, 31, 31, 30, 31, 30, 31][month - 1]
  {
    LeapYears(year);
    LengthOfMonth(year, month);
    hide *;
  }

  lemma LeapYears(year: nat)
    ensures Leap(year) <==> year % 400 == 0 || (year % 4 == 0 && year % 100 != 0)
  {
    DivisorsNest(year);
  }

  lemma LengthOfMonth(year: nat, month: nat)
    requires 1 <= month <= 12
    ensures MonthLength(year, month) == [31, if Leap(year) then 29 else 28, 31, 30, 31, 30, 31, 31, 30, 31, 30, 31][month - 1]
  {
    hide Leap;
  }

  lemma NextLeapDays(n: nat)
    ensures LeapDays(n + 1) == LeapDays(n) + if Leap(n + 1) then 1 else 0
  {
    NextQuotients(n);
    DivisorsNest(n + 1);
  }

  /** The closed form counts the days of the years one after the other. */
  lemma NextYear(year: nat)
    requires 1 <= year
    ensures DaysBeforeYear(year + 1) == DaysBeforeYear(year) + DaysBeforeMonth(year, 13)
  {
    hide LeapDays, Leap;
    NextLeapDays(year - 1);
  }

  lemma {:induction false} YearsAccumulate(y: nat, z: nat)
    requires 1 <= y < z
    ensures DaysBeforeYear(y) + DaysBeforeMonth(y, 13) <= DaysBeforeYear(z)
  {
    hide DaysBeforeYear, Leap;
    NextYear(z - 1);
    if y < z - 1 {
      YearsAccumulate(y, z - 1);
    }
  }

  lemma YearsCount(year: nat)
    requires 1 <= year
    ensures DaysBeforeYear(year) >= 0
  {
    if year > 1 {
      YearsAccumulate(1, year);
    }
  }

  /** The datetimes there are: no month has more days than its length. */
  predicate IsDatetime(s: Stamp)
  {
    InRange(s) && s.day <= MonthLength(s.year, s.month)
  }

  /** `toordinal()`: 1 for the first of January of year 1. */
  function Ordinal(s: Stamp): (ordinal: nat)
    requires InRange(s)
    ensures ordinal > 0
  {
    YearsCount(s.year);
    DaysBeforeYear(s.year) + DaysBeforeMonth(s.year, s.month) + s.day
  }

  /** One day, in microseconds. */
  const DAY := 24 * 60 * 60 * 1_000_000

  /** The time of day, in microseconds. */
  function TimeOfDay(s: Stamp): (micros: nat)
    requires InRange(s)
    ensures micros < DAY
  {
    ((s.hour * 60 + s.minute) * 60 + s.second) * 1_000_000 + s.micro
  }

  /** The instant of a UTC datetime, in microseconds. */
  function Instant(s: Stamp): nat
    requires InRange(s)
  {
    Ordinal(s) * DAY + TimeOfDay(s)
  }

  // ----- later datetimes are later instants -----

  lemma {:induction false} MonthsAccumulate(year: nat, m: nat, n: nat)
    requires 1 <= m < n <= 13
    ensures DaysBeforeMonth(year, m) + MonthLength(year, m) <= DaysBeforeMonth(year, n)
  {
    NextMonth(year, n - 1);
    if m < n - 1 {
      MonthsAccumulate(year, m, n - 1);
    }
  }

  /** Every date lies within its year. */
  lemma WithinYear(s: Stamp)
    requires IsDatetime(s)
    ensures DaysBeforeYear(s.year) < Ordinal(s) <= DaysBeforeYear(s.year) + DaysBeforeMonth(s.year, 13)
  {
    MonthsAccumulate(s.year, s.month, 13);
  }

  predicate EarlierDate(a: Stamp, b: Stamp)
  {
    a.year < b.year || (a.year == b.year && (a.month < b.month || (a.month == b.month && a.day < b.day)))
  }

  lemma DateOrder(a: Stamp, b: Stamp)
    requires IsDatetime(a) && IsDatetime(b) && EarlierDate(a, b)
    ensures Ordinal(a) < Ordinal(b)
  {
    if a.year < b.year {
      WithinYear(a);
      WithinYear(b);
      YearsAccumulate(a.year, b.year);
    } else if a.month < b.month {
      MonthsAccumulate(a.year, a.month, b.month);
    }
  }

  lemma TimeOrder(a: Stamp, b: Stamp)
    requires InRange(a) && InRange(b) && !EarlierDate(a, b) && !EarlierDate(b, a)
    ensures Earlier(a, b) <==> TimeOfDay(a) < TimeOfDay(b)
  {
  }

  lemma DayThenTime(m: nat, n: nat, x: nat, y: nat)
    requires x < DAY && y < DAY && m < n
    ensures m * DAY + x < n * DAY + y
  {
    assert (m + 1) * DAY <= n * DAY;
  }

  /** The order of the fields is the order of the instants. */
  lemma InstantOrder(a: Stamp, b: Stamp)
    requires IsDatetime(a) && IsDatetime(b)
    ensures Earlier(a, b) <==> Instant(a) < Instant(b)
  {
    if EarlierDate(a, b) {
      DateOrder(a, b);
      DayThenTime(Ordinal(a), Ordinal(b), TimeOfDay(a), TimeOfDay(b));
    } else if EarlierDate(b, a) {
      DateOrder(b, a);
      DayThenTime(Ordinal(b), Ordinal(a), TimeOfDay(b), TimeOfDay(a));
    } else {
      assert Ordinal(a) == Ordinal(b);
      TimeOrder(a, b);
    }
  }

  // ----- every instant from year 1 to year 9999 is that of a datetime -----

  predicate InCalendar(instant: int)
  {
    DAY <= instant < (DaysBeforeYear(10000) + 1) * DAY
  }

  /** The next day: in the same month, else the first of the next month, else of the next year. */
  function DayAfter(s: Stamp): Stamp
    requires IsDatetime(s)
  {
    if s.day < MonthLength(s.year, s.month) then s.(day := s.day + 1)
    else if s.month < 12 then s.(month := s.month + 1, day := 1)
    else s.(year := s.year + 1, month := 1, day := 1)
  }

  lemma LastYear(year: nat)
    requires 1 <= year && DaysBeforeYear(year + 1) < DaysBeforeYear(10000)
    ensures year < 9999
  {
    if year + 1 > 10000 {
      YearsAccumulate(10000, year + 1);
    }
  }

  lemma DayAfterCounts(s: Stamp)
    requires IsDatetime(s) && Ordinal(s) < DaysBeforeYear(10000)
    ensures IsDatetime(DayAfter(s)) && Ordinal(DayAfter(s)) == Ordinal(s) + 1
  {
    assert DaysBeforeMonth(s.year, 1) == 0;
    NextMonth(s.year, s.month);
    if s.month == 12 && s.day == MonthLength(s.year, 12) {
      NextYear(s.year);
      LastYear(s.year);
    }
  }

  lemma {:induction false} DateAt(ordinal: nat) returns (s: Stamp)
    requires 1 <= ordinal <= DaysBeforeYear(10000)
    ensures IsDatetime(s) && Ordinal(s) == ordinal
  {
    hide DaysBeforeYear, Ordinal, IsDatetime, DayAfter;
    if ordinal == 1 {
      s := Stamp(1, 1, 1, 0, 0, 0, 0);
      FirstDay(s);
    } else {
      var before := DateAt(ordinal - 1);
      DayAfterCounts(before);
      s := DayAfter(before);
    }
  }

  /** The calendar starts on the first of January of year 1. */
  lemma FirstDay(s: Stamp)
    requires InRange(s) && s.year == 1 && s.month == 1 && s.day == 1
    ensures IsDatetime(s) && Ordinal(s) == 1
  {
    assert DaysBeforeYear(1) == 0 && DaysBeforeMonth(1, 1) == 0;
  }

  lemma TimeAt(date: Stamp, micros: nat) returns (s: Stamp)
    requires IsDatetime(date) && micros < DAY
    ensures IsDatetime(s) && Ordinal(s) == Ordinal(date) && TimeOfDay(s) == micros
  {
    var seconds := micros / 1_000_000;
    var minutes := seconds / 60;
    s := date.(hour := minutes / 60, minute := minutes % 60, second := seconds % 60, micro := micros % 1_000_000);
  }

  /** Between the first and the last datetime, time has no gaps. */
  lemma StampAt(instant: int) returns (s: Stamp)
    requires InCalendar(instant)
    ensures IsDatetime(s) && Instant(s) == instant
  {
    var ordinal, micros := instant / DAY, instant % DAY;
    assert instant == ordinal * DAY + micros;
    var date := DateAt(ordinal);
    s := TimeAt(date, micros);
  }
}
