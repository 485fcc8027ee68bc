/** Proleptic Gregorian calendar arithmetic: the parts of Python's `calendar.monthrange`,
    `datetime` comparison and `datetime + timedelta(days=n)` that the accounting code uses. */
module Calendar {

  predicate IsLeap(y: int) {
    y % 4 == 0 && (y % 100 != 0 || y % 400 == 0)
  }

  /** Number of days of month `m` in year `y` (the second component of `calendar.monthrange`). */
  function DaysInMonth(y: int, m: int): (d: int)
    requires 1 <= m <= 12
    ensures 28 <= d <= 31
    ensures m == 2 ==> (d == 29 <==> IsLeap(y)) && (d == 28 <==> !IsLeap(y))
    ensures m != 2 ==> (d == 30 <==> (m == 4 || m == 6 || m == 9 || m == 11))
  {
    if m == 2 then (if IsLeap(y) then 29 else 28)
    else if m == 4 || m == 6 || m == 9 || m == 11 then 30
    else 31
  }

  /** A naive `datetime`: calendar date plus the second of the day (sub-second precision is not modelled). */
  datatype DateTime = DateTime(year: int, month: int, day: int, second: int)

  predicate Valid(t: DateTime) {
    1 <= t.month <= 12 && 1 <= t.day <= DaysInMonth(t.year, t.month) && 0 <= t.second < 86400
  }

  /** Python's `a < b` on datetimes: lexicographic on (year, month, day, time). */
  predicate Before(a: DateTime, b: DateTime) {
    a.year < b.year
    || (a.year == b.year && a.month < b.month)
    || (a.year == b.year && a.month == b.month && a.day < b.day)
    || (a.year == b.year && a.month == b.month && a.day == b.day && a.second < b.second)
  }

  /** Same instant of the following day. */
  function NextDay(t: DateTime): (r: DateTime)
    requires Valid(t)
    ensures Valid(r) && Before(t, r) && r.second == t.second
  {
    if t.day < DaysInMonth(t.year, t.month) then t.(day := t.day + 1)
    else if t.month < 12 then t.(month := t.month + 1, day := 1)
    else DateTime(t.year + 1, 1, 1, t.second)
  }

  /** `t + timedelta(days=n)`. */
  function AddDays(t: DateTime, n: nat): (r: DateTime)
    requires Valid(t)
    ensures Valid(r) && r.second == t.second
    decreases n
  {
    if n == 0 then t else AddDays(NextDay(t), n - 1)
  }

  lemma BeforeTransitive(a: DateTime, b: DateTime, c: DateTime)
    requires Before(a, b) && Before(b, c)
    ensures Before(a, c)
  {
  }

  /** Adding a positive number of days moves strictly forward in time. */
  lemma {:induction false} AddDaysLater(t: DateTime, n: nat)
    requires Valid(t) && n > 0
    ensures Before(t, AddDays(t, n))
    decreases n
  {
    if n > 1 {
      AddDaysLater(NextDay(t), n - 1);
      BeforeTransitive(t, NextDay(t), AddDays(NextDay(t), n - 1));
    }
  }

  /** `(t + a days) + b days == t + (a + b) days`. */
  lemma {:induction false} AddDaysSplit(t: DateTime, a: nat, b: nat)
    requires Valid(t)
    ensures AddDays(AddDays(t, a), b) == AddDays(t, a + b)
    decreases a
  {
    if a > 0 {
      AddDaysSplit(NextDay(t), a - 1, b);
    }
  }
}
