/** The three ways the code base computes an installment's due date. */
module DueDates {
  import opened Calendar
  import opened Entities

  /** Months since year 0, so that consecutive calendar months differ by one. */
  function MonthIndex(d: DateTime): int {
    d.year * 12 + d.month - 1
  }

  /** Newest copy: installment `n` (numbered from 1) falls on the last day of the month that is
      `n - 1` months after `startMonth` of `startYear`, at midnight. `startMonth` may exceed 12
      (the schedule passes the starting billing month plus one); Python's `divmod` by 12 equals
      Dafny's Euclidean `/` and `%` for a positive divisor. The base date is not used. */
  function CalculateDueDate(n: int, startYear: int, startMonth: int): (d: DateTime)
    ensures Valid(d)
    ensures d.day == DaysInMonth(d.year, d.month) && d.second == 0
    ensures (d.year - startYear) * 12 + d.month == startMonth + n - 1
  {
    var totalMonths := startMonth - 1 + (n - 1);
    var month := totalMonths % 12 + 1;
    var year := startYear + totalMonths / 12;
    DateTime(year, month, DaysInMonth(year, month), 0)
  }

  /** Installment 1 lands in the start month itself. */
  lemma FirstInstallmentInStartMonth(startYear: int, startMonth: int)
    requires 1 <= startMonth <= 12
    ensures CalculateDueDate(1, startYear, startMonth).month == startMonth
    ensures CalculateDueDate(1, startYear, startMonth).year == startYear
  {
    var d := CalculateDueDate(1, startYear, startMonth);
    assert (d.year - startYear) * 12 + d.month == startMonth;
  }

  /** Installment `n + 1` is due exactly one calendar month after installment `n`. */
  lemma ConsecutiveDueDates(n: int, startYear: int, startMonth: int)
    ensures MonthIndex(CalculateDueDate(n + 1, startYear, startMonth))
         == MonthIndex(CalculateDueDate(n, startYear, startMonth)) + 1
  {
  }

  /** As the schedule calls it (start month = starting billing month + 1): installment `i` is due
      `i` months after the starting billing month, and a December start rolls into January. */
  lemma ScheduleMonthsAfterBilling(i: int, billingYear: int, billingMonth: int)
    requires 1 <= billingMonth <= 12
    ensures MonthIndex(CalculateDueDate(i, billingYear, billingMonth + 1))
         == billingYear * 12 + billingMonth - 1 + i
    ensures billingMonth == 12 ==>
              CalculateDueDate(1, billingYear, billingMonth + 1).month == 1
              && CalculateDueDate(1, billingYear, billingMonth + 1).year == billingYear + 1
  {
    var d := CalculateDueDate(1, billingYear, billingMonth + 1);
    if billingMonth == 12 {
      assert (d.year - billingYear) * 12 + d.month == 13;
    }
  }

  /** Older copies, as written: `base_date.replace(year=…, month=…, day=base_date.day)`. The month is
      `n` months after `startMonth`; the day and time of the base date are kept, and `replace`
      raises ValueError when the new month has no such day. */
  function CalculateDueDateKeepingDay(base: DateTime, n: int, startMonth: int): (r: Result<DateTime>)
    requires Valid(base)
    ensures r.Err? ==> r.error == InvalidDate
  {
    var total := startMonth - 1 + n;
    var month := total % 12 % 12 + 1;
    var year := base.year + total / 12;
    if base.day <= DaysInMonth(year, month) then Ok(DateTime(year, month, base.day, base.second))
    else Err(InvalidDate)
  }

  /** The older due date is `n` months after `startMonth`, on the base date's day and time, and it
      exists exactly when the target month has that day. */
  lemma KeepingDayFacts(base: DateTime, n: int, startMonth: int)
    requires Valid(base)
    ensures var r := CalculateDueDateKeepingDay(base, n, startMonth);
            && (r.Ok? <==> base.day <= DaysInMonth(base.year + (startMonth - 1 + n) / 12, (startMonth - 1 + n) % 12 + 1))
            && (r.Ok? ==> Valid(r.value) && r.value.day == base.day && r.value.second == base.second
                          && (r.value.year - base.year) * 12 + r.value.month == startMonth + n)
  {
  }

  /** An example: a horse created on 31 January 2024 whose billing starts in January: the first installment
      would fall on 31 February, so the older schedule raises instead of producing a date. */
  lemma KeepingDayFailsOnMonthEnd()
    ensures CalculateDueDateKeepingDay(DateTime(2024, 1, 31, 0), 1, 1) == Err(InvalidDate)
  {
  }

  /** The evident intent of the older copies: the same month arithmetic, with the day clamped to the
      length of the target month. */
  function CalculateDueDateClamped(base: DateTime, n: int, startMonth: int): (d: DateTime)
    requires Valid(base)
    ensures Valid(d) && d.second == base.second
    ensures (d.year - base.year) * 12 + d.month == startMonth + n
    ensures d.day == if base.day <= DaysInMonth(d.year, d.month) then base.day else DaysInMonth(d.year, d.month)
  {
    var total := startMonth - 1 + n;
    var month := total % 12 + 1;
    var year := base.year + total / 12;
    var last := DaysInMonth(year, month);
    DateTime(year, month, if base.day <= last then base.day else last, base.second)
  }

  /** The clamped date agrees with the older code whenever that code returns a date, and it never fails. */
  lemma ClampedAgreesWhereDefined(base: DateTime, n: int, startMonth: int)
    requires Valid(base)
    ensures CalculateDueDateKeepingDay(base, n, startMonth).Ok? ==>
              CalculateDueDateKeepingDay(base, n, startMonth).value == CalculateDueDateClamped(base, n, startMonth)
  {
  }

  /** Oldest copy: `base_date + timedelta(days=installment_number * 30)`. */
  function CalculateDueDateThirtyDays(base: DateTime, n: nat): (d: DateTime)
    requires Valid(base)
    ensures Valid(d) && d.second == base.second
    ensures n > 0 ==> Before(base, d)
  {
    if n > 0 then AddDaysLater(base, 30 * n); AddDays(base, 30 * n)
    else base
  }

  /** Installment `n + 1` is due exactly thirty days after installment `n`. */
  lemma ThirtyDaysApart(base: DateTime, n: nat)
    requires Valid(base)
    ensures CalculateDueDateThirtyDays(base, n + 1) == AddDays(CalculateDueDateThirtyDays(base, n), 30)
  {
    AddDaysSplit(base, 30 * n, 30);
  }
}
