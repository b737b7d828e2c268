/** Calendar periods: the previous-month rollover of the dashboard, the
    single-wrap shift of the trailing breakdown, and the overdue rule of the
    reminder service. Today's date is always a parameter. */
module Periods {

  /** A calendar date as `new Date()` reports it: day of month, 1-based month, year. */
  datatype Date = Date(day: int, month: int, year: int)

  /** Counts months from month 1 of year 0, so that periods compare chronologically. */
  function MonthIndex(month: int, year: int): int {
    12 * year + (month - 1)
  }

  /** The period before (month, year): month - 1, and when that reaches 0,
      month 12 of the year before. */
  function PreviousPeriod(month: int, year: int): (r: (int, int))
    ensures 1 <= month <= 12 ==> 1 <= r.0 <= 12
    ensures MonthIndex(r.0, r.1) == MonthIndex(month, year) - 1
  {
    var prevMonth := month - 1;
    if prevMonth == 0 then (12, year - 1) else (prevMonth, year)
  }

  /** January rolls back to December of the year before; any later month
      steps back within its year. */
  lemma PreviousPeriodRollover(month: int, year: int)
    requires 1 <= month <= 12
    ensures month == 1 ==> PreviousPeriod(month, year) == (12, year - 1)
    ensures month > 1 ==> PreviousPeriod(month, year) == (month - 1, year)
  {
  }

  /** Entry `i` of the trailing breakdown: `i` months back from (month, year),
      with the year wrapped at most once. */
  function ShiftBack(month: int, year: int, i: int): (r: (int, int))
    ensures MonthIndex(r.0, r.1) == MonthIndex(month, year) - i
  {
    var m := month - i;
    if m <= 0 then (m + 12, year - 1) else (m, year)
  }

  /** A single wrap gives a real month exactly for the first `month + 12`
      entries; from there on the month field is 0 or negative. */
  lemma ShiftBackInRange(month: int, year: int, i: int)
    requires 1 <= month <= 12 && 0 <= i
    ensures 1 <= ShiftBack(month, year, i).0 <= 12 <==> i < month + 12
    ensures i < month + 12 ==> ShiftBack(month, year, i).1 == (if i < month then year else year - 1)
  {
  }

  /** Shifting back by one month is the dashboard's previous month. */
  lemma ShiftBackOneIsPrevious(month: int, year: int)
    requires 1 <= month <= 12
    ensures ShiftBack(month, year, 1) == PreviousPeriod(month, year)
    ensures ShiftBack(month, year, 0) == (month, year)
  {
  }

  /** JavaScript's `feeDueDate || 10`: a zero due day falls back to the 10th. */
  function DueDayOr10(feeDueDate: int): int {
    if feeDueDate == 0 then 10 else feeDueDate
  }

  /** A past period is always overdue, the current period once the due day
      has passed, a future period never. */
  predicate IsOverdue(feeDueDate: int, month: int, year: int, today: Date) {
    if year < today.year || (year == today.year && month < today.month) then true
    else if year == today.year && month == today.month then today.day > DueDayOr10(feeDueDate)
    else false
  }

  /** The overdue rule stated on the chronological order of periods. */
  lemma IsOverdueChronological(feeDueDate: int, month: int, year: int, today: Date)
    requires 1 <= month <= 12 && 1 <= today.month <= 12
    ensures IsOverdue(feeDueDate, month, year, today) <==>
      MonthIndex(month, year) < MonthIndex(today.month, today.year) ||
      (MonthIndex(month, year) == MonthIndex(today.month, today.year) && today.day > DueDayOr10(feeDueDate))
  {
    if year < today.year {
      assert MonthIndex(month, year) <= 12 * (today.year - 1) + 11;
    } else if year > today.year {
      assert MonthIndex(month, year) >= 12 * (today.year + 1);
    }
  }
}
