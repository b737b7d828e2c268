/** The dashboard: this month's and last month's paid totals with the
    pending count, and the trailing month-by-month breakdown for the charts. */
module Dashboard {
  import opened Common
  import opened Periods
  import opened StudentModel
  import opened FeeModel
  import opened Sequences
  import opened WhatsAppService

  /** Only the current month carries `pendingCount`. */
  datatype CurrentMonthStats = CurrentMonthStats(month: int, year: int, totalFees: int, paidCount: nat, pendingCount: nat)

  datatype PreviousMonthStats = PreviousMonthStats(month: int, year: int, totalFees: int, paidCount: nat)

  datatype DashboardStats = DashboardStats(
    totalStudents: nat,
    currentMonth: CurrentMonthStats,
    previousMonth: PreviousMonthStats)

  function PaidTest(paidIds: set<StudentId>): Student -> bool {
    (s: Student) => s.id in paidIds
  }

  /** getDashboardStats: the active-student count; for today's period and
      the one before it, the paid records' total and number; and the active
      students with no paid record this period. */
  function GetDashboardStats(students: seq<Student>, fees: seq<FeePayment>, today: Date): (r: DashboardStats)
    ensures r.totalStudents == |ActiveStudents(students)|
    ensures r.currentMonth.month == today.month && r.currentMonth.year == today.year
    ensures (r.previousMonth.month, r.previousMonth.year) == PreviousPeriod(today.month, today.year)
    ensures r.currentMonth.paidCount == |PaidInPeriod(fees, today.month, today.year)|
    ensures r.previousMonth.paidCount == |PaidInPeriod(fees, r.previousMonth.month, r.previousMonth.year)|
    ensures r.currentMonth.totalFees == SumAmounts(PaidInPeriod(fees, today.month, today.year))
    ensures r.previousMonth.totalFees == SumAmounts(PaidInPeriod(fees, r.previousMonth.month, r.previousMonth.year))
    ensures r.currentMonth.pendingCount <= r.totalStudents
  {
    var currentMonth, currentYear := today.month, today.year;
    var totalStudents := |ActiveStudents(students)|;
    var currentMonthFees := PaidInPeriod(fees, currentMonth, currentYear);
    var (prevMonth, prevYear) := PreviousPeriod(currentMonth, currentYear);
    var prevMonthFees := PaidInPeriod(fees, prevMonth, prevYear);
    var paidStudentIds := PaidStudentIds(fees, currentMonth, currentYear);
    var pendingCount := |UnpaidStudents(ActiveStudents(students), paidStudentIds)|;
    DashboardStats(
      totalStudents,
      CurrentMonthStats(currentMonth, currentYear, SumAmounts(currentMonthFees), |currentMonthFees|, pendingCount),
      PreviousMonthStats(prevMonth, prevYear, SumAmounts(prevMonthFees), |prevMonthFees|))
  }

  /** Every active student is either pending or among this period's payers:
      pendingCount plus the active payers is the active-student count. */
  lemma PendingCountSplit(students: seq<Student>, fees: seq<FeePayment>, today: Date)
    ensures var r := GetDashboardStats(students, fees, today);
      var paidIds := PaidStudentIds(fees, today.month, today.year);
      r.currentMonth.pendingCount + Count(ActiveStudents(students), PaidTest(paidIds)) == r.totalStudents
  {
    var paidIds := PaidStudentIds(fees, today.month, today.year);
    CountSplit(ActiveStudents(students), NotPaid(paidIds), PaidTest(paidIds));
  }

  /** With valid records under the unique index, both totals are non-negative
      and each paid count is the number of distinct students who paid. */
  lemma StatsTotals(students: seq<Student>, fees: seq<FeePayment>, today: Date)
    requires forall i :: 0 <= i < |fees| ==> ValidFee(fees[i])
    requires UniquePeriods(fees)
    ensures var r := GetDashboardStats(students, fees, today);
      r.currentMonth.totalFees >= 0 && r.previousMonth.totalFees >= 0 &&
      r.currentMonth.paidCount == |PaidStudentIds(fees, today.month, today.year)| &&
      r.previousMonth.paidCount == |PaidStudentIds(fees, r.previousMonth.month, r.previousMonth.year)|
  {
    var (pm, py) := PreviousPeriod(today.month, today.year);
    var cur := PaidInPeriod(fees, today.month, today.year);
    var prev := PaidInPeriod(fees, pm, py);
    assert forall i :: 0 <= i < |cur| ==> cur[i] in fees;
    assert forall i :: 0 <= i < |prev| ==> prev[i] in fees;
    SumAmountsNonNegative(cur);
    SumAmountsNonNegative(prev);
    PaidCountIsStudentCount(fees, today.month, today.year);
    PaidCountIsStudentCount(fees, pm, py);
  }

  // ---------------------------------------------------------------------
  // Monthly breakdown
  // ---------------------------------------------------------------------

  /** One chart entry; the locale month name is not modelled. */
  datatype MonthlyEntry = MonthlyEntry(month: int, year: int, totalAmount: int, paidCount: nat)

  /** The `months` query: 6 when absent. */
  function MonthsRequested(months: Option<int>): int {
    match months
    case None => 6
    case Some(n) => n
  }

  /** The entry the loop computes for `i` months back. */
  function EntryFor(fees: seq<FeePayment>, today: Date, i: int): MonthlyEntry {
    var (month, year) := ShiftBack(today.month, today.year, i);
    var paid := PaidInPeriod(fees, month, year);
    MonthlyEntry(month, year, SumAmounts(paid), |paid|)
  }

  /** The breakdown after `reverse()`: position k holds the entry for
      `n - 1 - k` months back. */
  function Breakdown(fees: seq<FeePayment>, today: Date, n: nat): (r: seq<MonthlyEntry>)
    ensures |r| == n
  {
    seq(n, k requires 0 <= k < n => EntryFor(fees, today, n - 1 - k))
  }

  /** `Array.prototype.reverse`, in place. */
  method ReverseInPlace(a: array<MonthlyEntry>)
    modifies a
    ensures forall k :: 0 <= k < a.Length ==> a[k] == old(a[a.Length - 1 - k])
  {
    var lo, hi := 0, a.Length - 1;
    while lo < hi
      invariant 0 <= lo <= a.Length && -1 <= hi < a.Length && lo + hi == a.Length - 1
      invariant forall k :: 0 <= k < lo ==> a[k] == old(a[a.Length - 1 - k])
      invariant forall k :: hi < k < a.Length ==> a[k] == old(a[a.Length - 1 - k])
      invariant forall k :: lo <= k <= hi ==> a[k] == old(a[k])
    {
      a[lo], a[hi] := a[hi], a[lo];
      lo, hi := lo + 1, hi - 1;
    }
  }

  /** getMonthlyFeesBreakdown: for i from 0 below `months`, step back i
      months with a single year wrap, record that period's paid total and
      count, then reverse so the oldest entry comes first. */
  method GetMonthlyFeesBreakdown(fees: seq<FeePayment>, today: Date, months: Option<int>)
    returns (data: seq<MonthlyEntry>)
    ensures var n := MonthsRequested(months);
      data == Breakdown(fees, today, if n < 0 then 0 else n)
  {
    var n := MonthsRequested(months);
    var count := if n < 0 then 0 else n;
    var monthlyData := new MonthlyEntry[count];
    var i := 0;
    while i < count
      invariant 0 <= i <= count
      invariant forall k :: 0 <= k < i ==> monthlyData[k] == EntryFor(fees, today, k)
    {
      var entry := MonthEntry(fees, today, i);
      monthlyData[i] := entry;
      i := i + 1;
    }
    ReverseInPlace(monthlyData);
    data := monthlyData[..];
  }

  /** The body of the breakdown loop for `i` months back: step back with a
      single year wrap, then total that period's paid records. */
  method MonthEntry(fees: seq<FeePayment>, today: Date, i: int) returns (entry: MonthlyEntry)
    ensures entry == EntryFor(fees, today, i)
  {
    var month := today.month - i;
    var year := today.year;
    if month <= 0 {
      month := month + 12;
      year := year - 1;
    }
    var paid := PaidInPeriod(fees, month, year);
    entry := MonthlyEntry(month, year, SumAmounts(paid), |paid|);
  }

  /** After the reverse the entries run oldest first, one month apart, and the
      last one is the current period. */
  lemma BreakdownChronological(fees: seq<FeePayment>, today: Date, n: nat)
    ensures var r := Breakdown(fees, today, n);
      (forall k :: 0 <= k < n - 1 ==>
        MonthIndex(r[k + 1].month, r[k + 1].year) == MonthIndex(r[k].month, r[k].year) + 1) &&
      (n > 0 && 1 <= today.month ==> r[n - 1].month == today.month && r[n - 1].year == today.year)
  {
    var r := Breakdown(fees, today, n);
    forall k | 0 <= k < n - 1
      ensures MonthIndex(r[k + 1].month, r[k + 1].year) == MonthIndex(r[k].month, r[k].year) + 1
    {
      assert r[k] == EntryFor(fees, today, n - 1 - k);
      assert r[k + 1] == EntryFor(fees, today, n - 2 - k);
    }
    if n > 0 {
      assert r[n - 1] == EntryFor(fees, today, 0);
    }
  }

  /** With a real current month, the entry for `i` months back has a month in
      1..12 exactly when i < currentMonth + 12; further back the single wrap
      leaves the month at 0 or below. */
  lemma BreakdownMonthRange(fees: seq<FeePayment>, today: Date, n: nat, k: nat)
    requires 1 <= today.month <= 12 && k < n
    ensures var e := Breakdown(fees, today, n)[k];
      var i := n - 1 - k;
      (1 <= e.month <= 12 <==> i < today.month + 12) &&
      MonthIndex(e.month, e.year) == MonthIndex(today.month, today.year) - i
  {
    var i := n - 1 - k;
    assert Breakdown(fees, today, n)[k] == EntryFor(fees, today, i);
    var (m, y) := ShiftBack(today.month, today.year, i);
    assert EntryFor(fees, today, i).month == m && EntryFor(fees, today, i).year == y;
    ShiftBackInRange(today.month, today.year, i);
  }

  /** Each entry's figures are the paid records of its own period. */
  lemma BreakdownTotals(fees: seq<FeePayment>, today: Date, n: nat, k: nat)
    requires k < n
    requires forall i :: 0 <= i < |fees| ==> ValidFee(fees[i])
    ensures var e := Breakdown(fees, today, n)[k];
      e.totalAmount == SumAmounts(PaidInPeriod(fees, e.month, e.year)) && e.totalAmount >= 0 &&
      e.paidCount == |PaidInPeriod(fees, e.month, e.year)|
  {
    var e := Breakdown(fees, today, n)[k];
    assert e == EntryFor(fees, today, n - 1 - k);
    var paid := PaidInPeriod(fees, e.month, e.year);
    assert forall i :: 0 <= i < |paid| ==> paid[i] in fees;
    SumAmountsNonNegative(paid);
  }
}
