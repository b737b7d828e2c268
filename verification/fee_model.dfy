/** The Fee schema: a payment record per (student, month, year), its field
    bounds, the unique index on the period, and the period queries and sums
    that the dashboard, the ledger summary and the reminder engine run. */
module FeeModel {
  import opened Common

  datatype FeeStatus = Pending | Paid | Overdue

  /** The stored spelling of a status, which status queries compare against. */
  function StatusName(s: FeeStatus): string {
    match s
    case Pending => "pending"
    case Paid => "paid"
    case Overdue => "overdue"
  }

  /** `paidDate` is a timestamp; the absent optional strings are None. */
  datatype FeePayment = FeePayment(
    id: FeeId,
    studentId: StudentId,
    amount: int,
    month: int,
    year: int,
    paidDate: int,
    status: FeeStatus,
    paymentMethod: Option<string>,
    notes: Option<string>)

  /** The schema bounds: amount >= 0, month 1..12, year >= 2020. */
  predicate ValidFee(f: FeePayment) {
    f.amount >= 0 && 1 <= f.month <= 12 && f.year >= 2020
  }

  predicate ForPeriod(f: FeePayment, studentId: StudentId, month: int, year: int) {
    f.studentId == studentId && f.month == month && f.year == year
  }

  /** The unique index on (studentId, month, year): no two records share a period. */
  predicate UniquePeriods(fees: seq<FeePayment>) {
    forall i, j :: 0 <= i < j < |fees| ==> !ForPeriod(fees[j], fees[i].studentId, fees[i].month, fees[i].year)
  }

  /** `Fee.find({month, year})`: the period's records of any status, in ledger order. */
  function InPeriod(fees: seq<FeePayment>, month: int, year: int): (r: seq<FeePayment>)
    ensures |r| <= |fees|
    ensures forall f :: f in r <==> f in fees && f.month == month && f.year == year
  {
    if fees == [] then []
    else
      var last := fees[|fees| - 1];
      InPeriod(fees[..|fees| - 1], month, year) + (if last.month == month && last.year == year then [last] else [])
  }

  /** `Fee.find({month, year, status: 'paid'})`: the period's paid records, in ledger order. */
  function PaidInPeriod(fees: seq<FeePayment>, month: int, year: int): (r: seq<FeePayment>)
    ensures |r| <= |fees|
    ensures forall f :: f in r <==> f in fees && f.status == Paid && f.month == month && f.year == year
  {
    if fees == [] then []
    else
      var last := fees[|fees| - 1];
      PaidInPeriod(fees[..|fees| - 1], month, year) +
        (if last.status == Paid && last.month == month && last.year == year then [last] else [])
  }

  /** `fees.reduce((sum, fee) => sum + fee.amount, 0)`. */
  function SumAmounts(fees: seq<FeePayment>): int {
    if fees == [] then 0 else SumAmounts(fees[..|fees| - 1]) + fees[|fees| - 1].amount
  }

  /** The ids of the students who paid for the period: the `paidStudentIds` set. */
  function PaidStudentIds(fees: seq<FeePayment>, month: int, year: int): (ids: set<StudentId>)
    ensures forall id :: id in ids <==> exists f :: f in fees && f.status == Paid && f.month == month && f.year == year && f.studentId == id
  {
    set f | f in PaidInPeriod(fees, month, year) :: f.studentId
  }

  /** With every amount non-negative, so is their sum. */
  lemma {:induction false} SumAmountsNonNegative(fees: seq<FeePayment>)
    requires forall i :: 0 <= i < |fees| ==> fees[i].amount >= 0
    ensures SumAmounts(fees) >= 0
  {
    if fees != [] {
      SumAmountsNonNegative(fees[..|fees| - 1]);
    }
  }

  lemma {:induction false} SumAmountsAppend(a: seq<FeePayment>, b: seq<FeePayment>)
    ensures SumAmounts(a + b) == SumAmounts(a) + SumAmounts(b)
    decreases |b|
  {
    if b != [] {
      var ab := a + b;
      assert ab[..|ab| - 1] == a + b[..|b| - 1];
      SumAmountsAppend(a, b[..|b| - 1]);
    } else {
      assert a + b == a;
    }
  }

  /** Recording a paid record for a period raises that period's paid total by
      its amount and its paid count by one; any other record leaves both alone. */
  lemma RecordPayment(fees: seq<FeePayment>, f: FeePayment, month: int, year: int)
    ensures f.status == Paid && f.month == month && f.year == year ==>
      PaidInPeriod(fees + [f], month, year) == PaidInPeriod(fees, month, year) + [f] &&
      SumAmounts(PaidInPeriod(fees + [f], month, year)) == SumAmounts(PaidInPeriod(fees, month, year)) + f.amount
    ensures !(f.status == Paid && f.month == month && f.year == year) ==>
      PaidInPeriod(fees + [f], month, year) == PaidInPeriod(fees, month, year)
  {
    assert (fees + [f])[..|fees|] == fees;
    SumAmountsAppend(PaidInPeriod(fees, month, year), [f]);
  }

  /** No two records in `fees` belong to the same student. */
  predicate DistinctStudents(fees: seq<FeePayment>) {
    forall i, j :: 0 <= i < j < |fees| ==> fees[i].studentId != fees[j].studentId
  }

  lemma {:induction false} DistinctStudentsCount(fees: seq<FeePayment>)
    requires DistinctStudents(fees)
    ensures |set f | f in fees :: f.studentId| == |fees|
  {
    if fees != [] {
      var front := fees[..|fees| - 1];
      var last := fees[|fees| - 1];
      assert DistinctStudents(front);
      DistinctStudentsCount(front);
      var ids := set f | f in front :: f.studentId;
      assert last.studentId !in ids by {
        forall g | g in front ensures g.studentId != last.studentId {
          var k :| 0 <= k < |front| && front[k] == g;
          assert fees[k] == g;
        }
      }
      assert fees == front + [last];
      StudentIdsSnoc(front, last);
      assert |ids + {last.studentId}| == |ids| + 1;
    }
  }

  lemma StudentIdsSnoc(front: seq<FeePayment>, last: FeePayment)
    ensures (set f | f in front + [last] :: f.studentId) == (set f | f in front :: f.studentId) + {last.studentId}
  {
  }

  /** Under the unique index, the period's paid records belong to distinct
      students, so the dashboard's `paidCount` is the number of students who
      paid. */
  lemma PaidCountIsStudentCount(fees: seq<FeePayment>, month: int, year: int)
    requires UniquePeriods(fees)
    ensures |PaidInPeriod(fees, month, year)| == |PaidStudentIds(fees, month, year)|
  {
    var paid := PaidInPeriod(fees, month, year);
    PaidInPeriodDistinctStudents(fees, month, year);
    DistinctStudentsCount(paid);
  }

  lemma {:induction false} PaidInPeriodDistinctStudents(fees: seq<FeePayment>, month: int, year: int)
    requires UniquePeriods(fees)
    ensures DistinctStudents(PaidInPeriod(fees, month, year))
  {
    if fees != [] {
      var front := fees[..|fees| - 1];
      var last := fees[|fees| - 1];
      PaidInPeriodDistinctStudents(front, month, year);
      var p := PaidInPeriod(front, month, year);
      if last.status == Paid && last.month == month && last.year == year {
        var q := p + [last];
        forall i | 0 <= i < |p| ensures p[i].studentId != last.studentId {
          assert p[i] in front;
          var k :| 0 <= k < |front| && front[k] == p[i];
          assert fees[k] == p[i];
        }
        assert forall i, j :: 0 <= i < j < |q| ==> q[i].studentId != q[j].studentId by {
          forall i, j | 0 <= i < j < |q| ensures q[i].studentId != q[j].studentId {
            if j < |p| {
              assert q[i] == p[i] && q[j] == p[j];
            } else {
              assert q[i] == p[i] && q[j] == last;
            }
          }
        }
      }
    }
  }
}
