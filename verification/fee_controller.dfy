/** The fee ledger: creating a payment record after the student and
    duplicate checks, and the read handlers (single record, all records by
    query, one student's records, the monthly summary). */
module FeeController {
  import opened Common
  import opened Periods
  import opened StudentModel
  import opened FeeModel
  import opened Sequences
  import opened WhatsAppService

  /** The body of a create request; a field the client left out is None.
      Any `status` in the body is overwritten with `paid`, so it is not a
      field here. */
  datatype FeeInput = FeeInput(
    studentId: StudentId,
    amount: Option<int>,
    month: Option<int>,
    year: Option<int>,
    paidDate: Option<int>,
    paymentMethod: Option<string>,
    notes: Option<string>)

  /** The created record with the confirmation link, null when the link could
      not be made. */
  datatype CreatedFee = CreatedFee(fee: FeePayment, whatsappLink: Option<string>)

  /** `Fee.findOne({studentId, month, year})`: a record of that period, of any
      status; a missing month or year matches nothing. */
  function FindPeriodRecord(fees: seq<FeePayment>, studentId: StudentId, month: Option<int>, year: Option<int>): (r: Option<FeePayment>)
    ensures r.Some? ==> month.Some? && year.Some?
    ensures r.Some? ==> r.value in fees && ForPeriod(r.value, studentId, month.value, year.value)
    ensures r.None? <==> (month.None? || year.None? ||
      forall i :: 0 <= i < |fees| ==> !ForPeriod(fees[i], studentId, month.value, year.value))
  {
    if month.None? || year.None? || fees == [] then None
    else if ForPeriod(fees[0], studentId, month.value, year.value) then Some(fees[0])
    else
      var r := FindPeriodRecord(fees[1..], studentId, month, year);
      assert forall i :: 1 <= i < |fees| ==> fees[i] == fees[1..][i - 1];
      r
  }

  /** The schema validators on the fields the request supplies. */
  predicate ValidFeeInput(body: FeeInput) {
    body.amount.Some? && body.amount.value >= 0 &&
    body.month.Some? && 1 <= body.month.value <= 12 &&
    body.year.Some? && body.year.value >= 2020
  }

  /** The record `Fee.create` stores: status forced to paid, `paidDate`
      defaulting to now. */
  function NewFee(id: FeeId, body: FeeInput, now: int): (f: FeePayment)
    requires ValidFeeInput(body)
    ensures ValidFee(f) && f.status == Paid
    ensures ForPeriod(f, body.studentId, body.month.value, body.year.value)
    ensures f.id == id && f.amount == body.amount.value
    ensures f.paidDate == (if body.paidDate.Some? then body.paidDate.value else now)
    ensures f.paymentMethod == body.paymentMethod && f.notes == body.notes
  {
    FeePayment(id, body.studentId, body.amount.value, body.month.value, body.year.value,
      match body.paidDate case None => now case Some(d) => d,
      Paid, body.paymentMethod, body.notes)
  }

  /** createFee on a ledger `fees` whose next id is `nextId`: the response and
      the ledger afterwards. The checks run in the handler's order: student
      lookup, paid record for the period, schema validation, then the unique
      index, which a non-paid record of the period trips. */
  function CreateFeeOutcome(students: seq<Student>, fees: seq<FeePayment>, nextId: FeeId, body: FeeInput, now: int): (out: (Result<CreatedFee>, seq<FeePayment>))
    ensures out.0.Err? ==> out.1 == fees
    ensures out.0 == Err(StudentNotFound) <==> FindStudent(students, body.studentId).None?
    ensures out.0 == Err(FeeAlreadyPaid) <==> (FindStudent(students, body.studentId).Some? &&
      FindPeriodRecord(fees, body.studentId, body.month, body.year).Some? &&
      FindPeriodRecord(fees, body.studentId, body.month, body.year).value.status == Paid)
    ensures out.0 == Err(ValidationFailed) <==> (FindStudent(students, body.studentId).Some? &&
      !(FindPeriodRecord(fees, body.studentId, body.month, body.year).Some? &&
        FindPeriodRecord(fees, body.studentId, body.month, body.year).value.status == Paid) &&
      !ValidFeeInput(body))
    ensures out.0 == Err(DuplicateKey) <==> (FindStudent(students, body.studentId).Some? &&
      ValidFeeInput(body) &&
      FindPeriodRecord(fees, body.studentId, body.month, body.year).Some? &&
      FindPeriodRecord(fees, body.studentId, body.month, body.year).value.status != Paid)
    ensures out.0.Ok? ==>
      ValidFeeInput(body) && FindPeriodRecord(fees, body.studentId, body.month, body.year).None? &&
      out.1 == fees + [out.0.value.fee] &&
      out.0.value.fee == NewFee(nextId, body, now)
    ensures out.0.Ok? <==> (FindStudent(students, body.studentId).Some? && ValidFeeInput(body) &&
      FindPeriodRecord(fees, body.studentId, body.month, body.year).None?)
  {
    match FindStudent(students, body.studentId)
    case None => (Err(StudentNotFound), fees)
    case Some(_) =>
      var existing := FindPeriodRecord(fees, body.studentId, body.month, body.year);
      if existing.Some? && existing.value.status == Paid then (Err(FeeAlreadyPaid), fees)
      else if !ValidFeeInput(body) then (Err(ValidationFailed), fees)
      else if existing.Some? then (Err(DuplicateKey), fees)
      else
        var fee := NewFee(nextId, body, now);
        var link := GetPaymentConfirmationLink(students, body.studentId, fee.amount, fee.month, fee.year);
        (Ok(CreatedFee(fee, if link.Ok? then Some(link.value.link) else None)), fees + [fee])
  }

  /** The ledger invariant: every record passed the schema, no two share a
      period, and ids increase in creation order below `nextId`. */
  predicate LedgerInvariant(fees: seq<FeePayment>, nextId: FeeId) {
    (forall i :: 0 <= i < |fees| ==> ValidFee(fees[i]) && fees[i].id < nextId) &&
    (forall i, j :: 0 <= i < j < |fees| ==> fees[i].id < fees[j].id) &&
    UniquePeriods(fees)
  }

  /** createFee keeps the ledger invariant: at most one record per period. */
  lemma CreateFeeKeepsInvariant(students: seq<Student>, fees: seq<FeePayment>, nextId: FeeId, body: FeeInput, now: int)
    requires LedgerInvariant(fees, nextId)
    ensures var out := CreateFeeOutcome(students, fees, nextId, body, now);
      LedgerInvariant(out.1, if out.0.Ok? then nextId + 1 else nextId)
  {
    var out := CreateFeeOutcome(students, fees, nextId, body, now);
    if out.0.Ok? {
      var f := out.0.value.fee;
      assert ForPeriod(f, body.studentId, body.month.value, body.year.value);
      AppendKeepsLedgerInvariant(fees, nextId, f);
    }
  }

  /** Appending a valid record with the next id and a period not yet on the
      ledger keeps the invariant. */
  lemma AppendKeepsLedgerInvariant(fees: seq<FeePayment>, nextId: FeeId, f: FeePayment)
    requires LedgerInvariant(fees, nextId)
    requires ValidFee(f) && f.id == nextId
    requires forall i :: 0 <= i < |fees| ==> !ForPeriod(fees[i], f.studentId, f.month, f.year)
    ensures LedgerInvariant(fees + [f], nextId + 1)
  {
    var g := fees + [f];
    forall i, j | 0 <= i < j < |g|
      ensures !ForPeriod(g[j], g[i].studentId, g[i].month, g[i].year)
    {
      if j == |fees| {
        assert g[i] == fees[i];
      }
    }
  }

  /** A missing confirmation link does not fail creation: the record is still
      appended and `whatsappLink` is null exactly when the link failed. */
  lemma CreateFeeLinkOptional(students: seq<Student>, fees: seq<FeePayment>, nextId: FeeId, body: FeeInput, now: int)
    requires FindStudent(students, body.studentId).Some? && ValidFeeInput(body)
    requires FindPeriodRecord(fees, body.studentId, body.month, body.year).None?
    ensures var out := CreateFeeOutcome(students, fees, nextId, body, now);
      out.0.Ok? && |out.1| == |fees| + 1 &&
      (out.0.value.whatsappLink.None? <==>
        GetPaymentConfirmationLink(students, body.studentId, body.amount.value, body.month.value, body.year.value).Err?)
  {
  }

  /** The ledger: fee records in creation order. */
  class FeeLedger {
    var records: seq<FeePayment>
    var nextId: FeeId

    predicate Valid()
      reads this
    {
      LedgerInvariant(records, nextId)
    }

    constructor ()
      ensures Valid() && records == [] && nextId == 0
    {
      records := [];
      nextId := 0;
    }

    /** createFee: check the student, check for a paid record of the period,
        then create the record with status paid and make the confirmation
        link, whose failure leaves `whatsappLink` null. */
    method CreateFee(students: seq<Student>, body: FeeInput, now: int) returns (r: Result<CreatedFee>)
      requires Valid()
      modifies this
      ensures Valid()
      ensures (r, records) == CreateFeeOutcome(students, old(records), old(nextId), body, now)
      ensures nextId == if r.Ok? then old(nextId) + 1 else old(nextId)
    {
      CreateFeeKeepsInvariant(students, records, nextId, body, now);
      var student := FindStudent(students, body.studentId);
      if student.None? {
        return Err(StudentNotFound);
      }
      var existingFee := FindPeriodRecord(records, body.studentId, body.month, body.year);
      if existingFee.Some? && existingFee.value.status == Paid {
        return Err(FeeAlreadyPaid);
      }
      if !ValidFeeInput(body) {
        return Err(ValidationFailed);
      }
      if existingFee.Some? {
        return Err(DuplicateKey);
      }
      var fee := NewFee(nextId, body, now);
      records := records + [fee];
      nextId := nextId + 1;
      var whatsappLink: Option<string> := None;
      var linkResult := GetPaymentConfirmationLink(students, body.studentId, fee.amount, fee.month, fee.year);
      if linkResult.Ok? {
        whatsappLink := Some(linkResult.value.link);
      }
      r := Ok(CreatedFee(fee, whatsappLink));
    }

    /** getFee: the record with the given id. */
    function GetFee(id: FeeId): (r: Result<FeePayment>)
      reads this
      ensures r.Ok? ==> r.value in records && r.value.id == id
      ensures r == Err(FeeNotFound) <==> forall i :: 0 <= i < |records| ==> records[i].id != id
    {
      FindFee(records, id)
    }

    /** getMonthlyFees on the stored records. */
    function GetMonthlyFees(month: Option<int>, year: Option<int>): (r: Result<MonthlySummary>)
      reads this
      ensures r == Err(MonthAndYearRequired) <==> month.None? || year.None?
      ensures r.Ok? ==> r.value == MonthlySummaryOf(records, month.value, year.value)
    {
      MonthlyFees(records, month, year)
    }

    /** getStudentFees on the stored records. */
    function GetStudentFees(studentId: StudentId): (r: seq<FeePayment>)
      reads this
      ensures multiset(r) == multiset(Select(records, OfStudent(studentId)))
      ensures SortedBy(r, PeriodNewerOrSame)
    {
      StudentFees(records, studentId)
    }

    /** getFees on the stored records. */
    function GetFees(query: FeeQuery): (r: seq<FeePayment>)
      reads this
      ensures multiset(r) == multiset(Select(records, MatchesTest(query)))
      ensures SortedBy(r, NewerOrSame)
    {
      Fees(records, query)
    }
  }

  function FindFee(fees: seq<FeePayment>, id: FeeId): (r: Result<FeePayment>)
    ensures r.Ok? ==> r.value in fees && r.value.id == id
    ensures r == Err(FeeNotFound) <==> forall i :: 0 <= i < |fees| ==> fees[i].id != id
    ensures r.Err? ==> r == Err(FeeNotFound)
  {
    if fees == [] then Err(FeeNotFound)
    else if fees[0].id == id then Ok(fees[0])
    else
      var r := FindFee(fees[1..], id);
      assert forall i :: 1 <= i < |fees| ==> fees[i] == fees[1..][i - 1];
      r
  }

  // ---------------------------------------------------------------------
  // Monthly summary
  // ---------------------------------------------------------------------

  datatype MonthlySummary = MonthlySummary(
    month: int,
    year: int,
    totalAmount: int,
    paidCount: nat,
    totalCount: nat,
    fees: seq<FeePayment>)

  predicate IsPaid(f: FeePayment) { f.status == Paid }

  /** The summary of a period: its records of every status, their amount
      total, how many are paid, and how many there are. */
  function MonthlySummaryOf(fees: seq<FeePayment>, month: int, year: int): (r: MonthlySummary)
    ensures r.month == month && r.year == year
    ensures r.fees == InPeriod(fees, month, year)
    ensures forall f :: f in r.fees <==> f in fees && f.month == month && f.year == year
    ensures r.totalAmount == SumAmounts(r.fees)
    ensures r.paidCount == Count(r.fees, IsPaidTest()) <= r.totalCount == |r.fees|
  {
    var periodFees := InPeriod(fees, month, year);
    MonthlySummary(month, year, SumAmounts(periodFees), Count(periodFees, IsPaidTest()), |periodFees|, periodFees)
  }

  /** getMonthlyFees: month and year are both required. */
  function MonthlyFees(fees: seq<FeePayment>, month: Option<int>, year: Option<int>): (r: Result<MonthlySummary>)
    ensures r == Err(MonthAndYearRequired) <==> month.None? || year.None?
    ensures r.Ok? ==> r.value == MonthlySummaryOf(fees, month.value, year.value)
  {
    if month.None? || year.None? then Err(MonthAndYearRequired)
    else Ok(MonthlySummaryOf(fees, month.value, year.value))
  }

  /** The summary's `paidCount` is the dashboard's paid count for the period,
      and its `totalAmount` is the paid total plus the total of the period's
      pending and overdue records: every status is summed, so it covers at
      least the paid total. */
  lemma MonthlySummaryCoversPaid(fees: seq<FeePayment>, month: int, year: int)
    requires forall i :: 0 <= i < |fees| ==> fees[i].amount >= 0
    ensures var r := MonthlySummaryOf(fees, month, year);
      r.paidCount == |PaidInPeriod(fees, month, year)| &&
      r.totalAmount == SumAmounts(PaidInPeriod(fees, month, year)) +
        SumAmounts(Select(InPeriod(fees, month, year), IsUnpaidTest())) &&
      r.totalAmount >= SumAmounts(PaidInPeriod(fees, month, year))
  {
    PaidOfPeriod(fees, month, year);
    var inp := InPeriod(fees, month, year);
    forall i | 0 <= i < |inp| ensures inp[i].amount >= 0 {
      assert inp[i] in fees;
    }
    SumOfSelectAtMost(inp, IsPaidTest());
    SumAmountsByStatus(inp);
  }

  function IsUnpaidTest(): FeePayment -> bool {
    (f: FeePayment) => !IsPaid(f)
  }

  /** A total splits into the paid records' total and the others'. */
  lemma {:induction false} SumAmountsByStatus(fees: seq<FeePayment>)
    ensures SumAmounts(fees) == SumAmounts(Select(fees, IsPaidTest())) + SumAmounts(Select(fees, IsUnpaidTest()))
  {
    if fees != [] {
      var n := |fees| - 1;
      var front := fees[..n];
      var last := fees[n];
      SumAmountsByStatus(front);
      var paid := Select(front, IsPaidTest());
      var other := Select(front, IsUnpaidTest());
      assert SumAmounts(fees) == SumAmounts(front) + last.amount;
      assert SumAmounts([last]) == last.amount;
      if IsPaid(last) {
        assert Select(fees, IsPaidTest()) == paid + [last];
        assert Select(fees, IsUnpaidTest()) == other;
        SumAmountsAppend(paid, [last]);
      } else {
        assert Select(fees, IsPaidTest()) == paid;
        assert Select(fees, IsUnpaidTest()) == other + [last];
        SumAmountsAppend(other, [last]);
      }
    }
  }

  function IsPaidTest(): FeePayment -> bool {
    (f: FeePayment) => IsPaid(f)
  }

  /** The paid records of the period are the period's records filtered by status. */
  lemma {:induction false} PaidOfPeriod(fees: seq<FeePayment>, month: int, year: int)
    ensures Select(InPeriod(fees, month, year), IsPaidTest()) == PaidInPeriod(fees, month, year)
  {
    if fees != [] {
      var n := |fees| - 1;
      var f := fees[n];
      var front := fees[..n];
      PaidOfPeriod(front, month, year);
      var x := if IsPaidTest()(f) && f.month == month && f.year == year then [f] else [];
      InPeriodStep(fees, month, year);
      PaidInPeriodStep(fees, month, year);
      assert Select(InPeriod(fees, month, year), IsPaidTest()) == Select(InPeriod(front, month, year), IsPaidTest()) + x by {
        var a := InPeriod(front, month, year);
        if f.month == month && f.year == year {
          assert InPeriod(fees, month, year) == a + [f];
          SelectSnoc(a, f, IsPaidTest());
        } else {
          assert InPeriod(fees, month, year) == a;
          assert x == [];
        }
      }
    }
  }

  lemma InPeriodStep(fees: seq<FeePayment>, month: int, year: int)
    requires fees != []
    ensures var n := |fees| - 1;
      InPeriod(fees, month, year) ==
        InPeriod(fees[..n], month, year) + (if fees[n].month == month && fees[n].year == year then [fees[n]] else [])
  {
  }

  lemma PaidInPeriodStep(fees: seq<FeePayment>, month: int, year: int)
    requires fees != []
    ensures var n := |fees| - 1;
      PaidInPeriod(fees, month, year) ==
        PaidInPeriod(fees[..n], month, year) + (if IsPaidTest()(fees[n]) && fees[n].month == month && fees[n].year == year then [fees[n]] else [])
  {
  }

  /** Dropping records of non-negative amount never raises the sum. */
  lemma {:induction false} SumOfSelectAtMost(fees: seq<FeePayment>, keep: FeePayment -> bool)
    requires forall i :: 0 <= i < |fees| ==> fees[i].amount >= 0
    ensures SumAmounts(Select(fees, keep)) <= SumAmounts(fees)
  {
    if fees != [] {
      var n := |fees| - 1;
      var front := fees[..n];
      SumOfSelectAtMost(front, keep);
      var sel := Select(front, keep);
      assert SumAmounts(fees) == SumAmounts(front) + fees[n].amount;
      if keep(fees[n]) {
        assert Select(fees, keep) == sel + [fees[n]];
        SumAmountsAppend(sel, [fees[n]]);
        assert SumAmounts([fees[n]]) == fees[n].amount;
      } else {
        assert Select(fees, keep) == sel;
      }
    }
  }

  // ---------------------------------------------------------------------
  // Queries with ordering
  // ---------------------------------------------------------------------

  function OfStudent(studentId: StudentId): FeePayment -> bool {
    (f: FeePayment) => f.studentId == studentId
  }

  /** `.sort({year: -1, month: -1})`: a later period first. */
  predicate PeriodNewerOrSame(a: FeePayment, b: FeePayment) {
    a.year > b.year || (a.year == b.year && a.month >= b.month)
  }

  /** `.sort({year: -1, month: -1, createdAt: -1})`: a later period first, and
      within a period the later-created (higher id) record first. */
  predicate NewerOrSame(a: FeePayment, b: FeePayment) {
    a.year > b.year || (a.year == b.year && (a.month > b.month || (a.month == b.month && a.id >= b.id)))
  }

  lemma PeriodOrderIsTotal()
    ensures TotalPreorder(PeriodNewerOrSame)
  {
  }

  lemma NewerOrderIsTotal()
    ensures TotalPreorder(NewerOrSame)
  {
  }

  /** getStudentFees: that student's records, latest period first. */
  function StudentFees(fees: seq<FeePayment>, studentId: StudentId): (r: seq<FeePayment>)
    ensures multiset(r) == multiset(Select(fees, OfStudent(studentId)))
    ensures SortedBy(r, PeriodNewerOrSame)
    ensures forall f :: f in r <==> f in fees && f.studentId == studentId
  {
    var own := Select(fees, OfStudent(studentId));
    PeriodOrderIsTotal();
    SortBySorted(own, PeriodNewerOrSame);
    var r := SortBy(own, PeriodNewerOrSame);
    SameElements(r, own);
    r
  }

  /** Under the unique index one student's records have distinct periods, so
      the order is strict: each record's period is later than the next one's. */
  lemma StudentFeesStrict(fees: seq<FeePayment>, studentId: StudentId)
    requires UniquePeriods(fees)
    ensures var r := StudentFees(fees, studentId);
      forall i :: 0 <= i < |r| - 1 ==>
        r[i].year > r[i + 1].year || (r[i].year == r[i + 1].year && r[i].month > r[i + 1].month)
  {
    var r := StudentFees(fees, studentId);
    forall i | 0 <= i < |r| - 1
      ensures r[i].year > r[i + 1].year || (r[i].year == r[i + 1].year && r[i].month > r[i + 1].month)
    {
      assert PeriodNewerOrSame(r[i], r[i + 1]);
      if r[i].year == r[i + 1].year && r[i].month == r[i + 1].month {
        DistinctRecordsDifferInPeriod(fees, r[i], r[i + 1], r, i);
      }
    }
  }

  /** Two positions of a sorted query result hold two different ledger
      records, which the unique index keeps apart when both are one student's. */
  lemma DistinctRecordsDifferInPeriod(fees: seq<FeePayment>, a: FeePayment, b: FeePayment, r: seq<FeePayment>, i: nat)
    requires UniquePeriods(fees)
    requires i + 1 < |r| && r[i] == a && r[i + 1] == b
    requires multiset(r) == multiset(Select(fees, OfStudent(a.studentId)))
    requires a.studentId == b.studentId
    ensures !(a.year == b.year && a.month == b.month)
  {
    var own := Select(fees, OfStudent(a.studentId));
    if a == b {
      // The same record twice in the result would be the same record twice in the ledger.
      AdjacentTwice(r, i);
      SelectCountAtMostLedger(fees, OfStudent(a.studentId), a);
      UniqueRecordOnce(fees, a);
    } else {
      assert a in multiset(own) && b in multiset(own);
      assert a in fees && b in fees;
      var ia :| 0 <= ia < |fees| && fees[ia] == a;
      var ib :| 0 <= ib < |fees| && fees[ib] == b;
    }
  }

  lemma {:induction false} SelectCountAtMostLedger(fees: seq<FeePayment>, keep: FeePayment -> bool, x: FeePayment)
    ensures multiset(Select(fees, keep))[x] <= multiset(fees)[x]
  {
    if fees != [] {
      var n := |fees| - 1;
      SelectCountAtMostLedger(fees[..n], keep, x);
      assert fees == fees[..n] + [fees[n]];
    }
  }

  lemma {:induction false} UniqueRecordOnce(fees: seq<FeePayment>, x: FeePayment)
    requires UniquePeriods(fees)
    ensures multiset(fees)[x] <= 1
  {
    if fees != [] {
      var n := |fees| - 1;
      var front := fees[..n];
      assert fees == front + [fees[n]];
      assert UniquePeriods(front);
      UniqueRecordOnce(front, x);
    }
  }

  /** The `getFees` query: each present field must match. */
  datatype FeeQuery = FeeQuery(studentId: Option<StudentId>, month: Option<int>, year: Option<int>, status: Option<string>)

  predicate Matches(f: FeePayment, q: FeeQuery) {
    (q.studentId.None? || f.studentId == q.studentId.value) &&
    (q.month.None? || f.month == q.month.value) &&
    (q.year.None? || f.year == q.year.value) &&
    (q.status.None? || StatusName(f.status) == q.status.value)
  }

  function MatchesTest(q: FeeQuery): FeePayment -> bool {
    (f: FeePayment) => Matches(f, q)
  }

  /** getFees: the matching records, latest period first and, within a
      period, the later-created first. */
  function Fees(fees: seq<FeePayment>, query: FeeQuery): (r: seq<FeePayment>)
    ensures multiset(r) == multiset(Select(fees, MatchesTest(query)))
    ensures SortedBy(r, NewerOrSame)
    ensures forall f :: f in r <==> f in fees && Matches(f, query)
  {
    var matching := Select(fees, MatchesTest(query));
    NewerOrderIsTotal();
    SortBySorted(matching, NewerOrSame);
    var r := SortBy(matching, NewerOrSame);
    SameElements(r, matching);
    r
  }
}
