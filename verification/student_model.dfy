/** The Student schema: its fields, the validators that guard every stored
    record, the `isActive` default, and lookup by id. */
module StudentModel {
  import opened Common
  import opened Periods
  import opened UriEncoding
  import opened Links

  datatype Student = Student(
    id: StudentId,
    fullName: string,
    phone: string,
    flatName: string,
    flatNo: string,
    monthlyFee: int,
    feeDueDate: int,
    isActive: bool)

  /** The digits after the optional '+': a first digit 1-9, then 1 to 14 more. */
  predicate PhoneDigits(d: string) {
    2 <= |d| <= 15 && AllDigits(d) && d[0] != '0'
  }

  /** The phone validator `^\+?[1-9]\d{1,14}$`. */
  predicate ValidPhone(phone: string) {
    if |phone| > 0 && phone[0] == '+' then PhoneDigits(phone[1..]) else PhoneDigits(phone)
  }

  /** A required string field: mongoose rejects the empty string. */
  predicate RequiredString(s: string) { s != "" }

  predicate ValidMonthlyFee(fee: int) { fee >= 0 }

  predicate ValidFeeDueDate(day: int) { 1 <= day <= 31 }

  /** Every schema validator passes. */
  predicate ValidStudent(s: Student) {
    RequiredString(s.fullName) && ValidPhone(s.phone) && RequiredString(s.flatName) &&
    RequiredString(s.flatNo) && ValidMonthlyFee(s.monthlyFee) && ValidFeeDueDate(s.feeDueDate)
  }

  /** The fields of a create request. An absent string field is "", which
      the required validator rejects like a missing one; the numbers and
      `isActive` may be absent. */
  datatype StudentInput = StudentInput(
    fullName: string,
    phone: string,
    flatName: string,
    flatNo: string,
    monthlyFee: Option<int>,
    feeDueDate: Option<int>,
    isActive: Option<bool>)

  /** The document `Student.create` builds from a request carrying both
      required numbers: an absent `isActive` takes the schema default. */
  function NewStudent(id: StudentId, input: StudentInput): (s: Student)
    requires input.monthlyFee.Some? && input.feeDueDate.Some?
    ensures s.id == id && s.fullName == input.fullName && s.phone == input.phone
    ensures s.flatName == input.flatName && s.flatNo == input.flatNo
    ensures s.monthlyFee == input.monthlyFee.value && s.feeDueDate == input.feeDueDate.value
    ensures s.isActive <==> input.isActive != Some(false)
  {
    Student(id, input.fullName, input.phone, input.flatName, input.flatNo,
      input.monthlyFee.value, input.feeDueDate.value,
      match input.isActive case None => true case Some(b) => b)
  }

  /** Every schema validator passes on a create request: the required
      fields are present and each field is within its bounds. */
  predicate ValidStudentInput(input: StudentInput) {
    input.monthlyFee.Some? && input.feeDueDate.Some? && ValidStudent(NewStudent(0, input))
  }

  /** `findById`: the student with the given id, if any. */
  function FindStudent(students: seq<Student>, id: StudentId): (r: Option<Student>)
    ensures r.Some? ==> r.value in students && r.value.id == id
    ensures r.None? <==> forall i :: 0 <= i < |students| ==> students[i].id != id
  {
    if students == [] then None
    else if students[0].id == id then Some(students[0])
    else FindStudent(students[1..], id)
  }

  /** A phone that passes the validator formats to 2-15 digits, so a stored
      student always gets a WhatsApp link. */
  lemma ValidPhoneHasLink(phone: string, message: string)
    requires ValidPhone(phone)
    ensures FormatPhoneNumber(phone).Some?
    ensures 2 <= |FormatPhoneNumber(phone).value| <= 15
    ensures GenerateWhatsAppLink(phone, message).Some?
  {
    if phone[0] == '+' {
      assert phone == "+" + phone[1..];
      KeepDigitsAppend("+", phone[1..]);
      KeepDigitsOfNonDigits("+");
    }
  }

  /** For a stored student the due day is 1..31, so the `|| 10` fallback
      never fires and the overdue rule uses the student's own day. */
  lemma StoredDueDayUsed(s: Student, month: int, year: int, today: Date)
    requires ValidStudent(s)
    ensures DueDayOr10(s.feeDueDate) == s.feeDueDate
    ensures month == today.month && year == today.year ==>
      (IsOverdue(s.feeDueDate, month, year, today) <==> today.day > s.feeDueDate)
  {
  }
}
